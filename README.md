# Account balance reducer and action creators

A model of the state-update pipeline of a small Redux demo that keeps one
account balance. Two action creators, `dipositMoney` and `withdrawMoney`,
each return a thunk. Given the store's `dispatch`, the thunk calls it once
with a `{type, payload}` action. The account reducer folds those actions into
the balance. It adds the payload on `"DOPOSIT"` and subtracts it on
`"WITHDRAW"`. On any other tag it returns the state unchanged. An undefined
state defaults to 0.

Files:
- `wrappers.dfy`: `Option`, which stands for a reducer state that may be undefined.
- `account_reducer.dfy`: the `Action` record, the reducer `Reduce`, and a ledger
  view of actions (`Amount`, `Total`). It also has `FoldReduce`, the balance the
  store reaches after applying a run of actions in order, and the lemmas about it.
- `action_creators.dfy`: the two creators. Each thunk is modelled as the
  sequence of actions it hands to `dispatch`.

The program's tag is `"DOPOSIT"`, and the creator and the reducer agree on it.
A general description of the system names the kind `DEPOSIT`. The model
follows the code. `ReduceIgnoresDepositSpelling` shows that the correctly
spelled `"DEPOSIT"` falls into the reducer's default branch.

## Model

| member | source | states |
|---|---|---|
| AccountReducer.Base | src/state/reducers/accountReducer.js:1 | an undefined state counts as balance 0; a defined state is used as it is |
| AccountReducer.Reduce | src/state/reducers/accountReducer.js:1-10 | total (no precondition on state, tag or payload); next balance = defaulted balance + what the action credits under DOPOSIT − what it debits under WITHDRAW |
| AccountReducer.ReduceDoposit | src/state/reducers/accountReducer.js:3-4 | a DOPOSIT of n adds n to the balance, whatever the sign of n |
| AccountReducer.ReduceWithdraw | src/state/reducers/accountReducer.js:5-6 | a WITHDRAW of n subtracts n from the balance, whatever the sign of n |
| AccountReducer.ReduceOtherKind | src/state/reducers/accountReducer.js:7-8 | any other tag leaves the balance unchanged, whatever its payload |
| AccountReducer.ReduceIgnoresDepositSpelling | src/state/reducers/accountReducer.js:2-8 | an action tagged "DEPOSIT" (correct spelling) is not credited and leaves the balance unchanged |
| AccountReducer.ReduceAbsentState | src/state/reducers/accountReducer.js:1 | with no state the reducer acts as from 0, so the first DOPOSIT of n yields n |
| AccountReducer.InitialBalance | src/state/reducers/accountReducer.js:1-8 | the store's first call, with no state and an unrecognised tag, yields 0 |
| AccountReducer.DepositThenWithdraw | src/state/reducers/accountReducer.js:3-6 | a DOPOSIT of n followed by a WITHDRAW of n restores the original balance |
| AccountReducer.FoldNet | src/state/reducers/accountReducer.js:2-9 | applying actions in order from s gives s + sum of DOPOSIT payloads − sum of WITHDRAW payloads |
| AccountReducer.FoldAppend | src/state/reducers/accountReducer.js:1-10 | dispatching one batch and then another ends where dispatching their concatenation ends |
| AccountReducer.TotalAppend | src/state/reducers/accountReducer.js:3-6 | the ledger total under a tag of two concatenated runs is the sum of their totals |
| AccountReducer.TotalPermutation | src/state/reducers/accountReducer.js:3-6 | the ledger total under a tag is the same for any reordering of the same actions |
| AccountReducer.FoldPermutation | src/state/reducers/accountReducer.js:2-9 | any permutation of the same actions ends at the same balance |
| ActionCreators.DipositMoney | src/state/action-creators/index.js:1-8 | the thunk dispatches exactly one action, tagged with the reducer's DOPOSIT tag, carrying the amount unchanged |
| ActionCreators.WithdrawMoney | src/state/action-creators/index.js:10-17 | the thunk dispatches exactly one action, tagged with the reducer's WITHDRAW tag, carrying the amount unchanged |
| ActionCreators.DipositMoneyCredits | src/state/action-creators/index.js:3-5 | what `dipositMoney(a)` dispatches raises any balance by exactly a (no sign or range check) |
| ActionCreators.WithdrawMoneyDebits | src/state/action-creators/index.js:12-14 | what `withdrawMoney(a)` dispatches lowers any balance by exactly a (no sign or range check) |
| ActionCreators.DipositThenWithdrawMoney | src/state/action-creators/index.js:1-17 | dispatching `dipositMoney(a)` then `withdrawMoney(a)` leaves any balance as it was |
| ActionCreators.ButtonScenario | src/App.js:17-18 | from a fresh store, the Diposit button (100) takes the balance to 100 and then the Withdraw button (100) takes it back to 0 |
| ActionCreators.MixedScenario | src/state/action-creators/index.js:1-17 | deposits of 100 and 5 and a withdrawal of 30, dispatched in any order from 0, end at 75 |

## Left out

- The React view in `src/App.js` (rendering, `useSelector`/`useDispatch`, click handlers) is not modelled. Only its constant 100 appears, in `ButtonScenario`.
- The Redux store, `bindActionCreators`, the thunk middleware and subscriber notification are library code. They are not part of this model. Dispatch is modelled as applying the reducer to the thunk's action sequence in order (`FoldReduce`).
- Balances and payloads are mathematical integers. JavaScript numbers (fractions, NaN, Infinity, floating-point rounding, string concatenation when a payload is a string) are not modelled.
- A thunk's deferred or asynchronous call of `dispatch` is not modelled. Only the order of the actions it dispatches matters to the balance.
- The action the store sends on creation is modelled as any action whose tag is neither DOPOSIT nor WITHDRAW (`InitialBalance`). Redux's exact init tag is library code.
