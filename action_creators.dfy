/**
 * The action creators (src/state/action-creators/index.js). Each one returns
 * a thunk that, given the store's `dispatch`, calls it once with a freshly
 * built action. A thunk is modelled here by the sequence of actions it hands
 * to `dispatch`, in order.
 */
module ActionCreators {
  import opened Wrappers
  import opened AccountReducer

  /** The thunk returned by `dipositMoney(amount)`: one DOPOSIT action, amount unchanged. */
  function DipositMoney(amount: int): (dispatched: seq<Action>)
    ensures |dispatched| == 1
    ensures dispatched[0].kind == Doposit && dispatched[0].payload == amount
  {
    [Action("DOPOSIT", amount)]
  }

  /** The thunk returned by `withdrawMoney(amount)`: one WITHDRAW action, amount unchanged. */
  function WithdrawMoney(amount: int): (dispatched: seq<Action>)
    ensures |dispatched| == 1
    ensures dispatched[0].kind == Withdraw && dispatched[0].payload == amount
  {
    [Action("WITHDRAW", amount)]
  }

  /** The store credits exactly what was passed to `dipositMoney`, sign included. */
  lemma DipositMoneyCredits(s: int, amount: int)
    ensures FoldReduce(s, DipositMoney(amount)) == s + amount
  {
  }

  /** The store debits exactly what was passed to `withdrawMoney`, sign included. */
  lemma WithdrawMoneyDebits(s: int, amount: int)
    ensures FoldReduce(s, WithdrawMoney(amount)) == s - amount
  {
  }

  /** Depositing and then withdrawing the same amount leaves any balance as it was. */
  lemma DipositThenWithdrawMoney(s: int, amount: int)
    ensures FoldReduce(s, DipositMoney(amount) + WithdrawMoney(amount)) == s
  {
    FoldAppend(s, DipositMoney(amount), WithdrawMoney(amount));
    DipositMoneyCredits(s, amount);
    WithdrawMoneyDebits(s + amount, amount);
  }

  /**
   * The view's two buttons, each dispatching 100: from a fresh store the
   * balance goes to 100 and then back to 0.
   */
  lemma ButtonScenario()
    ensures FoldReduce(Reduce(None, Action("@@INIT", 0)), DipositMoney(100)) == 100
    ensures FoldReduce(Reduce(None, Action("@@INIT", 0)), DipositMoney(100) + WithdrawMoney(100)) == 0
  {
    DipositThenWithdrawMoney(0, 100);
  }

  /** Deposits of 100 and 5 with a withdrawal of 30, in any order, end at 75 from 0. */
  lemma MixedScenario(reordered: seq<Action>)
    requires multiset(reordered) == multiset(DipositMoney(100) + WithdrawMoney(30) + DipositMoney(5))
    ensures FoldReduce(0, reordered) == 75
  {
    var actions := DipositMoney(100) + WithdrawMoney(30) + DipositMoney(5);
    FoldNet(0, actions);
    TotalAppend(DipositMoney(100) + WithdrawMoney(30), DipositMoney(5), Doposit);
    TotalAppend(DipositMoney(100) + WithdrawMoney(30), DipositMoney(5), Withdraw);
    TotalAppend(DipositMoney(100), WithdrawMoney(30), Doposit);
    TotalAppend(DipositMoney(100), WithdrawMoney(30), Withdraw);
    FoldPermutation(0, actions, reordered);
  }
}
