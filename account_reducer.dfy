/**
 * The account reducer: the pure function the store applies to the current
 * balance and each dispatched action to obtain the next balance
 * (src/state/reducers/accountReducer.js).
 */
module AccountReducer {
  import opened Wrappers

  /** The tag the reducer credits. The misspelling is the program's own. */
  const Doposit: string := "DOPOSIT"
  /** The tag the reducer debits. */
  const Withdraw: string := "WITHDRAW"

  /** A dispatched action: its `type` tag and its numeric `payload`. */
  datatype Action = Action(kind: string, payload: int)

  /** The balance the reducer starts from: an absent state defaults to 0. */
  function Base(state: Option<int>): (b: int)
    ensures state.None? ==> b == 0
    ensures state.Some? ==> b == state.value
  {
    state.GetOr(0)
  }

  /**
   * Ledger view of one action: the amount it carries under tag `kind`,
   * and nothing under any other tag.
   */
  function Amount(a: Action, kind: string): int {
    if a.kind == kind then a.payload else 0
  }

  /** Ledger view of a run of actions: the sum of their amounts under `kind`. */
  function Total(actions: seq<Action>, kind: string): int {
    if actions == [] then 0 else Amount(actions[0], kind) + Total(actions[1..], kind)
  }

  /**
   * The reducer. It is total: no state, tag or payload is rejected. The next
   * balance is the (defaulted) current balance plus what the action credits
   * minus what it debits.
   */
  function Reduce(state: Option<int>, action: Action): (r: int)
    ensures r == Base(state) + Amount(action, Doposit) - Amount(action, Withdraw)
  {
    var s := state.GetOr(0);
    match action.kind
    case "DOPOSIT" => s + action.payload
    case "WITHDRAW" => s - action.payload
    case _ => s
  }

  lemma ReduceDoposit(state: Option<int>, n: int)
    ensures Reduce(state, Action(Doposit, n)) == Base(state) + n
  {
  }

  lemma ReduceWithdraw(state: Option<int>, n: int)
    ensures Reduce(state, Action(Withdraw, n)) == Base(state) - n
  {
  }

  /** Every other tag, whatever its payload, leaves the balance as it was. */
  lemma ReduceOtherKind(state: Option<int>, a: Action)
    requires a.kind != Doposit && a.kind != Withdraw
    ensures Reduce(state, a) == Base(state)
  {
  }

  /** The correctly spelled "DEPOSIT" is not the reducer's tag and changes nothing. */
  lemma ReduceIgnoresDepositSpelling(s: int, n: int)
    ensures Reduce(Some(s), Action("DEPOSIT", n)) == s
  {
  }

  /** An absent state behaves exactly like a balance of 0. */
  lemma ReduceAbsentState(a: Action)
    ensures Reduce(None, a) == Reduce(Some(0), a)
    ensures a.kind == Doposit ==> Reduce(None, a) == a.payload
  {
  }

  /**
   * The action the store sends when it is created carries a tag of its own,
   * so the store's first balance is the default 0.
   */
  lemma InitialBalance(a: Action)
    requires a.kind != Doposit && a.kind != Withdraw
    ensures Reduce(None, a) == 0
  {
  }

  /** A deposit of n followed by a withdrawal of n restores the balance. */
  lemma DepositThenWithdraw(s: int, n: int)
    ensures Reduce(Some(Reduce(Some(s), Action(Doposit, n))), Action(Withdraw, n)) == s
  {
  }

  /** The balance after the store has applied `actions` in order, starting from `s`. */
  function FoldReduce(s: int, actions: seq<Action>): int
    decreases actions
  {
    if actions == [] then s else FoldReduce(Reduce(Some(s), actions[0]), actions[1..])
  }

  /** Net balance: the start plus every DOPOSIT payload minus every WITHDRAW payload. */
  lemma {:induction false} FoldNet(s: int, actions: seq<Action>)
    ensures FoldReduce(s, actions) == s + Total(actions, Doposit) - Total(actions, Withdraw)
    decreases actions
  {
    if actions != [] {
      FoldNet(Reduce(Some(s), actions[0]), actions[1..]);
    }
  }

  /** Dispatching one batch of actions and then another is dispatching their concatenation. */
  lemma {:induction false} FoldAppend(s: int, xs: seq<Action>, ys: seq<Action>)
    ensures FoldReduce(s, xs + ys) == FoldReduce(FoldReduce(s, xs), ys)
    decreases xs
  {
    if xs == [] {
      assert xs + ys == ys;
    } else {
      assert (xs + ys)[0] == xs[0];
      assert (xs + ys)[1..] == xs[1..] + ys;
      FoldAppend(Reduce(Some(s), xs[0]), xs[1..], ys);
    }
  }

  lemma {:induction false} TotalAppend(xs: seq<Action>, ys: seq<Action>, kind: string)
    ensures Total(xs + ys, kind) == Total(xs, kind) + Total(ys, kind)
  {
    if xs == [] {
      assert xs + ys == ys;
    } else {
      assert (xs + ys)[0] == xs[0];
      assert (xs + ys)[1..] == xs[1..] + ys;
      TotalAppend(xs[1..], ys, kind);
    }
  }

  /** Taking one action out of a run takes its amount out of the total. */
  lemma TotalRemove(ys: seq<Action>, i: nat, kind: string)
    requires i < |ys|
    ensures Total(ys, kind) == Amount(ys[i], kind) + Total(ys[..i] + ys[i + 1..], kind)
  {
    assert ys == ys[..i] + [ys[i]] + ys[i + 1..];
    TotalAppend(ys[..i] + [ys[i]], ys[i + 1..], kind);
    TotalAppend(ys[..i], [ys[i]], kind);
    TotalAppend(ys[..i], ys[i + 1..], kind);
  }

  lemma MultisetRemove(ys: seq<Action>, i: nat)
    requires i < |ys|
    ensures multiset(ys[..i] + ys[i + 1..]) == multiset(ys) - multiset{ys[i]}
  {
    assert ys == ys[..i] + [ys[i]] + ys[i + 1..];
  }

  /** The ledger total under a tag depends only on which actions occur, not on their order. */
  lemma {:induction false} TotalPermutation(xs: seq<Action>, ys: seq<Action>, kind: string)
    requires multiset(xs) == multiset(ys)
    ensures Total(xs, kind) == Total(ys, kind)
    decreases |xs|
  {
    if xs == [] {
      assert |ys| == |multiset(ys)| == 0;
    } else {
      var x := xs[0];
      assert x in multiset(ys);
      assert x in ys;
      var i :| 0 <= i < |ys| && ys[i] == x;
      var rest := ys[..i] + ys[i + 1..];
      MultisetRemove(ys, i);
      assert multiset(xs[1..]) == multiset(xs) - multiset{x} by {
        assert xs == [x] + xs[1..];
      }
      TotalPermutation(xs[1..], rest, kind);
      TotalRemove(ys, i, kind);
    }
  }

  /** Any reordering of the same actions ends at the same balance. */
  lemma FoldPermutation(s: int, xs: seq<Action>, ys: seq<Action>)
    requires multiset(xs) == multiset(ys)
    ensures FoldReduce(s, xs) == FoldReduce(s, ys)
  {
    FoldNet(s, xs);
    FoldNet(s, ys);
    TotalPermutation(xs, ys, Doposit);
    TotalPermutation(xs, ys, Withdraw);
  }
}
