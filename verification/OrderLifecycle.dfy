/** The normalized order lifecycle and its table of legal transitions. */
module OrderLifecycle {

  datatype OrderState = Pending | Live | PartiallyFilled | Filled | Canceled | Rejected

  const LEGAL_TRANSITIONS: seq<(OrderState, OrderState)> :=
    [ (Pending, Pending), (Pending, Live), (Pending, PartiallyFilled), (Pending, Filled), (Pending, Rejected),
      (Live, Live), (Live, PartiallyFilled), (Live, Filled), (Live, Canceled), (Live, Rejected),
      (PartiallyFilled, PartiallyFilled), (PartiallyFilled, Filled), (PartiallyFilled, Canceled),
      (PartiallyFilled, Rejected) ]

  predicate IsTerminal(s: OrderState) {
    s == Filled || s == Canceled || s == Rejected
  }

  /** The table read as a rule: forward only, and a pending order cannot be canceled. */
  predicate Legal(from: OrderState, to: OrderState) {
    match from
    case Pending => to != Canceled
    case Live => to != Pending
    case PartiallyFilled => to == PartiallyFilled || IsTerminal(to)
    case _ => false
  }

  /** The scan of the table decides exactly the rule. */
  method CanTransition(from: OrderState, to: OrderState) returns (found: bool)
    ensures found <==> Legal(from, to)
  {
    var i := 0;
    while i < |LEGAL_TRANSITIONS|
      invariant 0 <= i <= |LEGAL_TRANSITIONS|
      invariant forall k :: 0 <= k < i ==> LEGAL_TRANSITIONS[k] != (from, to)
    {
      if LEGAL_TRANSITIONS[i] == (from, to) {
        return true;
      }
      i := i + 1;
    }
    assert LEGAL_TRANSITIONS[0] == (Pending, Pending) && LEGAL_TRANSITIONS[1] == (Pending, Live);
    assert LEGAL_TRANSITIONS[2] == (Pending, PartiallyFilled) && LEGAL_TRANSITIONS[3] == (Pending, Filled);
    assert LEGAL_TRANSITIONS[4] == (Pending, Rejected) && LEGAL_TRANSITIONS[5] == (Live, Live);
    assert LEGAL_TRANSITIONS[6] == (Live, PartiallyFilled) && LEGAL_TRANSITIONS[7] == (Live, Filled);
    assert LEGAL_TRANSITIONS[8] == (Live, Canceled) && LEGAL_TRANSITIONS[9] == (Live, Rejected);
    assert LEGAL_TRANSITIONS[10] == (PartiallyFilled, PartiallyFilled);
    assert LEGAL_TRANSITIONS[11] == (PartiallyFilled, Filled);
    assert LEGAL_TRANSITIONS[12] == (PartiallyFilled, Canceled);
    assert LEGAL_TRANSITIONS[13] == (PartiallyFilled, Rejected);
    return false;
  }

  /** The state after an attempted transition: an illegal one leaves it alone. */
  function Advance(s: OrderState, next: OrderState): OrderState {
    if Legal(s, next) then next else s
  }

  function Rank(s: OrderState): nat {
    match s
    case Pending => 0
    case Live => 1
    case PartiallyFilled => 2
    case _ => 3
  }

  /** The order in which a lifecycle can proceed. */
  predicate Reaches(a: OrderState, b: OrderState) {
    a == b || Rank(a) < Rank(b)
  }

  /** The states a sequence of observations leads to. */
  function AdvanceAll(s: OrderState, observed: seq<OrderState>): OrderState
    decreases |observed|
  {
    if observed == [] then s else AdvanceAll(Advance(s, observed[0]), observed[1..])
  }

  /** `Reaches` is exactly what some sequence of observations can do: the table has no cycle but
      its self-loops, and nothing leaves a terminal state. */
  lemma ReachableIffObservable(a: OrderState, b: OrderState)
    ensures Reaches(a, b) <==> exists observed :: AdvanceAll(a, observed) == b
  {
    if Reaches(a, b) {
      var observed := WitnessPath(a, b);
      assert AdvanceAll(a, observed) == b;
    }
    if observed :| AdvanceAll(a, observed) == b {
      ObservingAdvances(a, observed);
    }
  }

  lemma WitnessPath(a: OrderState, b: OrderState) returns (observed: seq<OrderState>)
    requires Reaches(a, b)
    ensures AdvanceAll(a, observed) == b
  {
    if a == b {
      return [];
    }
    observed := if Legal(a, b) then [b] else [Live, b];
    assert [Live, b][1..] == [b] && [b][1..] == [];
    assert AdvanceAll(b, []) == b;
    assert AdvanceAll(Live, [b]) == AdvanceAll(Advance(Live, b), []);
  }

  lemma {:induction false} ObservingAdvances(s: OrderState, observed: seq<OrderState>)
    ensures Reaches(s, AdvanceAll(s, observed))
    decreases |observed|
  {
    if observed != [] {
      ObservingAdvances(Advance(s, observed[0]), observed[1..]);
    }
  }

  /** Once observed by a non-pending order, an observation never moves it again. */
  lemma ObservedOnceIsStale(s: OrderState, observed: OrderState, later: OrderState)
    requires s != Pending
    requires Reaches(Advance(s, observed), later)
    ensures Advance(later, observed) == later
  {
  }
}
