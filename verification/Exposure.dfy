/** The worst-case signed position of an instrument, summed over the registry in whatever order its
    hash map is walked. */
module Exposure {
  import opened Wrappers
  import opened OrderLifecycle
  import opened Decimals
  import opened DecimalText
  import opened OrderRecords

  // ---- the sum the gateway computes ----

  /** The amount with the sign of its side, whatever its width. */
  function Signed(side: Side, d: Decimal): Decimal {
    if side == Sell then Decimal(-d.unscaled, d.scale) else d
  }

  /** A sum that would leave 64 bits is skipped. */
  function AddIn(acc: Decimal, amount: Decimal): Decimal {
    if Add(acc, amount).Ok? then Add(acc, amount).value else acc
  }

  /** Executed quantity counts whatever the state. */
  function AddExecuted(acc: Decimal, r: OrderRecord): Decimal {
    match ParseDecimal(OrZero(r.filledQuantity))
    case Ok(filled) => if filled.unscaled != 0 then AddIn(acc, Signed(r.side, filled)) else acc
    case Err(_) => acc
  }

  /** What of `quantity` is still outstanding. */
  function AddOutstanding(acc: Decimal, side: Side, quantity: string, filledQuantity: string): Decimal {
    var total, filled := ParseDecimal(quantity), ParseDecimal(OrZero(filledQuantity));
    if total.Ok? && filled.Ok? then AddIn(acc, Signed(side, SubClampedZero(total.value, filled.value))) else acc
  }

  predicate Replaces(replaced: Option<OrderRecord>, id: string) {
    replaced.Some? && replaced.value.clientOrderId == id
  }

  /** One order walked past. */
  function WalkPast(acc: Decimal, r: OrderRecord, symbol: string, replaced: bool): Decimal {
    if r.symbol != symbol then acc
    else if IsTerminal(r.state) || replaced then AddExecuted(acc, r)
    else AddOutstanding(AddExecuted(acc, r), r.side, r.quantity, r.filledQuantity)
  }

  /** The running sum after the first `n` orders walked. */
  function Walked(orders: map<string, OrderRecord>, keys: seq<string>, n: nat, symbol: string,
                  replaced: Option<OrderRecord>): Decimal
    requires n <= |keys| && forall i :: 0 <= i < |keys| ==> keys[i] in orders
  {
    if n == 0 then ZERO
    else WalkPast(Walked(orders, keys, n - 1, symbol, replaced), orders[keys[n - 1]], symbol,
                  Replaces(replaced, keys[n - 1]))
  }

  function CandidateFill(replaced: Option<OrderRecord>): string {
    if replaced.Some? then replaced.value.filledQuantity else ""
  }

  /** The sum over all orders, then the candidate. */
  function Projected(orders: map<string, OrderRecord>, keys: seq<string>, symbol: string, replaced: Option<OrderRecord>,
                     side: Side, quantity: string): Decimal
    requires forall i :: 0 <= i < |keys| ==> keys[i] in orders
  {
    AddOutstanding(Walked(orders, keys, |keys|, symbol, replaced), side, quantity, CandidateFill(replaced))
  }

  /** `keys` is some order in which the map can be walked. */
  ghost predicate Enumerates(keys: seq<string>, orders: map<string, OrderRecord>) {
    && (forall i, j :: 0 <= i < j < |keys| ==> keys[i] != keys[j])
    && (forall i :: 0 <= i < |keys| ==> keys[i] in orders)
    && (forall id :: id in orders ==> id in keys)
  }

  /** The source reads the parsed fill of a working order whose quantity parses, without asking
      whether it parsed; reading one that did not asserts, and throws where asserts are off. */
  predicate FillReadable(r: OrderRecord) {
    IsTerminal(r.state) || ParseDecimal(r.quantity).Err? || ParseDecimal(OrZero(r.filledQuantity)).Ok?
  }

  predicate Projectable(orders: map<string, OrderRecord>, symbol: string, replaced: Option<OrderRecord>) {
    forall id :: id in orders && orders[id].symbol == symbol && !Replaces(replaced, id) ==> FillReadable(orders[id])
  }

  /** A remainder is negated on the sell side, and a wrapped one may be the least 64-bit value. */
  predicate OutstandingStays(side: Side, quantity: string, filledQuantity: string) {
    var total, filled := ParseDecimal(quantity), ParseDecimal(OrZero(filledQuantity));
    side == Sell && total.Ok? && filled.Ok? ==> NegationStays(SubClampedZero(total.value, filled.value))
  }

  predicate RestStays(r: OrderRecord) {
    IsTerminal(r.state) || OutstandingStays(r.side, r.quantity, r.filledQuantity)
  }

  predicate OrdersStay(orders: map<string, OrderRecord>, symbol: string, replaced: Option<OrderRecord>) {
    forall id :: id in orders && orders[id].symbol == symbol && !Replaces(replaced, id) ==> RestStays(orders[id])
  }

  /** Every negation of the sum stays within 64 bits. */
  predicate ProjectionStays(orders: map<string, OrderRecord>, symbol: string, replaced: Option<OrderRecord>, side: Side,
                            quantity: string)
  {
    OrdersStay(orders, symbol, replaced) && OutstandingStays(side, quantity, CandidateFill(replaced))
  }

  /** The sum ends in a text. */
  predicate Checkable(orders: map<string, OrderRecord>, symbol: string, replaced: Option<OrderRecord>, side: Side,
                      quantity: string)
  {
    Projectable(orders, symbol, replaced) && ProjectionStays(orders, symbol, replaced, side, quantity)
  }

  /** None when a negation overflows, where the source's behaviour is undefined. */
  function Projection(orders: map<string, OrderRecord>, keys: seq<string>, symbol: string,
                      replaced: Option<OrderRecord>, side: Side, quantity: string): Option<Decimal>
    requires forall i :: 0 <= i < |keys| ==> keys[i] in orders
  {
    if ProjectionStays(orders, symbol, replaced, side, quantity)
    then Some(Projected(orders, keys, symbol, replaced, side, quantity)) else None
  }

  /** Summing ends in a value, in the throw of a fill that did not parse, or in a negation that leaves
      64 bits. */
  datatype Summing<T> = Summed(value: T) | Threw | Overflowed

  /** Adds a signed amount, or nothing when its negation overflows. */
  method AddSigned(acc: Decimal, side: Side, amount: Decimal) returns (sum: Option<Decimal>)
    ensures sum == if side == Sell && !NegationStays(amount) then None else Some(AddIn(acc, Signed(side, amount)))
  {
    hide AddIn;
    if side == Sell {
      if !NegationStays(amount) {
        return None;
      }
      return Some(AddIn(acc, Negate(amount)));
    }
    return Some(AddIn(acc, amount));
  }

  /** One turn of the walk. */
  method PassOrder(acc: Decimal, r: OrderRecord, symbol: string, replaced: bool) returns (end: Summing<Decimal>)
    ensures end.Summed? <==> (r.symbol == symbol && !replaced ==> FillReadable(r) && RestStays(r))
    ensures end.Threw? ==> !FillReadable(r)
    ensures end.Overflowed? ==> !RestStays(r)
    ensures end.Threw? || end.Overflowed? ==> r.symbol == symbol && !replaced
    ensures end.Summed? ==> end.value == WalkPast(acc, r, symbol, replaced)
  {
    hide SubClampedZero, DecimalText.ParseDecimal, AddIn, Signed;
    if r.symbol != symbol {
      return Summed(acc);
    }
    var projected := acc;
    var filled := ParseDecimal(OrZero(r.filledQuantity));
    if filled.Ok? && filled.value.unscaled != 0 {
      var sum := AddSigned(projected, r.side, filled.value);
      projected := sum.value;
    }
    if IsTerminal(r.state) || replaced {
      return Summed(projected);
    }
    var total := ParseDecimal(r.quantity);
    if total.Ok? {
      if filled.Err? {
        return Threw;
      }
      var sum := AddSigned(projected, r.side, SubClampedZero(total.value, filled.value));
      if sum.None? {
        return Overflowed;
      }
      projected := sum.value;
    }
    return Summed(projected);
  }

  predicate Passes(orders: map<string, OrderRecord>, id: string, symbol: string, replaced: Option<OrderRecord>)
    requires id in orders
  {
    orders[id].symbol == symbol && !Replaces(replaced, id) ==> FillReadable(orders[id]) && RestStays(orders[id])
  }

  lemma {:induction false} OrdersPassIff(orders: map<string, OrderRecord>, keys: seq<string>, symbol: string,
                                         replaced: Option<OrderRecord>)
    requires Enumerates(keys, orders)
    ensures Projectable(orders, symbol, replaced) && OrdersStay(orders, symbol, replaced)
       <==> forall i :: 0 <= i < |keys| ==> Passes(orders, keys[i], symbol, replaced)
  {
    hide FillReadable, RestStays, Replaces;
    if forall i :: 0 <= i < |keys| ==> Passes(orders, keys[i], symbol, replaced) {
      forall id | id in orders ensures Passes(orders, id, symbol, replaced) {
        var i :| 0 <= i < |keys| && keys[i] == id;
      }
    }
  }

  /** The sum over the orders; `keys` is the order in which the hash map is walked. */
  method WalkOrders(orders: map<string, OrderRecord>, keys: seq<string>, symbol: string, replaced: Option<OrderRecord>)
    returns (end: Summing<Decimal>)
    requires Enumerates(keys, orders)
    ensures end.Summed? <==> Projectable(orders, symbol, replaced) && OrdersStay(orders, symbol, replaced)
    ensures end.Threw? ==> !Projectable(orders, symbol, replaced)
    ensures end.Overflowed? ==> !OrdersStay(orders, symbol, replaced)
    ensures end.Summed? ==> end.value == Walked(orders, keys, |keys|, symbol, replaced)
  {
    hide FillReadable, RestStays, WalkPast, Projectable, OrdersStay;
    OrdersPassIff(orders, keys, symbol, replaced);
    var projected := ZERO;
    var n := 0;
    while n < |keys|
      invariant 0 <= n <= |keys|
      invariant projected == Walked(orders, keys, n, symbol, replaced)
      invariant forall i :: 0 <= i < n ==> Passes(orders, keys[i], symbol, replaced)
    {
      var past := PassOrder(projected, orders[keys[n]], symbol, Replaces(replaced, keys[n]));
      if !past.Summed? {
        FailsAtOrder(orders, keys[n], symbol, replaced);
        return past;
      }
      projected := past.value;
      n := n + 1;
    }
    end := Summed(projected);
  }

  lemma FailsAtOrder(orders: map<string, OrderRecord>, id: string, symbol: string, replaced: Option<OrderRecord>)
    requires id in orders && orders[id].symbol == symbol && !Replaces(replaced, id)
    ensures !FillReadable(orders[id]) ==> !Projectable(orders, symbol, replaced)
    ensures !RestStays(orders[id]) ==> !OrdersStay(orders, symbol, replaced)
  {
  }

  /** The sum over the orders, then the candidate. */
  method ProjectedPosition(orders: map<string, OrderRecord>, keys: seq<string>, symbol: string,
                           replaced: Option<OrderRecord>, side: Side, quantity: string)
    returns (end: Summing<string>)
    requires Enumerates(keys, orders)
    ensures end.Summed? <==> Checkable(orders, symbol, replaced, side, quantity)
    ensures end.Threw? ==> !Projectable(orders, symbol, replaced)
    ensures end.Overflowed? ==> !ProjectionStays(orders, symbol, replaced, side, quantity)
    ensures end.Summed? ==> end.value == Text(Projected(orders, keys, symbol, replaced, side, quantity))
  {
    hide SubClampedZero, DecimalText.ParseDecimal, AddIn, Signed, Walked, Projectable, OrdersStay;
    var walked := WalkOrders(orders, keys, symbol, replaced);
    if !walked.Summed? {
      return if walked.Threw? then Threw else Overflowed;
    }
    var projected := walked.value;
    var candidate := ParseDecimal(quantity);
    if candidate.Ok? {
      var filled := ParseDecimal(OrZero(CandidateFill(replaced)));
      if filled.Ok? {
        var sum := AddSigned(projected, side, SubClampedZero(candidate.value, filled.value));
        if sum.None? {
          return Overflowed;
        }
        projected := sum.value;
      }
    }
    var text := DecimalToString(projected);
    end := Summed(text);
  }

  // ---- the exact position, in units of 10^-8 ----

  function Units(text: string): Option<nat> {
    match ParseDecimal(text)
    case Err(_) => None
    case Ok(d) =>
      ScaledOrder(d.unscaled, 0, MAX_DECIMAL_SCALE - d.scale);
      Some(At(d, MAX_DECIMAL_SCALE))
  }

  function Executed(r: OrderRecord): nat {
    var f := Units(OrZero(r.filledQuantity));
    if f.Some? then f.value else 0
  }

  function Outstanding(quantity: string, filledQuantity: string): nat {
    var q, f := Units(quantity), Units(OrZero(filledQuantity));
    if q.Some? && f.Some? then ClampZero(q.value - f.value) else 0
  }

  function SignedUnits(side: Side, x: int): int {
    if side == Sell then -x else x
  }

  /** What one order may come to. */
  function Stake(r: OrderRecord, replaced: bool): nat {
    Executed(r) + if IsTerminal(r.state) || replaced then 0 else Outstanding(r.quantity, r.filledQuantity)
  }

  function StakeOf(orders: map<string, OrderRecord>, id: string, symbol: string, replaced: Option<OrderRecord>): nat
    requires id in orders
  {
    if orders[id].symbol == symbol then Stake(orders[id], Replaces(replaced, id)) else 0
  }

  // ---- sums over sets of orders ----

  ghost function Sum(ids: set<string>, value: string -> int): int {
    if ids == {} then 0
    else
      var id :| id in ids;
      value(id) + Sum(ids - {id}, value)
  }

  lemma {:induction false} SumSplits(ids: set<string>, value: string -> int, id: string)
    requires id in ids
    ensures Sum(ids, value) == value(id) + Sum(ids - {id}, value)
    decreases |ids|
  {
    var k :| k in ids && Sum(ids, value) == value(k) + Sum(ids - {k}, value);
    if k != id {
      SumSplits(ids - {k}, value, id);
      SumSplits(ids - {id}, value, k);
      assert ids - {k} - {id} == ids - {id} - {k};
    }
  }

  lemma {:induction false} SumFrame(ids: set<string>, f: string -> int, g: string -> int)
    requires forall id :: id in ids ==> f(id) == g(id)
    ensures Sum(ids, f) == Sum(ids, g)
    decreases |ids|
  {
    if ids != {} {
      var id :| id in ids;
      SumSplits(ids, f, id);
      SumSplits(ids, g, id);
      SumFrame(ids - {id}, f, g);
    }
  }

  function SignedStakes(orders: map<string, OrderRecord>, symbol: string,
                        replaced: Option<OrderRecord>): string -> int
  {
    (id: string) => if id in orders then SignedUnits(orders[id].side, StakeOf(orders, id, symbol, replaced)) else 0
  }

  function Stakes(orders: map<string, OrderRecord>, symbol: string, replaced: Option<OrderRecord>): string -> int {
    (id: string) => if id in orders then StakeOf(orders, id, symbol, replaced) else 0
  }

  /** The signed position over a set of orders. */
  ghost function Position(orders: map<string, OrderRecord>, ids: set<string>, symbol: string,
                          replaced: Option<OrderRecord>): int
  {
    Sum(ids, SignedStakes(orders, symbol, replaced))
  }

  /** The worst-case signed position of an instrument. */
  ghost function ExposureOf(orders: map<string, OrderRecord>, symbol: string): int {
    Position(orders, orders.Keys, symbol, None)
  }

  /** The exact position the candidate would lead to. */
  ghost function Target(orders: map<string, OrderRecord>, symbol: string, replaced: Option<OrderRecord>, side: Side,
                        quantity: string): int
  {
    Position(orders, orders.Keys, symbol, replaced) + SignedUnits(side, Outstanding(quantity, CandidateFill(replaced)))
  }

  /** All stakes added up whatever their side. */
  ghost function TargetGross(orders: map<string, OrderRecord>, symbol: string, replaced: Option<OrderRecord>,
                             quantity: string): int
  {
    Sum(orders.Keys, Stakes(orders, symbol, replaced)) + Outstanding(quantity, CandidateFill(replaced))
  }

  // ---- what the computed sum leaves out ----

  /** A summand whose aligned sum leaves 64 bits is lost whole. */
  function Lost(acc: Decimal, amount: Decimal): int
    requires amount.scale <= MAX_DECIMAL_SCALE
  {
    var m := Max(acc.scale, amount.scale);
    if FitsLl(At(acc, m) + At(amount, m)) then 0 else At(amount, MAX_DECIMAL_SCALE)
  }

  function ExecutedLost(acc: Decimal, r: OrderRecord): int {
    match ParseDecimal(OrZero(r.filledQuantity))
    case Ok(filled) => if filled.unscaled != 0 then Lost(acc, Signed(r.side, filled)) else 0
    case Err(_) => 0
  }

  /** What the unchecked cast takes from a remainder: nothing while it fits 64 bits at its scale. */
  function Wrapped(total: Decimal, filled: Decimal): int
    requires total.scale <= MAX_DECIMAL_SCALE && filled.scale <= MAX_DECIMAL_SCALE
  {
    var m := Max(total.scale, filled.scale);
    var rest := At(total, m) - At(filled, m);
    if rest <= LL_MAX then 0 else Scaled(rest - WrapLl(rest), MAX_DECIMAL_SCALE - m)
  }

  function OutstandingLost(acc: Decimal, side: Side, quantity: string, filledQuantity: string): int {
    var total, filled := ParseDecimal(quantity), ParseDecimal(OrZero(filledQuantity));
    if total.Ok? && filled.Ok?
    then SignedUnits(side, Wrapped(total.value, filled.value))
         + Lost(acc, Signed(side, SubClampedZero(total.value, filled.value)))
    else 0
  }

  function PastLost(acc: Decimal, r: OrderRecord, symbol: string, replaced: bool): int {
    if r.symbol != symbol then 0
    else if IsTerminal(r.state) || replaced then ExecutedLost(acc, r)
    else ExecutedLost(acc, r) + OutstandingLost(AddExecuted(acc, r), r.side, r.quantity, r.filledQuantity)
  }

  function WalkedLost(orders: map<string, OrderRecord>, keys: seq<string>, n: nat, symbol: string,
                      replaced: Option<OrderRecord>): int
    requires n <= |keys| && forall i :: 0 <= i < |keys| ==> keys[i] in orders
  {
    if n == 0 then 0
    else WalkedLost(orders, keys, n - 1, symbol, replaced)
         + PastLost(Walked(orders, keys, n - 1, symbol, replaced), orders[keys[n - 1]], symbol,
                    Replaces(replaced, keys[n - 1]))
  }

  /** Everything skipped or wrapped on one walk, in units of 10^-8. */
  function ProjectedLost(orders: map<string, OrderRecord>, keys: seq<string>, symbol: string,
                         replaced: Option<OrderRecord>, side: Side, quantity: string): int
    requires forall i :: 0 <= i < |keys| ==> keys[i] in orders
  {
    WalkedLost(orders, keys, |keys|, symbol, replaced)
    + OutstandingLost(Walked(orders, keys, |keys|, symbol, replaced), side, quantity, CandidateFill(replaced))
  }

  // ---- one addition ----

  /** `acc` holds exactly `value`. */
  predicate Holds(acc: Decimal, value: int) {
    Canonical(acc) && acc.scale <= MAX_DECIMAL_SCALE && FitsLl(acc.unscaled) && At(acc, MAX_DECIMAL_SCALE) == value
  }

  /** An addition is exact exactly when the aligned sum stays within 64 bits; otherwise it adds nothing. */
  lemma {:induction false} AddInIsExactIffFits(acc: Decimal, value: int, amount: Decimal)
    requires Holds(acc, value) && amount.scale <= MAX_DECIMAL_SCALE
    ensures Holds(AddIn(acc, amount), value + At(amount, MAX_DECIMAL_SCALE) - Lost(acc, amount))
    ensures Canonical(amount) ==>
              (Lost(acc, amount) == 0
               <==> FitsLl(At(acc, Max(acc.scale, amount.scale)) + At(amount, Max(acc.scale, amount.scale))))
  {
    AddIsExact(acc, amount, MAX_DECIMAL_SCALE);
    ScaledOrder(amount.unscaled, 0, MAX_DECIMAL_SCALE - amount.scale);
    ScaledOrder(0, 0, MAX_DECIMAL_SCALE);
  }

  lemma {:induction false} SignedIsExact(side: Side, d: Decimal)
    requires d.scale <= MAX_DECIMAL_SCALE
    ensures At(Signed(side, d), MAX_DECIMAL_SCALE) == SignedUnits(side, At(d, MAX_DECIMAL_SCALE))
  {
    ScaledAdd(0, d.unscaled, MAX_DECIMAL_SCALE - d.scale);
  }

  lemma {:induction false} ExecutedAccounts(acc: Decimal, value: int, r: OrderRecord)
    requires Holds(acc, value)
    ensures Holds(AddExecuted(acc, r), value + SignedUnits(r.side, Executed(r)) - ExecutedLost(acc, r))
  {
    hide DecimalText.ParseDecimal, Add, Lost;
    var filled := ParseDecimal(OrZero(r.filledQuantity));
    if filled.Ok? {
      SignedIsExact(r.side, filled.value);
      ScaledOrder(filled.value.unscaled, 0, MAX_DECIMAL_SCALE - filled.value.scale);
      AddInIsExactIffFits(acc, value, Signed(r.side, filled.value));
    }
  }

  /** The clamped difference is the remainder less what the cast takes, and that is nothing exactly
      when the aligned remainder fits 64 bits. */
  lemma {:induction false} RemainderAccounts(total: Decimal, filled: Decimal)
    requires total.scale <= MAX_DECIMAL_SCALE && filled.scale <= MAX_DECIMAL_SCALE
    ensures SubClampedZero(total, filled).scale <= MAX_DECIMAL_SCALE
    ensures At(SubClampedZero(total, filled), MAX_DECIMAL_SCALE)
         == ClampZero(At(total, MAX_DECIMAL_SCALE) - At(filled, MAX_DECIMAL_SCALE)) - Wrapped(total, filled)
    ensures Wrapped(total, filled) == 0 <==>
            At(total, Max(total.scale, filled.scale)) - At(filled, Max(total.scale, filled.scale)) <= LL_MAX
  {
    hide Normalized, Scaled;
    var m := Max(total.scale, filled.scale);
    var rest := At(total, m) - At(filled, m);
    AtShift(total, m, MAX_DECIMAL_SCALE);
    AtShift(filled, m, MAX_DECIMAL_SCALE);
    ScaledAdd(At(total, m), At(filled, m), MAX_DECIMAL_SCALE - m);
    ScaledAdd(rest, WrapLl(rest), MAX_DECIMAL_SCALE - m);
    ScaledOrder(rest, 0, MAX_DECIMAL_SCALE - m);
    ScaledOrder(rest - WrapLl(rest), 0, MAX_DECIMAL_SCALE - m);
    ScaledOrder(0, 0, MAX_DECIMAL_SCALE);
    if rest > 0 {
      NormalizedKeepsValue(Decimal(WrapLl(rest), m), MAX_DECIMAL_SCALE);
    }
  }

  /** The negation of a remainder leaves 64 bits exactly when the aligned remainder wraps to the least
      64-bit value. */
  lemma {:induction false} RemainderNegatesIff(total: Decimal, filled: Decimal)
    requires total.scale <= MAX_DECIMAL_SCALE && filled.scale <= MAX_DECIMAL_SCALE
    ensures var m := Max(total.scale, filled.scale);
            var rest := At(total, m) - At(filled, m);
            NegationStays(SubClampedZero(total, filled))
            <==> !(rest > 0 && rest % 0x1_0000_0000_0000_0000 == 0x8000_0000_0000_0000)
  {
    hide At, Scaled;
    var m := Max(total.scale, filled.scale);
    var rest := At(total, m) - At(filled, m);
    if rest > 0 {
      NormalizedKeepsValue(Decimal(WrapLl(rest), m), m);
      assert WrapLl(rest) == LL_MIN ==> Normalized(Decimal(WrapLl(rest), m)).unscaled == LL_MIN;
    }
  }

  lemma {:induction false} OutstandingAccounts(acc: Decimal, value: int, side: Side, quantity: string,
                                               filledQuantity: string)
    requires Holds(acc, value)
    ensures Holds(AddOutstanding(acc, side, quantity, filledQuantity),
                  value + SignedUnits(side, Outstanding(quantity, filledQuantity))
                  - OutstandingLost(acc, side, quantity, filledQuantity))
  {
    hide DecimalText.ParseDecimal, Add, Lost, Wrapped, SubClampedZero;
    var total, filled := ParseDecimal(quantity), ParseDecimal(OrZero(filledQuantity));
    if total.Ok? && filled.Ok? {
      RemainderAccounts(total.value, filled.value);
      var rest := SubClampedZero(total.value, filled.value);
      SignedIsExact(side, rest);
      AddInIsExactIffFits(acc, value, Signed(side, rest));
    }
  }

  lemma {:induction false} WalkPastAccounts(acc: Decimal, value: int, orders: map<string, OrderRecord>, id: string,
                                            symbol: string, replaced: Option<OrderRecord>)
    requires id in orders && Holds(acc, value)
    ensures Holds(WalkPast(acc, orders[id], symbol, Replaces(replaced, id)),
                  value + SignedUnits(orders[id].side, StakeOf(orders, id, symbol, replaced))
                  - PastLost(acc, orders[id], symbol, Replaces(replaced, id)))
  {
    hide AddExecuted, AddOutstanding, ExecutedLost, OutstandingLost, Outstanding, Executed, Holds;
    var r := orders[id];
    ExecutedAccounts(acc, value, r);
    OutstandingAccounts(AddExecuted(acc, r), value + SignedUnits(r.side, Executed(r)) - ExecutedLost(acc, r), r.side,
                        r.quantity, r.filledQuantity);
  }

  // ---- the whole walk ----

  /** The exact sum, in the order walked. */
  function WalkedPosition(orders: map<string, OrderRecord>, keys: seq<string>, n: nat, symbol: string,
                          replaced: Option<OrderRecord>): int
    requires n <= |keys| && forall i :: 0 <= i < |keys| ==> keys[i] in orders
  {
    if n == 0 then 0
    else WalkedPosition(orders, keys, n - 1, symbol, replaced)
         + SignedUnits(orders[keys[n - 1]].side, StakeOf(orders, keys[n - 1], symbol, replaced))
  }

  lemma {:induction false} WalkAccounts(orders: map<string, OrderRecord>, keys: seq<string>, n: nat, symbol: string,
                                        replaced: Option<OrderRecord>)
    requires n <= |keys| && forall i :: 0 <= i < |keys| ==> keys[i] in orders
    ensures Holds(Walked(orders, keys, n, symbol, replaced),
                  WalkedPosition(orders, keys, n, symbol, replaced) - WalkedLost(orders, keys, n, symbol, replaced))
  {
    if n == 0 {
      ScaledOrder(0, 0, MAX_DECIMAL_SCALE);
    } else {
      hide WalkPast, PastLost, Holds, StakeOf;
      WalkAccounts(orders, keys, n - 1, symbol, replaced);
      WalkPastAccounts(Walked(orders, keys, n - 1, symbol, replaced),
                       WalkedPosition(orders, keys, n - 1, symbol, replaced)
                       - WalkedLost(orders, keys, n - 1, symbol, replaced), orders,
                       keys[n - 1], symbol, replaced);
    }
  }

  ghost function FirstKeys(keys: seq<string>, n: nat): set<string>
    requires n <= |keys|
  {
    set i | 0 <= i < n :: keys[i]
  }

  /** The order walked does not matter to the exact sum. */
  lemma {:induction false} WalkOrderIsIrrelevant(orders: map<string, OrderRecord>, keys: seq<string>, n: nat,
                                                 symbol: string, replaced: Option<OrderRecord>)
    requires Enumerates(keys, orders) && n <= |keys|
    ensures WalkedPosition(orders, keys, n, symbol, replaced) == Position(orders, FirstKeys(keys, n), symbol, replaced)
  {
    hide StakeOf;
    if n > 0 {
      var id, ids := keys[n - 1], FirstKeys(keys, n);
      assert ids - {id} == FirstKeys(keys, n - 1);
      SumSplits(ids, SignedStakes(orders, symbol, replaced), id);
      WalkOrderIsIrrelevant(orders, keys, n - 1, symbol, replaced);
    }
  }

  /** For every walk: undefined exactly when a negation leaves 64 bits, and else the exact signed sum
      less exactly what was skipped or wrapped on the way; so it is exact if and only if that cancels
      out. */
  lemma {:induction false} ProjectionAccounts(orders: map<string, OrderRecord>, keys: seq<string>, symbol: string,
                                              replaced: Option<OrderRecord>, side: Side, quantity: string)
    requires Enumerates(keys, orders)
    ensures var projection := Projection(orders, keys, symbol, replaced, side, quantity);
            var target, lost := Target(orders, symbol, replaced, side, quantity),
                                ProjectedLost(orders, keys, symbol, replaced, side, quantity);
            && (projection.None? <==> !ProjectionStays(orders, symbol, replaced, side, quantity))
            && (projection.Some?
                ==> Holds(projection.value, target - lost) && (Holds(projection.value, target) <==> lost == 0))
  {
    hide StakeOf, Outstanding, AddOutstanding, OutstandingLost, Walked, WalkedLost, WalkedPosition, ProjectionStays;
    assert FirstKeys(keys, |keys|) == orders.Keys;
    WalkOrderIsIrrelevant(orders, keys, |keys|, symbol, replaced);
    WalkAccounts(orders, keys, |keys|, symbol, replaced);
    OutstandingAccounts(Walked(orders, keys, |keys|, symbol, replaced),
                        Position(orders, orders.Keys, symbol, replaced)
                        - WalkedLost(orders, keys, |keys|, symbol, replaced), side, quantity,
                        CandidateFill(replaced));
  }

  // ---- when nothing is left out ----

  predicate ExecutedFits(acc: Decimal, r: OrderRecord) {
    match ParseDecimal(OrZero(r.filledQuantity))
    case Ok(filled) => filled.unscaled == 0 || Add(acc, Signed(r.side, filled)).Ok?
    case Err(_) => true
  }

  predicate OutstandingFits(acc: Decimal, side: Side, quantity: string, filledQuantity: string) {
    var total, filled := ParseDecimal(quantity), ParseDecimal(OrZero(filledQuantity));
    total.Ok? && filled.Ok? ==>
      && At(total.value, Max(total.value.scale, filled.value.scale))
         - At(filled.value, Max(total.value.scale, filled.value.scale)) <= LL_MAX
      && Add(acc, Signed(side, SubClampedZero(total.value, filled.value))).Ok?
  }

  predicate PastFits(acc: Decimal, r: OrderRecord, symbol: string, replaced: bool) {
    r.symbol == symbol ==>
      && ExecutedFits(acc, r)
      && (IsTerminal(r.state) || replaced || OutstandingFits(AddExecuted(acc, r), r.side, r.quantity, r.filledQuantity))
  }

  predicate WalkFits(orders: map<string, OrderRecord>, keys: seq<string>, n: nat, symbol: string,
                     replaced: Option<OrderRecord>)
    requires n <= |keys| && forall i :: 0 <= i < |keys| ==> keys[i] in orders
  {
    n == 0 || (&& WalkFits(orders, keys, n - 1, symbol, replaced)
               && PastFits(Walked(orders, keys, n - 1, symbol, replaced), orders[keys[n - 1]], symbol,
                           Replaces(replaced, keys[n - 1])))
  }

  /** No aligned sum or difference of the walk leaves 64 bits. */
  predicate ProjectionFits(orders: map<string, OrderRecord>, keys: seq<string>, symbol: string,
                           replaced: Option<OrderRecord>, side: Side, quantity: string)
    requires forall i :: 0 <= i < |keys| ==> keys[i] in orders
  {
    && WalkFits(orders, keys, |keys|, symbol, replaced)
    && OutstandingFits(Walked(orders, keys, |keys|, symbol, replaced), side, quantity, CandidateFill(replaced))
  }

  lemma {:induction false} FittingFillIsKept(acc: Decimal, r: OrderRecord)
    requires ExecutedFits(acc, r)
    ensures ExecutedLost(acc, r) == 0
  {
    hide DecimalText.ParseDecimal;
  }

  lemma {:induction false} FittingRestIsKept(acc: Decimal, side: Side, quantity: string, filledQuantity: string)
    requires OutstandingFits(acc, side, quantity, filledQuantity)
    ensures OutstandingLost(acc, side, quantity, filledQuantity) == 0
  {
    hide DecimalText.ParseDecimal, SubClampedZero;
  }

  lemma {:induction false} FittingWalkLosesNothing(orders: map<string, OrderRecord>, keys: seq<string>, n: nat,
                                                   symbol: string, replaced: Option<OrderRecord>)
    requires n <= |keys| && forall i :: 0 <= i < |keys| ==> keys[i] in orders
    requires WalkFits(orders, keys, n, symbol, replaced)
    ensures WalkedLost(orders, keys, n, symbol, replaced) == 0
  {
    hide ExecutedFits, OutstandingFits, ExecutedLost, OutstandingLost, AddExecuted;
    if n > 0 {
      FittingWalkLosesNothing(orders, keys, n - 1, symbol, replaced);
      var acc, r := Walked(orders, keys, n - 1, symbol, replaced), orders[keys[n - 1]];
      if r.symbol == symbol {
        FittingFillIsKept(acc, r);
        if !IsTerminal(r.state) && !Replaces(replaced, keys[n - 1]) {
          FittingRestIsKept(AddExecuted(acc, r), r.side, r.quantity, r.filledQuantity);
        }
      }
    }
  }

  lemma {:induction false} FittingRestStays(acc: Decimal, side: Side, quantity: string, filledQuantity: string)
    requires OutstandingFits(acc, side, quantity, filledQuantity)
    ensures OutstandingStays(side, quantity, filledQuantity)
  {
    hide DecimalText.ParseDecimal, SubClampedZero, Add;
    var total, filled := ParseDecimal(quantity), ParseDecimal(OrZero(filledQuantity));
    if total.Ok? && filled.Ok? {
      RemainderNegatesIff(total.value, filled.value);
    }
  }

  lemma {:induction false} FittingWalkStays(orders: map<string, OrderRecord>, keys: seq<string>, n: nat, symbol: string,
                                            replaced: Option<OrderRecord>, i: nat)
    requires i < n <= |keys| && forall i :: 0 <= i < |keys| ==> keys[i] in orders
    requires WalkFits(orders, keys, n, symbol, replaced) && orders[keys[i]].symbol == symbol
             && !Replaces(replaced, keys[i])
    ensures RestStays(orders[keys[i]])
  {
    hide ExecutedFits, OutstandingFits, AddExecuted, OutstandingStays;
    if i < n - 1 {
      FittingWalkStays(orders, keys, n - 1, symbol, replaced, i);
    } else if !IsTerminal(orders[keys[i]].state) {
      var acc, r := Walked(orders, keys, i, symbol, replaced), orders[keys[i]];
      FittingRestStays(AddExecuted(acc, r), r.side, r.quantity, r.filledQuantity);
    }
  }

  /** Where no aligned sum or difference overflows no negation does. */
  lemma {:induction false} FittingProjectionStays(orders: map<string, OrderRecord>, keys: seq<string>, symbol: string,
                                                  replaced: Option<OrderRecord>, side: Side, quantity: string)
    requires Enumerates(keys, orders) && ProjectionFits(orders, keys, symbol, replaced, side, quantity)
    ensures ProjectionStays(orders, symbol, replaced, side, quantity)
  {
    hide WalkFits, OutstandingFits, OutstandingStays, RestStays, Walked;
    FittingRestStays(Walked(orders, keys, |keys|, symbol, replaced), side, quantity, CandidateFill(replaced));
    forall id | id in orders && orders[id].symbol == symbol && !Replaces(replaced, id) ensures RestStays(orders[id]) {
      var i :| 0 <= i < |keys| && keys[i] == id;
      FittingWalkStays(orders, keys, |keys|, symbol, replaced, i);
    }
  }

  /** The signed text reads back as `value`. */
  predicate Reads(text: string, value: int) {
    ParseSigned(text).Ok? && At(ParseSigned(text).value, MAX_DECIMAL_SCALE) == value
  }

  /** What is held reads back from its text, but for the least 64-bit value, which does not parse. */
  lemma {:induction false} HeldValueReadsBack(d: Decimal, value: int)
    requires Holds(d, value)
    ensures if d.unscaled == LL_MIN then ParseSigned(Text(d)).Err? else Reads(Text(d), value)
  {
    PrintParseRoundTrip(d);
  }

  /** When no aligned sum or difference overflows, the projection is the exact signed sum, and its text
      reads back as it. */
  lemma {:induction false} ProjectionIsExact(orders: map<string, OrderRecord>, keys: seq<string>, symbol: string,
                                             replaced: Option<OrderRecord>, side: Side, quantity: string)
    requires Enumerates(keys, orders) && ProjectionFits(orders, keys, symbol, replaced, side, quantity)
    ensures var projection := Projection(orders, keys, symbol, replaced, side, quantity);
            && projection.Some?
            && Holds(projection.value, Target(orders, symbol, replaced, side, quantity))
            && (projection.value.unscaled != LL_MIN
                ==> Reads(Text(projection.value), Target(orders, symbol, replaced, side, quantity)))
  {
    FittingProjectionStays(orders, keys, symbol, replaced, side, quantity);
    hide Walked, WalkedLost, OutstandingFits, OutstandingLost, Projected, ProjectionStays, Target, Holds, Reads;
    FittingWalkLosesNothing(orders, keys, |keys|, symbol, replaced);
    FittingRestIsKept(Walked(orders, keys, |keys|, symbol, replaced), side, quantity, CandidateFill(replaced));
    ProjectionAccounts(orders, keys, symbol, replaced, side, quantity);
    HeldValueReadsBack(Projected(orders, keys, symbol, replaced, side, quantity),
                       Target(orders, symbol, replaced, side, quantity));
  }

  // ---- a condition that names no walk ----

  lemma {:induction false} SmallSumFits(acc: Decimal, value: int, amount: Decimal)
    requires Holds(acc, value) && amount.scale <= MAX_DECIMAL_SCALE
             && Abs(value + At(amount, MAX_DECIMAL_SCALE)) <= LL_MAX
    ensures Add(acc, amount).Ok?
  {
    var m := Max(acc.scale, amount.scale);
    AtShift(acc, m, MAX_DECIMAL_SCALE);
    AtShift(amount, m, MAX_DECIMAL_SCALE);
    ScaledAdd(At(acc, m), At(amount, m), MAX_DECIMAL_SCALE - m);
    ScaledOrder(At(acc, m) + At(amount, m), 0, MAX_DECIMAL_SCALE - m);
  }

  lemma {:induction false} SmallFillFits(acc: Decimal, value: int, r: OrderRecord)
    requires Holds(acc, value) && Abs(value) + Executed(r) <= LL_MAX
    ensures ExecutedFits(acc, r)
  {
    hide DecimalText.ParseDecimal, Add, Holds;
    var filled := ParseDecimal(OrZero(r.filledQuantity));
    if filled.Ok? {
      SignedIsExact(r.side, filled.value);
      ScaledOrder(filled.value.unscaled, 0, MAX_DECIMAL_SCALE - filled.value.scale);
      SmallSumFits(acc, value, Signed(r.side, filled.value));
    }
  }

  lemma {:induction false} SmallRemainderFits(total: Decimal, filled: Decimal)
    requires total.scale <= MAX_DECIMAL_SCALE && filled.scale <= MAX_DECIMAL_SCALE
    requires At(total, MAX_DECIMAL_SCALE) - At(filled, MAX_DECIMAL_SCALE) <= LL_MAX
    ensures At(total, Max(total.scale, filled.scale)) - At(filled, Max(total.scale, filled.scale)) <= LL_MAX
  {
    var m := Max(total.scale, filled.scale);
    AtShift(total, m, MAX_DECIMAL_SCALE);
    AtShift(filled, m, MAX_DECIMAL_SCALE);
    ScaledAdd(At(total, m), At(filled, m), MAX_DECIMAL_SCALE - m);
    ScaledOrder(At(total, m) - At(filled, m), 0, MAX_DECIMAL_SCALE - m);
  }

  lemma {:induction false} SmallRestFits(acc: Decimal, value: int, side: Side, quantity: string, filledQuantity: string)
    requires Holds(acc, value) && Abs(value) + Outstanding(quantity, filledQuantity) <= LL_MAX
    ensures OutstandingFits(acc, side, quantity, filledQuantity)
  {
    hide DecimalText.ParseDecimal, Add, Holds, SubClampedZero, Wrapped, Scaled;
    var total, filled := ParseDecimal(quantity), ParseDecimal(OrZero(filledQuantity));
    if total.Ok? && filled.Ok? {
      SmallRemainderFits(total.value, filled.value);
      RemainderAccounts(total.value, filled.value);
      var rest := SubClampedZero(total.value, filled.value);
      SignedIsExact(side, rest);
      SmallSumFits(acc, value, Signed(side, rest));
    }
  }

  lemma {:induction false} SmallStakeFits(acc: Decimal, value: int, r: OrderRecord, symbol: string, replaced: bool)
    requires Holds(acc, value) && r.symbol == symbol && Abs(value) + Stake(r, replaced) <= LL_MAX
    ensures PastFits(acc, r, symbol, replaced)
  {
    hide AddExecuted, ExecutedFits, ExecutedLost, OutstandingFits, Outstanding, Executed, Holds;
    SmallFillFits(acc, value, r);
    ExecutedAccounts(acc, value, r);
    FittingFillIsKept(acc, r);
    if !IsTerminal(r.state) && !replaced {
      SmallRestFits(AddExecuted(acc, r), value + SignedUnits(r.side, Executed(r)), r.side, r.quantity,
                    r.filledQuantity);
    }
  }

  function WalkedGross(orders: map<string, OrderRecord>, keys: seq<string>, n: nat, symbol: string,
                       replaced: Option<OrderRecord>): nat
    requires n <= |keys| && forall i :: 0 <= i < |keys| ==> keys[i] in orders
  {
    if n == 0 then 0
    else WalkedGross(orders, keys, n - 1, symbol, replaced) + StakeOf(orders, keys[n - 1], symbol, replaced)
  }

  lemma {:induction false} SmallWalkFits(orders: map<string, OrderRecord>, keys: seq<string>, n: nat, symbol: string,
                                         replaced: Option<OrderRecord>)
    requires n <= |keys| && forall i :: 0 <= i < |keys| ==> keys[i] in orders
    requires WalkedGross(orders, keys, n, symbol, replaced) <= LL_MAX
    ensures WalkFits(orders, keys, n, symbol, replaced)
    ensures Abs(WalkedPosition(orders, keys, n, symbol, replaced)) <= WalkedGross(orders, keys, n, symbol, replaced)
  {
    hide PastFits, Walked, Holds, Stake;
    if n > 0 {
      SmallWalkFits(orders, keys, n - 1, symbol, replaced);
      FittingWalkLosesNothing(orders, keys, n - 1, symbol, replaced);
      WalkAccounts(orders, keys, n - 1, symbol, replaced);
      var acc, value, r := Walked(orders, keys, n - 1, symbol, replaced),
                           WalkedPosition(orders, keys, n - 1, symbol, replaced), orders[keys[n - 1]];
      if r.symbol == symbol {
        SmallStakeFits(acc, value, r, symbol, Replaces(replaced, keys[n - 1]));
      } else {
        OtherSymbolsFit(acc, r, symbol, Replaces(replaced, keys[n - 1]));
      }
    }
  }

  lemma {:induction false} OtherSymbolsFit(acc: Decimal, r: OrderRecord, symbol: string, replaced: bool)
    requires r.symbol != symbol
    ensures PastFits(acc, r, symbol, replaced)
  {
  }

  lemma {:induction false} GrossOrderIsIrrelevant(orders: map<string, OrderRecord>, keys: seq<string>, n: nat,
                                                  symbol: string, replaced: Option<OrderRecord>)
    requires Enumerates(keys, orders) && n <= |keys|
    ensures WalkedGross(orders, keys, n, symbol, replaced) == Sum(FirstKeys(keys, n), Stakes(orders, symbol, replaced))
  {
    hide StakeOf;
    if n > 0 {
      var id, ids := keys[n - 1], FirstKeys(keys, n);
      assert ids - {id} == FirstKeys(keys, n - 1);
      SumSplits(ids, Stakes(orders, symbol, replaced), id);
      GrossOrderIsIrrelevant(orders, keys, n - 1, symbol, replaced);
    }
  }

  /** No walk overflows while the gross stake fits 64 bits at 10^-8. */
  lemma {:induction false} SmallStakesFit(orders: map<string, OrderRecord>, keys: seq<string>, symbol: string,
                                          replaced: Option<OrderRecord>, side: Side, quantity: string)
    requires Enumerates(keys, orders) && TargetGross(orders, symbol, replaced, quantity) <= LL_MAX
    ensures ProjectionFits(orders, keys, symbol, replaced, side, quantity)
  {
    hide Walked, WalkFits, OutstandingFits, Outstanding, Holds, WalkedLost, WalkedPosition;
    assert FirstKeys(keys, |keys|) == orders.Keys;
    GrossOrderIsIrrelevant(orders, keys, |keys|, symbol, replaced);
    SmallWalkFits(orders, keys, |keys|, symbol, replaced);
    FittingWalkLosesNothing(orders, keys, |keys|, symbol, replaced);
    WalkAccounts(orders, keys, |keys|, symbol, replaced);
    SmallRestFits(Walked(orders, keys, |keys|, symbol, replaced),
                  WalkedPosition(orders, keys, |keys|, symbol, replaced), side, quantity,
                  CandidateFill(replaced));
  }
}
