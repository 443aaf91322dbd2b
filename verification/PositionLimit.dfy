/** What a passed position check says about the registry. */
module PositionLimit {
  import opened Wrappers
  import opened OrderLifecycle
  import opened Decimals
  import opened DecimalText
  import opened OrderRecords
  import opened OmsRegistry
  import opened Exposure
  import opened Risk

  // ---- the checked value is the exposure the order creates ----

  /** Changing one order moves the exposure by the change of its signed stake. */
  lemma {:induction false} ExposureMoves(orders: map<string, OrderRecord>, id: string, r: OrderRecord, symbol: string,
                                         replaced: Option<OrderRecord>)
    requires id in orders && (replaced.Some? ==> replaced.value.clientOrderId == id)
    ensures var after := orders[id := r];
            ExposureOf(after, symbol) - SignedUnits(r.side, StakeOf(after, id, symbol, None))
            == Position(orders, orders.Keys, symbol, replaced)
               - SignedUnits(orders[id].side, StakeOf(orders, id, symbol, replaced))
  {
    hide Stake;
    var after := orders[id := r];
    var before, now := SignedStakes(orders, symbol, replaced), SignedStakes(after, symbol, None);
    assert after.Keys == orders.Keys;
    SumSplits(orders.Keys, now, id);
    SumSplits(orders.Keys, before, id);
    SumFrame(orders.Keys - {id}, before, now);
  }

  lemma {:induction false} NewOrderAddsItsStake(orders: map<string, OrderRecord>, id: string, r: OrderRecord)
    requires id !in orders
    ensures ExposureOf(orders[id := r], r.symbol)
            == Position(orders, orders.Keys, r.symbol, None) + SignedUnits(r.side, Stake(r, false))
  {
    hide Stake;
    var after := orders[id := r];
    var before, now := SignedStakes(orders, r.symbol, None), SignedStakes(after, r.symbol, None);
    SumSplits(after.Keys, now, id);
    assert after.Keys - {id} == orders.Keys;
    SumFrame(orders.Keys, before, now);
  }

  lemma {:induction false} UnfilledStake(r: OrderRecord, none: string)
    requires OrZero(r.filledQuantity) == OrZero(none) && Units(OrZero(none)) == Some(0) && !IsTerminal(r.state)
    ensures Stake(r, false) == Outstanding(r.quantity, none)
  {
    hide DecimalText.ParseDecimal;
  }

  /** The value place checks is the exposure of the registry right after the order is staged. */
  lemma {:induction false} PlaceChecksWhatItStages(orders: map<string, OrderRecord>, req: OrderRequest, venue: string)
    requires req.clientOrderId !in orders
    ensures ExposureOf(orders[req.clientOrderId := StagedRecord(req, venue)], req.instrumentId)
         == Target(orders, req.instrumentId, None, req.side, req.quantity)
  {
    hide DecimalText.ParseDecimal;
    NewOrderAddsItsStake(orders, req.clientOrderId, StagedRecord(req, venue));
    NothingFilled();
    UnfilledStake(StagedRecord(req, venue), CandidateFill(None));
  }

  /** The value amend checks is the exposure with the new quantity in place of the old. */
  lemma {:induction false} AmendChecksTheNewQuantity(orders: map<string, OrderRecord>, id: string, quantity: string)
    requires id in orders && orders[id].clientOrderId == id && !IsTerminal(orders[id].state)
    ensures ExposureOf(orders[id := orders[id].(quantity := quantity)], orders[id].symbol)
         == Target(orders, orders[id].symbol, Some(orders[id]), orders[id].side, quantity)
  {
    hide DecimalText.ParseDecimal;
    ExposureMoves(orders, id, orders[id].(quantity := quantity), orders[id].symbol, Some(orders[id]));
  }

  // ---- the check bounds the exposure ----

  /** Unless a negation overflows, the position check passes exactly when the exact position, less what
      the sum skipped or wrapped, is within the limit (and is not the one value whose text does not
      parse). */
  lemma {:induction false} PositionCheckPassesIff(orders: map<string, OrderRecord>, keys: seq<string>, symbol: string,
                                                  replaced: Option<OrderRecord>, side: Side, quantity: string,
                                                  maxPosition: string)
    requires Enumerates(keys, orders) && maxPosition != ""
    ensures var projection := Projection(orders, keys, symbol, replaced, side, quantity);
            var counted := Target(orders, symbol, replaced, side, quantity)
                           - ProjectedLost(orders, keys, symbol, replaced, side, quantity);
            projection.Some? ==>
              (CheckPosition(Text(projection.value), maxPosition).None?
               <==> projection.value.unscaled != LL_MIN && AtMost(Abs(counted), maxPosition, MAX_DECIMAL_SCALE))
  {
    hide Projected, ProjectionStays, ProjectedLost, Target, CheckPosition, DecimalText.ParseDecimal,
         DecimalText.ParseSigned, DecimalText.Text;
    ProjectionAccounts(orders, keys, symbol, replaced, side, quantity);
    var projection := Projection(orders, keys, symbol, replaced, side, quantity);
    if projection.Some? {
      HeldValueReadsBack(projection.value,
                         Target(orders, symbol, replaced, side, quantity)
                         - ProjectedLost(orders, keys, symbol, replaced, side, quantity));
      PositionPassesIff(Text(projection.value), maxPosition);
    }
  }

  /** Unless a negation overflows, a passed maxPosition check bounds the position up to what the sum
      left out; when no aligned sum or difference overflows no negation does, nothing is left out, and
      it bounds the exact position. */
  lemma {:induction false} PassedCheckBoundsExposure(orders: map<string, OrderRecord>, keys: seq<string>,
                                                     symbol: string, replaced: Option<OrderRecord>, side: Side,
                                                     price: string, quantity: string, limits: Limits)
    requires Enumerates(keys, orders) && limits.maxPosition != ""
    ensures var projection := Projection(orders, keys, symbol, replaced, side, quantity);
            var target, lost := Target(orders, symbol, replaced, side, quantity),
                                ProjectedLost(orders, keys, symbol, replaced, side, quantity);
            && (projection.Some? && CheckRisk(Some(limits), RiskOrder(price, quantity, Text(projection.value))).None?
                ==> AtMost(Abs(target - lost), limits.maxPosition, MAX_DECIMAL_SCALE))
            && (ProjectionFits(orders, keys, symbol, replaced, side, quantity) ==> projection.Some? && lost == 0)
  {
    hide Projected, ProjectionStays, Holds, ProjectedLost, ProjectionFits, Target, CheckPosition, CheckNotional,
         CheckQuantity, DecimalText.ParseDecimal, DecimalText.Text;
    PositionCheckPassesIff(orders, keys, symbol, replaced, side, quantity, limits.maxPosition);
    ProjectionAccounts(orders, keys, symbol, replaced, side, quantity);
    if ProjectionFits(orders, keys, symbol, replaced, side, quantity) {
      ProjectionIsExact(orders, keys, symbol, replaced, side, quantity);
    }
  }

  /** The pre-trade verdict on a candidate order; `keys` is the order the hash map is walked in. Where a
      negation of the projection overflows there is no verdict, and nothing is stated of this value. */
  function Verdict(risk: RiskConfig, orders: map<string, OrderRecord>, keys: seq<string>, symbol: string,
                   replaced: Option<OrderRecord>, side: Side, price: string, quantity: string): Option<Error>
    requires forall i :: 0 <= i < |keys| ==> keys[i] in orders
  {
    var limits := LimitsFor(risk, symbol);
    var projection := Projection(orders, keys, symbol, replaced, side, quantity);
    if limits.None? || projection.None? then None
    else CheckRisk(limits, RiskOrder(price, quantity, Text(projection.value)))
  }

  /** Once a place is sent under a maxPosition and no negation overflowed, the registry that now holds
      it respects the limit: its exposure, less what the sum left out, is within it, and nothing is
      left out unless a sum or a difference overflowed. */
  lemma {:induction false} SentOrdersRespectTheLimit(s: Registry, cfg: Config, risk: RiskConfig, req: OrderRequest,
                                                     venue: string, keys: seq<string>)
    requires Enumerates(keys, s.orders)
    ensures var limits := if req.instrumentId in risk.instruments then Some(risk.instruments[req.instrumentId])
            else risk.defaults;
            var verdict := Verdict(risk, s.orders, keys, req.instrumentId, None, req.side, req.price, req.quantity);
            var (s', decision) := PlaceStage(s, cfg, req, venue, verdict);
            var lost := ProjectedLost(s.orders, keys, req.instrumentId, None, req.side, req.quantity);
            && ProjectionStays(s.orders, req.instrumentId, None, req.side, req.quantity)
            && decision.Send? && limits.Some? && limits.value.maxPosition != "" ==>
              && AtMost(Abs(ExposureOf(s'.orders, req.instrumentId) - lost), limits.value.maxPosition,
                        MAX_DECIMAL_SCALE)
              && (ProjectionFits(s.orders, keys, req.instrumentId, None, req.side, req.quantity) ==> lost == 0)
  {
    hide Projected, ProjectionStays, ProjectedLost, ProjectionFits, Target, ExposureOf, CheckRisk, StagedRecord,
         DecimalText.ParseDecimal, DecimalText.Text;
    var limits := LimitsFor(risk, req.instrumentId);
    if limits.Some? && limits.value.maxPosition != "" {
      PassedCheckBoundsExposure(s.orders, keys, req.instrumentId, None, req.side, req.price, req.quantity,
                                limits.value);
      if req.clientOrderId !in s.orders {
        PlaceChecksWhatItStages(s.orders, req, if venue == "" then cfg.defaultVenue else venue);
      }
    }
  }

  lemma {:induction false} PrintedAmountParses(d: Decimal)
    requires Canonical(d) && d.scale <= MAX_DECIMAL_SCALE && 0 <= d.unscaled <= LL_MAX
    ensures ParseDecimal(Text(d)) == ParseSigned(Text(d)) == Ok(d) && Text(d) != ""
  {
    var digits := Padded(NatDigits(Abs(d.unscaled)), d.scale + 1);
    PaddedSpells(Abs(d.unscaled), d.scale + 1);
    WithDotReadsBack(digits, d.scale);
    PrintParseRoundTrip(d);
  }

  /** The input on which a negation overflows: any registry with a working sell order of this quantity
      and fill, whose difference is 2^63 at eight digits and wraps to the least 64-bit value. */
  lemma {:induction false} SellRemainderOverflows(orders: map<string, OrderRecord>, id: string)
    requires id in orders && orders[id].side == Sell && !IsTerminal(orders[id].state)
    ensures var r := orders[id];
            r.quantity == Text(Decimal(92233720369, 0)) && r.filledQuantity == Text(Decimal(45224192, 8)) ==>
              && SubClampedZero(Decimal(92233720369, 0), Decimal(45224192, 8)) == Decimal(LL_MIN, 8)
              && !ProjectionStays(orders, r.symbol, None, Sell, "")
  {
    hide DecimalText.ParseDecimal, DecimalText.ParseSigned, DecimalText.Text, DecimalText.Magnitude;
    PrintedAmountParses(Decimal(92233720369, 0));
    PrintedAmountParses(Decimal(45224192, 8));
    DifferenceWraps();
    assert OrdersStay(orders, orders[id].symbol, None) ==> RestStays(orders[id]);
  }

  lemma {:induction false} DifferenceWraps()
    ensures SubClampedZero(Decimal(92233720369, 0), Decimal(45224192, 8)) == Decimal(LL_MIN, 8)
  {
    ScaledIsProduct(92233720369, 8);
    assert Pow10(8) == 100_000_000;
  }

  /** One order, filled. */
  function FilledBook(quantity: string): map<string, OrderRecord> {
    map["a" := FreshRecord("a", OrderTerms("S", "v", Buy, Limit, "", quantity, "GTC"),
                           Filled).(filledQuantity := quantity)]
  }

  /** What is left out can be all that matters: with one order filled to the largest quantity
      there is, a candidate of one more overflows the sum, is left out of it, and passes a limit the
      exposure breaks. */
  lemma {:induction false} OverflowHidesExposure(largest: string, one: string)
    ensures Enumerates(["a"], FilledBook(largest))
    ensures largest == Text(Decimal(LL_MAX, 0)) && one == Text(Decimal(1, 0)) ==>
              && Projection(FilledBook(largest), ["a"], "S", None, Buy, one).Some?
              && CheckPosition(Text(Projection(FilledBook(largest), ["a"], "S", None, Buy, one).value), largest).None?
              && !AtMost(Abs(Target(FilledBook(largest), "S", None, Buy, one)), largest, MAX_DECIMAL_SCALE)
  {
    hide DecimalText.ParseDecimal, DecimalText.ParseSigned, DecimalText.Text;
    PrintedAmountParses(Decimal(LL_MAX, 0));
    PrintedAmountParses(Decimal(1, 0));
    BookIsWalked(largest, one);
    var projection := Projection(FilledBook(largest), ["a"], "S", None, Buy, one);
    assert projection == Some(Projected(FilledBook(largest), ["a"], "S", None, Buy, one));
    hide *;
    NothingFilled();
    if largest == Text(Decimal(LL_MAX, 0)) && one == Text(Decimal(1, 0)) {
      SumOverflows(FilledBook(largest), largest, one);
      TargetExceeds(FilledBook(largest), largest, one);
      LimitItselfPasses(largest);
    }
  }

  lemma {:induction false} BookIsWalked(quantity: string, one: string)
    ensures Enumerates(["a"], FilledBook(quantity))
    ensures ProjectionStays(FilledBook(quantity), "S", None, Buy, one)
  {
  }

  lemma {:induction false} LimitItselfPasses(largest: string)
    requires ParseDecimal(largest) == ParseSigned(largest) == Ok(Decimal(LL_MAX, 0))
    ensures CheckPosition(largest, largest).None?
  {
    hide DecimalText.ParseDecimal, DecimalText.ParseSigned;
    PositionPassesIff(largest, largest);
    ScaledOrder(LL_MAX, 0, MAX_DECIMAL_SCALE);
  }

  lemma {:induction false} LargestPlusOne(one: string, r: OrderRecord)
    requires ParseDecimal(one) == Ok(Decimal(1, 0)) && ParseDecimal(OrZero("")) == Ok(ZERO)
    requires ParseDecimal(r.filledQuantity) == Ok(Decimal(LL_MAX, 0)) && r.filledQuantity != "" && r.side == Buy
    ensures AddExecuted(ZERO, r) == Decimal(LL_MAX, 0)
    ensures AddOutstanding(Decimal(LL_MAX, 0), Buy, one, "") == Decimal(LL_MAX, 0)
  {
    hide DecimalText.ParseDecimal;
    assert Aligned(Decimal(1, 0), ZERO) == (1, 0);
    assert SubClampedZero(Decimal(1, 0), ZERO) == Decimal(1, 0);
  }

  lemma {:induction false} SumOverflows(book: map<string, OrderRecord>, largest: string, one: string)
    requires book == FilledBook(largest) && largest != ""
    requires ParseDecimal(largest) == Ok(Decimal(LL_MAX, 0)) && ParseDecimal(one) == Ok(Decimal(1, 0))
             && ParseDecimal(OrZero("")) == Ok(ZERO)
    ensures Projected(book, ["a"], "S", None, Buy, one) == Decimal(LL_MAX, 0)
  {
    hide DecimalText.ParseDecimal;
    LargestPlusOne(one, book["a"]);
    assert WalkPast(ZERO, book["a"], "S", false) == Decimal(LL_MAX, 0);
    assert Walked(book, ["a"], 0, "S", None) == ZERO;
  }

  lemma {:induction false} SomethingOutstanding(one: string)
    requires ParseDecimal(one) == Ok(Decimal(1, 0)) && ParseDecimal(OrZero("")) == Ok(ZERO)
    ensures Outstanding(one, "") > 0
  {
    hide DecimalText.ParseDecimal;
    NothingFilled();
    ScaledOrder(1, 0, MAX_DECIMAL_SCALE);
  }

  lemma {:induction false} SoleOrder(book: map<string, OrderRecord>, r: OrderRecord)
    requires book == map["a" := r] && r.symbol == "S" && IsTerminal(r.state) && r.side == Buy
    ensures Position(book, book.Keys, "S", None) == Executed(r)
  {
    hide DecimalText.ParseDecimal;
    SumSplits(book.Keys, SignedStakes(book, "S", None), "a");
    assert book.Keys - {"a"} == {};
  }

  lemma {:induction false} TargetExceeds(book: map<string, OrderRecord>, largest: string, one: string)
    requires book == FilledBook(largest) && largest != ""
    requires ParseDecimal(largest) == Ok(Decimal(LL_MAX, 0)) && ParseDecimal(one) == Ok(Decimal(1, 0))
             && ParseDecimal(OrZero("")) == Ok(ZERO)
    ensures !AtMost(Abs(Target(book, "S", None, Buy, one)), largest, MAX_DECIMAL_SCALE)
  {
    hide DecimalText.ParseDecimal;
    var r := book["a"];
    SoleOrder(book, r);
    SomethingOutstanding(one);
    assert Executed(r) == At(ParseDecimal(largest).value, MAX_DECIMAL_SCALE);
  }

  // ---- fills move nothing ----

  /** The order is filled within its quantity, and only a completed fill has ended it. */
  predicate FilledWithinQuantity(r: OrderRecord) {
    && Units(r.quantity).Some? && Units(OrZero(r.filledQuantity)).Some?
    && Executed(r) <= Units(r.quantity).value
    && (IsTerminal(r.state) ==> Executed(r) == Units(r.quantity).value)
  }

  /** Reports that fill an order up to its quantity leave the exposure where it was: what is
      executed was outstanding before. */
  lemma {:induction false} FillsConserveExposure(orders: map<string, OrderRecord>, id: string,
                                                 reports: seq<ExecutionReport>, symbol: string)
    requires id in orders && FilledWithinQuantity(orders[id]) && FilledWithinQuantity(ArbitrateAll(orders[id], reports))
    ensures ExposureOf(orders[id := ArbitrateAll(orders[id], reports)], symbol) == ExposureOf(orders, symbol)
  {
    hide DecimalText.ParseDecimal;
    ReportsKeepTerms(orders[id], reports);
    ExposureMoves(orders, id, ArbitrateAll(orders[id], reports), symbol, None);
  }

  /** Ending an order early releases exactly what was outstanding. */
  lemma {:induction false} EndingReleasesTheRest(orders: map<string, OrderRecord>, id: string, end: OrderState)
    requires id in orders && !IsTerminal(orders[id].state) && IsTerminal(end)
    ensures ExposureOf(orders[id := orders[id].(state := end)], orders[id].symbol)
         == ExposureOf(orders, orders[id].symbol)
            - SignedUnits(orders[id].side, Outstanding(orders[id].quantity, orders[id].filledQuantity))
  {
    ExposureMoves(orders, id, orders[id].(state := end), orders[id].symbol, None);
  }
}
