/** One order as the gateway sees it: its leg table, its fill high-water mark, and how one venue
    observation changes it. */
module OrderRecords {
  import opened Wrappers
  import opened OrderLifecycle
  import opened Decimals
  import opened DecimalText

  datatype Side = Buy | Sell
  datatype OrderType = Limit | Market

  /** One version of the order on its venue. */
  datatype OrderLeg = OrderLeg(version: nat, exchangeOrderId: string)

  datatype OrderRecord = OrderRecord(
    clientOrderId: string,
    symbol: string,
    venue: string,
    exchangeOrderId: string,
    side: Side,
    orderType: OrderType,
    timeInForce: string,
    price: string,
    quantity: string,
    state: OrderState,
    filledQuantity: string,
    averageFillPrice: string,
    legs: seq<OrderLeg>,
    adopted: bool,
    rejection: Option<Error>)

  datatype ExecutionReport = ExecutionReport(
    clientOrderId: string,
    exchangeOrderId: string,
    state: OrderState,
    filledQuantity: string,
    averageFillPrice: string)

  // ---- the leg table ----

  predicate Knows(legs: seq<OrderLeg>, id: string) {
    exists i :: 0 <= i < |legs| && legs[i].exchangeOrderId == id
  }

  predicate IsCurrent(legs: seq<OrderLeg>, id: string) {
    legs != [] && legs[|legs| - 1].exchangeOrderId == id
  }

  /** The id names a leg, but not the newest one. */
  predicate Superseded(legs: seq<OrderLeg>, id: string) {
    Knows(legs, id) && !IsCurrent(legs, id)
  }

  function PushLeg(legs: seq<OrderLeg>, id: string): seq<OrderLeg> {
    legs + [OrderLeg(|legs| + 1, id)]
  }

  /** Register a venue id: a new one becomes current and is appended; empty or current is a no-op. */
  function NoteExchangeId(r: OrderRecord, id: string): OrderRecord {
    if id == "" || id == r.exchangeOrderId then r
    else r.(exchangeOrderId := id, legs := PushLeg(r.legs, id))
  }

  /** An amend ack always advances the version, even when the venue echoes the current id. */
  function AppendAmendLeg(r: OrderRecord, id: string): OrderRecord {
    if id == "" then r else r.(exchangeOrderId := id, legs := PushLeg(r.legs, id))
  }

  /** The newest leg carrying `id`. */
  method LegIndexOf(legs: seq<OrderLeg>, id: string) returns (found: Option<nat>)
    ensures found.None? <==> !Knows(legs, id)
    ensures found.Some? ==> found.value < |legs| && legs[found.value].exchangeOrderId == id
    ensures found.Some? ==> forall k :: found.value < k < |legs| ==> legs[k].exchangeOrderId != id
    ensures found.Some? ==> (found.value + 1 < |legs| <==> Superseded(legs, id))
  {
    found := None;
    var i := 0;
    while i < |legs|
      invariant 0 <= i <= |legs|
      invariant found.None? ==> forall k :: 0 <= k < i ==> legs[k].exchangeOrderId != id
      invariant found.Some? ==> found.value < i && legs[found.value].exchangeOrderId == id
      invariant found.Some? ==> forall k :: found.value < k < i ==> legs[k].exchangeOrderId != id
    {
      if legs[i].exchangeOrderId == id {
        found := Some(i);
      }
      i := i + 1;
    }
  }

  /** Versions 1..N, real ids, and the newest leg is the current one. */
  ghost predicate Chained(r: OrderRecord) {
    && (forall i :: 0 <= i < |r.legs| ==> r.legs[i].version == i + 1 && r.legs[i].exchangeOrderId != "")
    && (r.legs == [] <==> r.exchangeOrderId == "")
    && (r.legs != [] ==> IsCurrent(r.legs, r.exchangeOrderId))
  }

  // ---- fills ----

  /** A missing fill counts as none. */
  function OrZero(text: string): string {
    if text == "" then "0" else text
  }

  /** The fill a text stands for, in units of 10^-8; an empty one is zero. */
  function FillOf(text: string): Option<int> {
    match ParseDecimal(OrZero(text))
    case Ok(d) => Some(At(d, MAX_DECIMAL_SCALE))
    case Err(_) => None
  }

  lemma {:induction false} NothingFilled()
    ensures OrZero("") == "0" && ParseDecimal(OrZero("")) == Ok(ZERO) && FillOf("0") == Some(0)
  {
    hide ParseSigned;
    PrintParseRoundTrip(ZERO);
    assert Text(ZERO) == "0";
    ScaledOrder(0, 0, MAX_DECIMAL_SCALE);
  }

  lemma {:induction false} UnfilledParses(r: OrderRecord)
    requires r.filledQuantity == "0"
    ensures FillOf(r.filledQuantity).Some?
  {
    NothingFilled();
  }

  /** Whether a reported fill moves the high-water mark. */
  predicate FillAdvances(current: string, reported: string) {
    && reported != ""
    && ParseDecimal(reported).Ok?
    && ParseDecimal(OrZero(current)).Ok?
    && Compare(ParseDecimal(reported).value, ParseDecimal(OrZero(current)).value) > 0
  }

  lemma FillAdvancesIffGreater(current: string, reported: string)
    ensures FillAdvances(current, reported) <==>
            reported != "" && FillOf(reported).Some? && FillOf(current).Some?
            && FillOf(current).value < FillOf(reported).value
  {
    var lhs, rhs := ParseDecimal(reported), ParseDecimal(OrZero(current));
    if lhs.Ok? && rhs.Ok? {
      CompareIsExact(lhs.value, rhs.value, MAX_DECIMAL_SCALE);
    }
  }

  lemma {:induction false} AdvanceIsNews(current: string, reported: string)
    ensures FillAdvances(current, reported) ==> reported != current
  {
    FillAdvancesIffGreater(current, reported);
  }

  // ---- observations ----

  /** Apply one observation: fills only move forward, transitions go through the table, and price
      and quantity (snapshots only) are taken as given. Without `lifecycle`, fills only. */
  function Observe(r: OrderRecord, state: OrderState, filled: string, average: string, price: string, quantity: string,
                   lifecycle: bool): OrderRecord
  {
    var advances := FillAdvances(r.filledQuantity, filled);
    r.(filledQuantity := if advances then filled else r.filledQuantity,
       averageFillPrice := if advances && average != "" then average else r.averageFillPrice,
       state := if lifecycle then Advance(r.state, state) else r.state,
       price := if lifecycle && price != "" then price else r.price,
       quantity := if lifecycle && quantity != "" then quantity else r.quantity)
  }

  /** The record with what the report's id teaches: a first id is backfilled, an id no leg knows is
      adopted as the newest leg. */
  function Learned(r: OrderRecord, report: ExecutionReport): OrderRecord {
    if Adopts(r, report) || r.exchangeOrderId == "" then NoteExchangeId(r, report.exchangeOrderId) else r
  }

  predicate Adopts(r: OrderRecord, report: ExecutionReport) {
    report.exchangeOrderId != "" && r.legs != [] && !Knows(r.legs, report.exchangeOrderId)
  }

  predicate DrivesLifecycle(r: OrderRecord, report: ExecutionReport) {
    report.exchangeOrderId == "" || !Superseded(r.legs, report.exchangeOrderId)
  }

  /** One report, arbitrated by the leg table: a superseded leg contributes fills only. */
  function Arbitrate(r: OrderRecord, report: ExecutionReport): OrderRecord {
    Observe(Learned(r, report), report.state, report.filledQuantity, report.averageFillPrice, "", "",
            DrivesLifecycle(r, report))
  }

  function ArbitrateAll(r: OrderRecord, reports: seq<ExecutionReport>): OrderRecord
    decreases |reports|
  {
    if reports == [] then r else ArbitrateAll(Arbitrate(r, reports[0]), reports[1..])
  }

  // ---- what one record can become ----

  predicate FillGrows(before: string, after: string) {
    match FillOf(before)
    case None => after == before
    case Some(a) => FillOf(after).Some? && a <= FillOf(after).value
  }

  /** Everything that happens to a record in one process: the lifecycle only advances, the fill
      only grows, a rejection is final, legs are only appended and their chain stays whole. */
  ghost predicate Later(r: OrderRecord, r': OrderRecord) {
    && Reaches(r.state, r'.state)
    && FillGrows(r.filledQuantity, r'.filledQuantity)
    && (r.rejection.Some? ==> r'.rejection == r.rejection)
    && r.legs <= r'.legs
    && (r.exchangeOrderId != "" ==> r'.exchangeOrderId != "")
    && (Chained(r) ==> Chained(r'))
    && r'.clientOrderId == r.clientOrderId && r'.symbol == r.symbol && r'.side == r.side && r'.venue == r.venue
    && r'.adopted == r.adopted
  }

  lemma LaterIsTransitive(a: OrderRecord, b: OrderRecord, c: OrderRecord)
    requires Later(a, b) && Later(b, c)
    ensures Later(a, c)
  {
  }

  lemma ObserveIsLater(r: OrderRecord, state: OrderState, filled: string, average: string, price: string,
                       quantity: string, lifecycle: bool)
    ensures Later(r, Observe(r, state, filled, average, price, quantity, lifecycle))
  {
    FillAdvancesIffGreater(r.filledQuantity, filled);
  }

  lemma NoteIsLater(r: OrderRecord, id: string)
    ensures Later(r, NoteExchangeId(r, id)) && Later(r, AppendAmendLeg(r, id))
  {
  }

  lemma ArbitrateIsLater(r: OrderRecord, report: ExecutionReport)
    ensures Later(r, Arbitrate(r, report))
  {
    var r1 := Learned(r, report);
    NoteIsLater(r, report.exchangeOrderId);
    ObserveIsLater(r1, report.state, report.filledQuantity, report.averageFillPrice, "", "",
                   DrivesLifecycle(r, report));
    LaterIsTransitive(r, r1, Arbitrate(r, report));
  }

  /** Reports never touch what was ordered. */
  lemma {:induction false} ReportsKeepTerms(r: OrderRecord, reports: seq<ExecutionReport>)
    ensures var r' := ArbitrateAll(r, reports);
            && r'.quantity == r.quantity && r'.side == r.side && r'.symbol == r.symbol && r'.price == r.price
            && r'.orderType == r.orderType && r'.timeInForce == r.timeInForce && r'.venue == r.venue
            && r'.clientOrderId == r.clientOrderId && r'.adopted == r.adopted
    decreases |reports|
  {
    if reports != [] {
      ReportsKeepTerms(Arbitrate(r, reports[0]), reports[1..]);
    }
  }

  // ---- superseded legs never drive the lifecycle ----

  /** The reports that do not name one of the given old legs. */
  function Without(reports: seq<ExecutionReport>, older: seq<OrderLeg>): seq<ExecutionReport>
    decreases |reports|
  {
    if reports == [] then []
    else (if reports[0].exchangeOrderId != "" && Knows(older, reports[0].exchangeOrderId) then [] else [reports[0]])
         + Without(reports[1..], older)
  }

  /** The fill high-water mark of a batch of reports. */
  function HighWater(fill: int, reports: seq<ExecutionReport>): int
    decreases |reports|
  {
    if reports == [] then fill
    else
      var f := if reports[0].filledQuantity == "" then None else FillOf(reports[0].filledQuantity);
      HighWater(if f.Some? && fill < f.value then f.value else fill, reports[1..])
  }

  /** The parts of a record that old legs must not touch. */
  predicate SameLifecycle(a: OrderRecord, b: OrderRecord) {
    a.state == b.state && a.legs == b.legs && a.exchangeOrderId == b.exchangeOrderId && a.price == b.price
    && a.quantity == b.quantity && a.rejection == b.rejection
  }

  /** `older` are the legs before the one that became current: none of them is, or becomes, current. */
  ghost predicate OldLegs(older: seq<OrderLeg>, r: OrderRecord) {
    && |older| < |r.legs| && older <= r.legs
    && !Knows(older, r.legs[|r.legs| - 1].exchangeOrderId)
    && r.exchangeOrderId != ""
  }

  lemma {:induction false} OlderReportDrivesNothing(older: seq<OrderLeg>, r: OrderRecord, report: ExecutionReport)
    requires OldLegs(older, r) && report.exchangeOrderId != "" && Knows(older, report.exchangeOrderId)
    ensures SameLifecycle(Arbitrate(r, report), r)
  {
  }

  lemma {:induction false} OtherReportDrivesAlike(r: OrderRecord, twin: OrderRecord, report: ExecutionReport)
    requires SameLifecycle(r, twin)
    ensures SameLifecycle(Arbitrate(r, report), Arbitrate(twin, report))
  {
  }

  lemma {:induction false} OldLegsStayOld(older: seq<OrderLeg>, r: OrderRecord, report: ExecutionReport)
    requires OldLegs(older, r)
    ensures OldLegs(older, Arbitrate(r, report))
  {
  }

  /** Once a fresh id is the newest leg, no later batch of reports lets an older leg drive the
      lifecycle: the result is as if the older legs' reports had never come. */
  lemma {:induction false} OldLegsNeverDrive(older: seq<OrderLeg>, r: OrderRecord, twin: OrderRecord,
                                             reports: seq<ExecutionReport>)
    requires OldLegs(older, r) && SameLifecycle(r, twin)
    ensures SameLifecycle(ArbitrateAll(r, reports), ArbitrateAll(twin, Without(reports, older)))
    decreases |reports|
  {
    if reports != [] {
      var report := reports[0];
      var rest := Without(reports[1..], older);
      if report.exchangeOrderId != "" && Knows(older, report.exchangeOrderId) {
        OlderReportDrivesNothing(older, r, report);
        OldLegsStayOld(older, r, report);
        OldLegsNeverDrive(older, Arbitrate(r, report), twin, reports[1..]);
        assert [] + rest == rest;
      } else {
        OtherReportDrivesAlike(r, twin, report);
        OldLegsStayOld(older, r, report);
        OldLegsNeverDrive(older, Arbitrate(r, report), Arbitrate(twin, report), reports[1..]);
        assert ([report] + rest)[1..] == rest;
      }
    }
  }

  /** All reports, old legs' included, count for the fill: the mark ends at the maximum. A fill that
      does not parse is never replaced. */
  lemma {:induction false} EveryFillCounts(r: OrderRecord, reports: seq<ExecutionReport>)
    ensures match FillOf(r.filledQuantity)
            case None => ArbitrateAll(r, reports).filledQuantity == r.filledQuantity
            case Some(f) => FillOf(ArbitrateAll(r, reports).filledQuantity) == Some(HighWater(f, reports))
    decreases |reports|
  {
    if reports != [] {
      FillAdvancesIffGreater(r.filledQuantity, reports[0].filledQuantity);
      EveryFillCounts(Arbitrate(r, reports[0]), reports[1..]);
    }
  }

  // ---- a lost amend ack ----

  predicate IsUnknown(legs: seq<OrderLeg>, id: string) {
    id != "" && !Knows(legs, id)
  }

  /** The id of the last buffered report that no leg knows; empty when there is none. */
  function NewestUnknown(legs: seq<OrderLeg>, reports: seq<ExecutionReport>): string {
    if reports == [] then ""
    else if IsUnknown(legs, reports[|reports| - 1].exchangeOrderId) then reports[|reports| - 1].exchangeOrderId
    else NewestUnknown(legs, reports[..|reports| - 1])
  }

  lemma {:induction false} NewestUnknownIsUnknown(legs: seq<OrderLeg>, reports: seq<ExecutionReport>)
    ensures NewestUnknown(legs, reports) != "" ==> IsUnknown(legs, NewestUnknown(legs, reports))
    ensures NewestUnknown(legs, reports) == ""
            ==> forall i :: 0 <= i < |reports| ==> !IsUnknown(legs, reports[i].exchangeOrderId)
  {
    if reports != [] {
      NewestUnknownIsUnknown(legs, reports[..|reports| - 1]);
    }
  }

  /** The failed amend adopts the newest unknown id before applying the batch. */
  function AdoptNewest(r: OrderRecord, reports: seq<ExecutionReport>): OrderRecord {
    if r.legs != [] && NewestUnknown(r.legs, reports) != "" then NoteExchangeId(r, NewestUnknown(r.legs, reports))
    else r
  }

  predicate AllUnknownAre(legs: seq<OrderLeg>, reports: seq<ExecutionReport>, id: string) {
    forall i :: 0 <= i < |reports| && IsUnknown(legs, reports[i].exchangeOrderId) ==> reports[i].exchangeOrderId == id
  }

  /** After a lost ack, the id the gateway picked as the live replacement is still current once the
      batch is applied exactly when the batch shows no other unknown id. */
  lemma LostAckKeepsReplacementIffAlone(r: OrderRecord, reports: seq<ExecutionReport>)
    requires Chained(r) && r.legs != [] && NewestUnknown(r.legs, reports) != ""
    ensures IsCurrent(ArbitrateAll(AdoptNewest(r, reports), reports).legs, NewestUnknown(r.legs, reports))
       <==> AllUnknownAre(r.legs, reports, NewestUnknown(r.legs, reports))
  {
    var newest := NewestUnknown(r.legs, reports);
    NewestUnknownIsUnknown(r.legs, reports);
    var r1 := AdoptNewest(r, reports);
    assert r.legs <= r1.legs && IsCurrent(r1.legs, newest);
    assert forall id :: Knows(r1.legs, id) ==> Knows(r.legs, id) || id == newest;
    assert forall id :: Knows(r.legs, id) || id == newest ==> Knows(r1.legs, id) by {
      assert r1.legs[|r.legs|].exchangeOrderId == newest;
      assert forall i :: 0 <= i < |r.legs| ==> r1.legs[i] == r.legs[i];
    }
    CurrentMovesIffUnknown(r1, reports);
    assert AllUnknownAre(r.legs, reports, newest) <==> NoUnknown(r1.legs, reports);
  }

  predicate NoUnknown(legs: seq<OrderLeg>, reports: seq<ExecutionReport>) {
    forall i :: 0 <= i < |reports| ==> !IsUnknown(legs, reports[i].exchangeOrderId)
  }

  lemma {:induction false} ArbitrationTeachesIds(r: OrderRecord, report: ExecutionReport)
    ensures Arbitrate(r, report).legs == Learned(r, report).legs
    ensures Arbitrate(r, report).exchangeOrderId == Learned(r, report).exchangeOrderId
  {
  }

  lemma {:induction false} CurrentMovesIffUnknown(r: OrderRecord, reports: seq<ExecutionReport>)
    requires Chained(r) && r.legs != []
    ensures Chained(ArbitrateAll(r, reports)) && r.legs <= ArbitrateAll(r, reports).legs
    ensures NoUnknown(r.legs, reports) ==> ArbitrateAll(r, reports).legs == r.legs
    ensures !NoUnknown(r.legs, reports) ==> !Knows(r.legs, ArbitrateAll(r, reports).exchangeOrderId)
    decreases |reports|
  {
    hide Arbitrate, FillOf;
    if reports != [] {
      var r1 := Arbitrate(r, reports[0]);
      ArbitrationTeachesIds(r, reports[0]);
      ArbitrateIsLater(r, reports[0]);
      CurrentMovesIffUnknown(r1, reports[1..]);
      if IsUnknown(r.legs, reports[0].exchangeOrderId) {
        assert r1.legs == PushLeg(r.legs, reports[0].exchangeOrderId);
        assert forall id :: Knows(r.legs, id) ==> Knows(r1.legs, id) by {
          assert forall i :: 0 <= i < |r.legs| ==> r1.legs[i] == r.legs[i];
        }
      } else {
        assert r1.legs == r.legs;
        assert forall i :: 0 <= i < |reports[1..]| ==> reports[1..][i] == reports[i + 1];
        assert forall i :: 1 <= i < |reports| ==> reports[i] == reports[1..][i - 1];
      }
    }
  }

  // ---- late duplicates ----

  lemma {:induction false} FillAlreadyCounted(r: OrderRecord, report: ExecutionReport, later: OrderRecord)
    requires FillGrows(Arbitrate(r, report).filledQuantity, later.filledQuantity)
    ensures !FillAdvances(later.filledQuantity, report.filledQuantity)
  {
    FillAdvancesIffGreater(r.filledQuantity, report.filledQuantity);
    FillAdvancesIffGreater(later.filledQuantity, report.filledQuantity);
  }

  lemma {:induction false} IdAlreadyKnown(r: OrderRecord, report: ExecutionReport, later: OrderRecord)
    requires Chained(r)
    requires Learned(r, report).legs <= later.legs && report.exchangeOrderId != ""
    requires Learned(r, report).exchangeOrderId != "" ==> later.exchangeOrderId != ""
    ensures Knows(later.legs, report.exchangeOrderId) && later.exchangeOrderId != ""
  {
    var legs := Learned(r, report).legs;
    var i := if Knows(r.legs, report.exchangeOrderId) then
               var k :| 0 <= k < |r.legs| && r.legs[k].exchangeOrderId == report.exchangeOrderId; k
             else |r.legs|;
    assert legs[i].exchangeOrderId == report.exchangeOrderId;
    assert later.legs[i] == legs[i];
  }

  /** The report named a superseded leg when it was processed, names the current one now, and would
      move the order: the venue has reissued its id. */
  predicate Revived(before: OrderRecord, later: OrderRecord, report: ExecutionReport) {
    && report.exchangeOrderId != "" && Superseded(before.legs, report.exchangeOrderId)
    && IsCurrent(later.legs, report.exchangeOrderId)
    && report.state != later.state && Legal(later.state, report.state)
  }

  /** A report processed while its order was not pending changes nothing when it comes again, at any
      later point, exactly unless it is revived; either way it teaches no leg. */
  lemma {:induction false} LateDuplicateChangesNothing(r: OrderRecord, report: ExecutionReport, later: OrderRecord)
    requires r.state != Pending && Chained(r)
    requires Later(Arbitrate(r, report), later)
    ensures Arbitrate(later, report) == later <==> !Revived(r, later, report)
    ensures Learned(later, report) == later && !Adopts(later, report)
  {
    FillAlreadyCounted(r, report, later);
    if report.exchangeOrderId != "" {
      IdAlreadyKnown(r, report, later);
    }
    assert Learned(later, report) == later;
    if DrivesLifecycle(later, report) && DrivesLifecycle(r, report) {
      ObservedOnceIsStale(r.state, report.state, later.state);
    }
  }
}
