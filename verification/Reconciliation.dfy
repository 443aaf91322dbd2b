/** What reconciliation and execution reports do to an order, in its own fields. */
module Reconciliation {
  import opened Wrappers
  import opened OrderLifecycle
  import opened OrderRecords
  import opened OmsRegistry
  import opened OmsMachine
  import opened OmsCalls

  // ---- one observation, field by field ----

  /** A reported fill counts if and only if it is the larger one; with it comes its average price, if it
      has one. */
  predicate FillTaken(r: OrderRecord, filled: string, average: string, r': OrderRecord) {
    if FillOf(r.filledQuantity).Some? && FillOf(filled).Some? && FillOf(r.filledQuantity).value < FillOf(filled).value
    then r'.filledQuantity == filled && r'.averageFillPrice == (if average != "" then average else r.averageFillPrice)
    else r'.filledQuantity == r.filledQuantity && r'.averageFillPrice == r.averageFillPrice
  }

  /** A reported state counts if and only if it is a legal step. */
  predicate StateTaken(r: OrderRecord, state: OrderState, r': OrderRecord) {
    r'.state == if Legal(r.state, state) then state else r.state
  }

  predicate Taken(recorded: string, reported: string, recorded': string) {
    recorded' == if reported != "" then reported else recorded
  }

  /** A reported id becomes the newest leg if the order has none, or if `adopts` and no leg has it. */
  predicate IdTaken(r: OrderRecord, id: string, adopts: bool, r': OrderRecord) {
    if id != "" && id != r.exchangeOrderId
       && (r.exchangeOrderId == "" || (adopts && forall i :: 0 <= i < |r.legs| ==> r.legs[i].exchangeOrderId != id))
    then r'.exchangeOrderId == id && r'.legs == r.legs + [OrderLeg(|r.legs| + 1, id)]
    else r'.exchangeOrderId == r.exchangeOrderId && r'.legs == r.legs
  }

  predicate SameIdentity(r: OrderRecord, r': OrderRecord) {
    && r'.clientOrderId == r.clientOrderId && r'.symbol == r.symbol && r'.venue == r.venue && r'.side == r.side
    && r'.orderType == r.orderType && r'.timeInForce == r.timeInForce && r'.adopted == r.adopted
    && r'.rejection == r.rejection
  }

  /** What a venue's snapshot leaves of the record: its price and quantity where given, its fill if
      larger, its state if a legal step, its id if new. */
  predicate SnapshotTaken(r: OrderRecord, snap: OrderSnapshot, adopts: bool, r': OrderRecord) {
    && SameIdentity(r, r')
    && Taken(r.price, snap.price, r'.price) && Taken(r.quantity, snap.quantity, r'.quantity)
    && FillTaken(r, snap.filledQuantity, snap.averageFillPrice, r') && StateTaken(r, snap.state, r')
    && IdTaken(r, snap.exchangeOrderId, adopts, r')
  }

  /** The record's own state event. */
  predicate TellsState(r: OrderRecord, e: Event) {
    && e.StateChanged? && e.id == r.clientOrderId && e.state == r.state
    && e.filledQuantity == r.filledQuantity && e.averageFillPrice == r.averageFillPrice
    && e.exchangeOrderId == r.exchangeOrderId
  }

  predicate KnowsOwnId(r: OrderRecord) {
    r.exchangeOrderId == "" || exists i :: 0 <= i < |r.legs| && r.legs[i].exchangeOrderId == r.exchangeOrderId
  }

  /** A change is logged, as the record it leaves, and nothing else is. */
  ghost predicate ChangeLogged(s: Registry, s': Registry, id: string)
    requires id in s.orders && id in s'.orders
  {
    if s'.orders[id] == s.orders[id] then
      s.log.events <= s'.log.events && (KnowsOwnId(s.orders[id]) ==> s'.log == s.log)
    else exists e :: TellsState(s'.orders[id], e) && Appends(s.log, s'.log, e)
  }

  lemma {:induction false} ObservationIsTaken(r: OrderRecord, state: OrderState, filled: string, average: string,
                                              price: string, quantity: string, lifecycle: bool)
    ensures var r' := Observe(r, state, filled, average, price, quantity, lifecycle);
            && SameIdentity(r, r') && FillTaken(r, filled, average, r')
            && r'.exchangeOrderId == r.exchangeOrderId && r'.legs == r.legs
            && (if lifecycle
                then StateTaken(r, state, r') && Taken(r.price, price, r'.price)
                     && Taken(r.quantity, quantity, r'.quantity)
                else r'.state == r.state && r'.price == r.price && r'.quantity == r.quantity)
  {
    hide FillAdvances, FillOf;
    FillAdvancesIffGreater(r.filledQuantity, filled);
    EmptyIsNothingFilled(r.filledQuantity);
  }

  /** An empty report is no larger than any fill. */
  lemma {:induction false} EmptyIsNothingFilled(current: string)
    ensures FillOf("") == Some(0) && (FillOf(current).Some? ==> FillOf(current).value >= 0)
  {
    NothingFilled();
    if FillOf(current).Some? {
      var d := DecimalText.ParseDecimal(OrZero(current)).value;
      Decimals.ScaledOrder(d.unscaled, 0, Decimals.MAX_DECIMAL_SCALE - d.scale);
    }
  }

  /** No leg of the order has the id. */
  predicate NewId(r: OrderRecord, id: string) {
    id != "" && forall i :: 0 <= i < |r.legs| ==> r.legs[i].exchangeOrderId != id
  }

  /** A leg that is adopted is counted, and noted for the audit, which keeps the newest 256 notes; nothing
      else is. */
  predicate AdoptionNoted(s: Registry, s': Registry, id: string, leg: string, adopts: bool) {
    if adopts then
      var notes := s.notes + [(id, leg)];
      && s'.notes == (if |notes| <= 256 then notes else notes[|notes| - 256..])
      && s'.stats.legsDiscovered == s.stats.legsDiscovered + 1
    else s'.notes == s.notes && s'.stats.legsDiscovered == s.stats.legsDiscovered
  }

  // ---- a lookup ----

  /** The answers that say the venue does not know the order. */
  predicate SaysUnknown(found: Result<Option<OrderSnapshot>>) {
    match found
    case Ok(order) => order == None
    case Err(e) => e.code == "venue:51603" || e.code == "venue:51016"
  }

  /** What a lookup's answer leaves of the registry. */
  ghost predicate LookUpTaken(s: Registry, id: string, found: Result<Option<OrderSnapshot>>, s': Registry)
    requires id in s.orders
  {
    var r := s.orders[id];
    match found
    case Ok(Some(snap)) =>
      && id in s'.orders && s'.orders == s.orders[id := s'.orders[id]] && s'.raced == s.raced
      && SnapshotTaken(r, snap, true, s'.orders[id]) && ChangeLogged(s, s', id)
      && AdoptionNoted(s, s', id, snap.exchangeOrderId, r.exchangeOrderId != "" && NewId(r, snap.exchangeOrderId))
    case _ =>
      if SaysUnknown(found) && !IsTerminal(r.state) then
        && id in s'.orders && s'.orders == s.orders[id := s'.orders[id]] && s'.raced == s.raced
        && s'.orders[id].state == Rejected && s'.orders[id].rejection.Some?
        && s'.orders[id].rejection.value.code == "venue_absent"
        && s'.orders[id] == r.(state := Rejected, rejection := s'.orders[id].rejection)
        && exists j, state, rejected ::
             && Appends(s.log, j, state) && Appends(j, s'.log, rejected) && TellsState(s'.orders[id], state)
             && rejected.RejectionRecorded? && rejected.id == r.clientOrderId && rejected.code == "venue_absent"
             && rejected.symbol == r.symbol && rejected.venue == r.venue
      else s' == s
  }

  lemma {:induction false} LearnedIsTaken(r: OrderRecord, id: string, adopts: bool)
    ensures var r' := if r.exchangeOrderId == "" || (adopts && IsUnknown(r.legs, id)) then NoteExchangeId(r, id) else r;
            && IdTaken(r, id, adopts, r') && SameIdentity(r, r')
            && r'.state == r.state && r'.filledQuantity == r.filledQuantity && r'.averageFillPrice == r.averageFillPrice
            && r'.price == r.price && r'.quantity == r.quantity
  {
  }

  /** Learning an id and then observing takes a snapshot in. */
  lemma {:induction false} TakenTogether(r: OrderRecord, r1: OrderRecord, r': OrderRecord, snap: OrderSnapshot,
                                         adopts: bool)
    requires IdTaken(r, snap.exchangeOrderId, adopts, r1) && SameIdentity(r, r1)
    requires r1.state == r.state && r1.filledQuantity == r.filledQuantity && r1.averageFillPrice == r.averageFillPrice
    requires r1.price == r.price && r1.quantity == r.quantity
    requires SameIdentity(r1, r') && FillTaken(r1, snap.filledQuantity, snap.averageFillPrice, r')
    requires StateTaken(r1, snap.state, r') && Taken(r1.price, snap.price, r'.price)
             && Taken(r1.quantity, snap.quantity, r'.quantity)
    requires r'.exchangeOrderId == r1.exchangeOrderId && r'.legs == r1.legs
    ensures SnapshotTaken(r, snap, adopts, r')
  {
    hide FillOf, Legal;
  }

  lemma {:induction false} FoundIsTaken(s: Registry, id: string, snap: OrderSnapshot)
    requires id in s.orders
    ensures LookUpTaken(s, id, Ok(Some(snap)), Resolve(s, id, Ok(Some(snap))))
  {
    hide SnapshotTaken, FillTaken, StateTaken, IdTaken, Observe, FillAdvances;
    var r := s.orders[id];
    assert NewId(r, snap.exchangeOrderId) <==> IsUnknown(r.legs, snap.exchangeOrderId);
    var r1 := LearnedFromSnapshot(r, snap.exchangeOrderId);
    var r' := ObserveSnapshot(r1, snap);
    LearnedIsTaken(r, snap.exchangeOrderId, true);
    ObservationIsTaken(r1, snap.state, snap.filledQuantity, snap.averageFillPrice, snap.price, snap.quantity, true);
    TakenTogether(r, r1, r', snap, true);
    assert TellsState(r', StateEvent(r'));
  }

  lemma {:induction false} AbsenceIsTaken(s: Registry, id: string, found: Result<Option<OrderSnapshot>>)
    requires id in s.orders && !(found.Ok? && found.value.Some?)
    ensures LookUpTaken(s, id, found, Resolve(s, id, found))
  {
    var r := s.orders[id];
    if SaysUnknown(found) && !IsTerminal(r.state) {
      var r' := RejectedRecord(r, VENUE_ABSENT);
      var s1 := Logged(Put(s, id, r'), StateEvent(r'));
      assert TellsState(r', StateEvent(r')) && Appends(s.log, s1.log, StateEvent(r'));
      assert Appends(s1.log, Resolve(s, id, found).log, RejectedEvent(r'));
    }
  }

  /** A lookup of an order on the worklist, whenever its answer comes: the venue's word that it does not
      know the order, and no other answer, rejects one that has not ended; any other error leaves the
      whole registry as it was; a snapshot is taken in field by field, and a change is logged. */
  lemma {:induction false} LookUpDoesWhatTheVenueSays(cfg: Config, s: Sys, id: string,
                                                      found: Result<Option<OrderSnapshot>>)
    requires Inv(s) && id in s.work
    ensures var s' := Next(cfg, s, LookUp(id, found));
            && id in s.reg.orders && LookUpTaken(s.reg, id, found, s'.reg)
            && s' == s.(reg := s'.reg)
  {
    hide LookUpTaken, Resolve;
    match found
    case Ok(Some(snap)) => FoundIsTaken(s.reg, id, snap);
    case _ => AbsenceIsTaken(s.reg, id, found);
  }

  /** So an order that has not ended is rejected as absent if and only if the venue says so. */
  lemma {:induction false} RejectedAsAbsentIff(cfg: Config, s: Sys, id: string, found: Result<Option<OrderSnapshot>>)
    requires Inv(s) && id in s.work && !IsTerminal(s.reg.orders[id].state)
    ensures var after := Next(cfg, s, LookUp(id, found)).reg.orders;
            && id in after
            && (after[id].rejection == Some(VENUE_ABSENT)
                <==> found == Ok(None) || (found.Err? && found.error.code in ["venue:51603", "venue:51016"]))
  {
    hide FillTaken, IdTaken, Resolve;
    LookUpDoesWhatTheVenueSays(cfg, s, id, found);
    assert WellFormedRecord(id, s.reg.orders[id]);
  }

  /** The orders a pass looks up are those that have not ended and that no open place or amend is
      changing, and it forgets none taken before. */
  lemma {:induction false} TakenUpIff(cfg: Config, s: Sys, id: string)
    ensures var s' := Next(cfg, s, TakeWorklist);
            && s' == s.(work := s'.work)
            && (id in s'.work <==> id in s.work || (id in s.reg.orders && id !in s.reg.raced
                                                    && s.reg.orders[id].state in [Pending, Live, PartiallyFilled]))
  {
  }

  /** So at a venue that knows nothing a pass leaves an order rejected if and only if it was, or is one
      of those. */
  lemma {:induction false} PassRejectsIff(cfg: Config, s: Sys, id: string)
    requires Inv(s) && id in s.reg.orders && id !in s.work
    ensures var after := Next(cfg, Next(cfg, s, TakeWorklist), LookUp(id, Ok(None))).reg.orders;
            && id in after
            && (after[id].state == Rejected
                <==> s.reg.orders[id].state == Rejected
                     || (s.reg.orders[id].state in [Pending, Live, PartiallyFilled] && id !in s.reg.raced))
  {
    hide Inv, Resolve, Worklist;
    var s1 := Next(cfg, s, TakeWorklist);
    StepKeepsInv(cfg, s, TakeWorklist);
    TakenUpIff(cfg, s, id);
    if id in s1.work {
      LookUpDoesWhatTheVenueSays(cfg, s1, id, Ok(None));
    }
  }

  // ---- a listing ----

  /** An order the venue lists and the gateway did not know, with the terms the venue shows. */
  predicate AdoptedAs(snap: OrderSnapshot, venue: string, r: OrderRecord) {
    && r.clientOrderId == snap.clientOrderId && r.symbol == snap.instrumentId && r.venue == venue
    && r.side == snap.side && r.orderType == snap.orderType && r.timeInForce == "GTC"
    && r.price == snap.price && r.quantity == snap.quantity && r.state == snap.state
    && r.filledQuantity == (if snap.filledQuantity == "" then "0" else snap.filledQuantity)
    && r.averageFillPrice == snap.averageFillPrice
    && r.exchangeOrderId == snap.exchangeOrderId
    && r.legs == (if snap.exchangeOrderId == "" then [] else [OrderLeg(1, snap.exchangeOrderId)])
    && r.adopted && r.rejection.None?
  }

  /** The adoption as it is logged. */
  predicate TellsAdoption(r: OrderRecord, e: Event) {
    && e.Adopted? && e.id == r.clientOrderId && e.exchangeOrderId == r.exchangeOrderId && e.version == 1
    && e.state == r.state && e.filledQuantity == r.filledQuantity && e.averageFillPrice == r.averageFillPrice
    && e.terms == OrderTerms(r.symbol, r.venue, r.side, r.orderType, r.price, r.quantity, r.timeInForce)
  }

  /** What one listed order leaves of the registry: nothing without an id or while a place or amend of it
      is open; else it is adopted, or taken in without adopting a further id. */
  ghost predicate ListedTaken(s: Registry, venue: string, snap: OrderSnapshot, s': Registry) {
    var id := snap.clientOrderId;
    if id == "" || id in s.raced then s' == s
    else
      && id in s'.orders && s'.orders == s.orders[id := s'.orders[id]] && s'.raced == s.raced
      && AdoptionNoted(s, s', id, "", false)
      && if id in s.orders then SnapshotTaken(s.orders[id], snap, false, s'.orders[id]) && ChangeLogged(s, s', id)
         else
           && AdoptedAs(snap, venue, s'.orders[id])
           && exists e :: TellsAdoption(s'.orders[id], e) && Appends(s.log, s'.log, e)
  }

  lemma {:induction false} ListedIsTaken(s: Registry, venue: string, snap: OrderSnapshot)
    ensures ListedTaken(s, venue, snap, ListOne(s, venue, snap))
  {
    hide SnapshotTaken, FillTaken, StateTaken, IdTaken, Observe, FillAdvances;
    var id, r' := snap.clientOrderId, ListedRecord(s.orders, venue, snap);
    if id in s.orders {
      var r := s.orders[id];
      var r1 := Backfilled(r, snap.exchangeOrderId);
      LearnedIsTaken(r, snap.exchangeOrderId, false);
      ObservationIsTaken(r1, snap.state, snap.filledQuantity, snap.averageFillPrice, snap.price, snap.quantity, true);
      TakenTogether(r, r1, r', snap, false);
      assert TellsState(r', StateEvent(r'));
    } else {
      assert TellsAdoption(r', AdoptedEvent(r'));
    }
  }

  predicate ListedOnce(snaps: seq<OrderSnapshot>) {
    forall i, j :: 0 <= i < j < |snaps| ==> snaps[i].clientOrderId != snaps[j].clientOrderId
  }

  predicate Lists(snaps: seq<OrderSnapshot>, id: string) {
    exists i :: 0 <= i < |snaps| && snaps[i].clientOrderId == id
  }

  lemma {:induction false} UnlistedStays(s: Registry, venue: string, snaps: seq<OrderSnapshot>, id: string)
    requires !Lists(snaps, id)
    ensures ListAll(s, venue, snaps).raced == s.raced
    ensures id in ListAll(s, venue, snaps).orders <==> id in s.orders
    ensures id in s.orders ==> ListAll(s, venue, snaps).orders[id] == s.orders[id]
    decreases |snaps|
  {
    hide ListedRecord;
    if snaps != [] {
      assert snaps[0].clientOrderId != id;
      UnlistedStays(ListOne(s, venue, snaps[0]), venue, snaps[1..], id);
    }
  }

  /** A venue's whole listing, under one lock: each order listed is adopted or taken in exactly as it is
      shown, and no other changes. */
  lemma {:induction false} ListingDoesWhatTheVenueShows(s: Registry, venue: string, snaps: seq<OrderSnapshot>, i: nat)
    requires ListedOnce(snaps) && i < |snaps|
    ensures var s', snap := ListAll(s, venue, snaps), snaps[i];
            var id := snap.clientOrderId;
            if id == "" || id in s.raced
            then (id in s'.orders <==> id in s.orders) && (id in s.orders ==> s'.orders[id] == s.orders[id])
            else
              && id in s'.orders
              && if id in s.orders then SnapshotTaken(s.orders[id], snap, false, s'.orders[id])
                 else AdoptedAs(snap, venue, s'.orders[id])
    decreases |snaps|
  {
    hide ListOne, SnapshotTaken, AdoptedAs, ChangeLogged, Appends;
    var s1 := ListOne(s, venue, snaps[0]);
    ListedIsTaken(s, venue, snaps[0]);
    if i == 0 {
      assert !Lists(snaps[1..], snaps[0].clientOrderId);
      UnlistedStays(s1, venue, snaps[1..], snaps[0].clientOrderId);
    } else {
      assert snaps[1..][i - 1] == snaps[i] && snaps[0].clientOrderId != snaps[i].clientOrderId;
      ListingDoesWhatTheVenueShows(s1, venue, snaps[1..], i - 1);
    }
  }

  // ---- an execution report ----

  /** The report names a leg that is not the newest. */
  predicate NamesOlderLeg(r: OrderRecord, id: string) {
    && id != "" && r.legs != [] && r.legs[|r.legs| - 1].exchangeOrderId != id
    && exists i :: 0 <= i < |r.legs| && r.legs[i].exchangeOrderId == id
  }

  /** A report counts its fill whatever leg it names, moves the state unless it names an older leg, and
      teaches its id if no leg has it; price and quantity are not its to say. */
  predicate ReportTaken(r: OrderRecord, report: ExecutionReport, r': OrderRecord) {
    && SameIdentity(r, r') && r'.price == r.price && r'.quantity == r.quantity
    && IdTaken(r, report.exchangeOrderId, r.legs != [], r')
    && FillTaken(r, report.filledQuantity, report.averageFillPrice, r')
    && if NamesOlderLeg(r, report.exchangeOrderId) then r'.state == r.state else StateTaken(r, report.state, r')
  }

  /** What a delivered report leaves of the registry: counted as buffered, unknown, applied or stale, and
      logged if and only if it moved the state or the fill. */
  ghost predicate DeliveryTaken(s: Registry, report: ExecutionReport, s': Registry) {
    var id := report.clientOrderId;
    if id in s.raced then
      s' == s.(raced := s.raced[id := s.raced[id] + [report]], stats := s.stats.(buffered := s.stats.buffered + 1))
    else if id !in s.orders then s' == s.(stats := s.stats.(unknown := s.stats.unknown + 1))
    else
      && id in s'.orders && s'.orders == s.orders[id := s'.orders[id]] && s'.raced == s.raced
      && ReportTaken(s.orders[id], report, s'.orders[id])
      && AdoptionNoted(s, s', id, report.exchangeOrderId,
                       s.orders[id].legs != [] && NewId(s.orders[id], report.exchangeOrderId))
      && if s'.orders[id].state == s.orders[id].state && s'.orders[id].filledQuantity == s.orders[id].filledQuantity
         then s'.log == s.log && s'.stats.stale == s.stats.stale + 1 && s'.stats.applied == s.stats.applied
         else
           && s'.stats.applied == s.stats.applied + 1 && s'.stats.stale == s.stats.stale
           && exists e :: TellsState(s'.orders[id], e) && Appends(s.log, s'.log, e)
  }

  lemma {:induction false} ReportIsTaken(r: OrderRecord, report: ExecutionReport)
    ensures ReportTaken(r, report, Arbitrate(r, report))
    ensures var r' := Arbitrate(r, report);
            r' == Learned(r, report) <==> r'.state == r.state && r'.filledQuantity == r.filledQuantity
  {
    hide FillTaken, IdTaken, FillAdvances;
    var r1, r' := Learned(r, report), Arbitrate(r, report);
    LearnedIsTaken(r, report.exchangeOrderId, r.legs != []);
    assert IdTaken(r, report.exchangeOrderId, r.legs != [], r1);
    IdTakenStays(r, report.exchangeOrderId, r.legs != [], r1, r');
    ObservationIsTaken(r1, report.state, report.filledQuantity, report.averageFillPrice, "", "",
                       DrivesLifecycle(r, report));
    SameFillTaken(r, r1, report.filledQuantity, report.averageFillPrice, r');
    AdvanceIsNews(r.filledQuantity, report.filledQuantity);
    assert NamesOlderLeg(r, report.exchangeOrderId) <==> !DrivesLifecycle(r, report);
  }

  lemma {:induction false} IdTakenStays(r: OrderRecord, id: string, adopts: bool, r1: OrderRecord, r': OrderRecord)
    requires r'.exchangeOrderId == r1.exchangeOrderId && r'.legs == r1.legs
    ensures IdTaken(r, id, adopts, r1) <==> IdTaken(r, id, adopts, r')
  {
  }

  lemma {:induction false} SameFillTaken(r: OrderRecord, r1: OrderRecord, filled: string, average: string,
                                         r': OrderRecord)
    requires r1.filledQuantity == r.filledQuantity && r1.averageFillPrice == r.averageFillPrice
    ensures FillTaken(r1, filled, average, r') <==> FillTaken(r, filled, average, r')
  {
    hide FillOf;
  }

  /** An execution report, delivered at any moment. */
  lemma {:induction false} DeliveryDoesWhatTheReportSays(cfg: Config, s: Sys, report: ExecutionReport)
    requires Inv(s)
    ensures var s' := Next(cfg, s, Report(report));
            && DeliveryTaken(s.reg, report, s'.reg)
            && s' == s.(reg := s'.reg, delivered := s.delivered + 1)
  {
    hide ReportTaken, Arbitrate, Learned, Inv;
    var id := report.clientOrderId;
    if id in s.reg.orders {
      var r' := Arbitrate(s.reg.orders[id], report);
      ReportIsTaken(s.reg.orders[id], report);
      assert NewId(s.reg.orders[id], report.exchangeOrderId)
             <==> IsUnknown(s.reg.orders[id].legs, report.exchangeOrderId);
      assert TellsState(r', StateEvent(r'));
    }
  }
}
