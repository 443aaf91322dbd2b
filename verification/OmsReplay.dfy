/** Replaying the log rebuilds, for every order, the outcome the live registry has. */
module OmsReplay {
  import opened Wrappers
  import opened OrderLifecycle
  import opened OrderRecords
  import opened OmsRegistry
  import opened OmsMachine

  /** What the log always brings back: the outcome, and which order it is; how it was to be worked too,
      unless it was rejected, which can be before it was ever staged. Legs are not here: their adoption
      is not replayed. Price and quantity are only with `terms`: reconciliation changes them without an
      event that replays them. */
  predicate SameOutcome(a: OrderRecord, b: OrderRecord, terms: bool := false) {
    && a.state == b.state && a.filledQuantity == b.filledQuantity && a.averageFillPrice == b.averageFillPrice
    && a.rejection == b.rejection
    && a.clientOrderId == b.clientOrderId && a.symbol == b.symbol && a.venue == b.venue && a.adopted == b.adopted
    && (b.state != Rejected ==> SameTrade(a, b) && (terms ==> SameTerms(a, b)))
  }

  predicate SameTerms(a: OrderRecord, b: OrderRecord) {
    a.price == b.price && a.quantity == b.quantity
  }

  /** The venue shows what is on record, or nothing. */
  predicate ShowsAgain(recorded: string, shown: string) {
    shown == "" || shown == recorded
  }

  /** An amend to nothing is of nothing: an empty value is not replayed. */
  predicate Replaces(recorded: string, amended: string) {
    amended != "" || recorded == ""
  }

  predicate SameTrade(a: OrderRecord, b: OrderRecord) {
    a.side == b.side && a.orderType == b.orderType && a.timeInForce == b.timeInForce
  }

  ghost predicate Agrees(replayed: map<string, OrderRecord>, live: map<string, OrderRecord>, terms: bool := false) {
    && replayed.Keys == live.Keys
    && forall id :: id in live ==> SameOutcome(replayed[id], live[id], terms)
  }

  /** While the log is on and no append has failed, replaying it agrees with the registry. */
  ghost predicate Refined(s: Registry, terms: bool := false) {
    s.log.enabled && s.stats.logWriteFailures == 0 ==> Agrees(Replay(s.log.events), s.orders, terms)
  }

  // ---- one event against one change of a record ----

  /** `r'` is `r` after one observation: at most one legal transition and one advance of the fill. */
  ghost predicate Observed(r: OrderRecord, r': OrderRecord, terms: bool := false) {
    && r'.clientOrderId == r.clientOrderId && r'.rejection == r.rejection
    && r'.symbol == r.symbol && r'.venue == r.venue && r'.adopted == r.adopted && SameTrade(r, r')
    && (terms ==> SameTerms(r, r'))
    && (r'.state == r.state || Legal(r.state, r'.state))
    && if FillAdvances(r.filledQuantity, r'.filledQuantity) then r'.averageFillPrice == "" ==> r.averageFillPrice == ""
       else r'.filledQuantity == r.filledQuantity && r'.averageFillPrice == r.averageFillPrice
  }

  lemma {:induction false} ObserveIsObserved(r: OrderRecord, r1: OrderRecord, state: OrderState, filled: string,
                                             average: string, price: string, quantity: string, lifecycle: bool,
                                             terms: bool := false)
    requires SameOutcome(r, r1, terms) && SameTrade(r, r1)
    requires terms ==> SameTerms(r, r1) && ShowsAgain(r.price, price) && ShowsAgain(r.quantity, quantity)
    ensures Observed(r, Observe(r1, state, filled, average, price, quantity, lifecycle), terms)
  {
  }

  lemma {:induction false} StateReplays(a: OrderRecord, b: OrderRecord, r': OrderRecord, x: string,
                                        terms: bool := false)
    requires SameOutcome(a, b, terms) && Observed(b, r', terms)
    ensures var o := Observe(a, r'.state, r'.filledQuantity, r'.averageFillPrice, "", "", true);
            SameOutcome(o, r', terms) && SameOutcome(NoteExchangeId(o, x), r', terms)
  {
    hide FillAdvances;
  }

  lemma {:induction false} StateEventReplays(m: map<string, OrderRecord>, live: map<string, OrderRecord>, id: string,
                                             r': OrderRecord, terms: bool := false)
    requires Agrees(m, live, terms) && id in live && live[id].clientOrderId == id && Observed(live[id], r', terms)
    ensures Agrees(ApplyLogEvent(m, StateEvent(r')), live[id := r'], terms)
  {
    assert r'.clientOrderId == id;
    hide SameOutcome, Observed, Observe, NoteExchangeId;
    StateReplays(m[id], live[id], r', r'.exchangeOrderId, terms);
  }

  lemma {:induction false} BirthEventReplays(m: map<string, OrderRecord>, live: map<string, OrderRecord>, id: string,
                                             r': OrderRecord, e: Event, terms: bool := false)
    requires Agrees(m, live, terms) && r'.clientOrderId == id && r'.rejection.None?
    requires || (e == AdoptedEvent(r') && r'.adopted)
             || (e == PlaceSubmittedEvent(r') && AsStaged(r'))
             || (e == PlaceAcceptedEvent(r') && r'.state == Live && r'.filledQuantity == "0"
                 && r'.averageFillPrice == "" && !r'.adopted)
    ensures Agrees(ApplyLogEvent(m, e), live[id := r'], terms)
  {
  }

  lemma {:induction false} AmendedEventReplays(m: map<string, OrderRecord>, live: map<string, OrderRecord>, id: string,
                                               r': OrderRecord, terms: bool := false)
    requires Agrees(m, live, terms) && id in live && r'.clientOrderId == id && SameOutcome(live[id], r')
    requires terms ==> Replaces(live[id].price, r'.price) && Replaces(live[id].quantity, r'.quantity)
    requires terms ==> LegVersion(r') > 0
    ensures Agrees(ApplyLogEvent(m, AmendedEvent(r')), live[id := r'], terms)
  {
  }

  /** The record has these terms. */
  predicate HasTermsOf(a: OrderRecord, r: OrderRecord) {
    && a.clientOrderId == r.clientOrderId && a.symbol == r.symbol && a.venue == r.venue && a.side == r.side
    && a.orderType == r.orderType && a.timeInForce == r.timeInForce && a.price == r.price && a.quantity == r.quantity
  }

  predicate HasFirstLeg(a: OrderRecord, r: OrderRecord) {
    && a.exchangeOrderId == r.exchangeOrderId
    && a.legs == if r.exchangeOrderId == "" then []
       else [OrderLeg(if LegVersion(r) == 0 then 1 else LegVersion(r), r.exchangeOrderId)]
  }

  /** The round trip of a record through each of its events, whatever was on record before: an intent
      brings back all its terms, an ack its leg too, an adoption its outcome as well. */
  lemma {:induction false} BirthsBringBack(m: map<string, OrderRecord>, r: OrderRecord)
    ensures var after := ApplyLogEvent(m, PlaceSubmittedEvent(r));
            && r.clientOrderId in after && after == m[r.clientOrderId := after[r.clientOrderId]]
            && HasTermsOf(after[r.clientOrderId], r) && AsStaged(after[r.clientOrderId])
    ensures var after := ApplyLogEvent(m, PlaceAcceptedEvent(r));
            && r.clientOrderId in after && after == m[r.clientOrderId := after[r.clientOrderId]]
            && HasTermsOf(after[r.clientOrderId], r) && HasFirstLeg(after[r.clientOrderId], r)
            && after[r.clientOrderId].state == Live && after[r.clientOrderId].filledQuantity == "0"
    ensures var after := ApplyLogEvent(m, AdoptedEvent(r));
            && r.clientOrderId in after && after == m[r.clientOrderId := after[r.clientOrderId]]
            && HasTermsOf(after[r.clientOrderId], r) && HasFirstLeg(after[r.clientOrderId], r)
            && after[r.clientOrderId].state == r.state && after[r.clientOrderId].filledQuantity == r.filledQuantity
            && after[r.clientOrderId].averageFillPrice == r.averageFillPrice && after[r.clientOrderId].adopted
  {
  }

  /** Of a known order an amend brings back its values, those it has, and its id, as the version it was
      made; a state brings back an id only if none is on record, and as the next version. */
  lemma {:induction false} ChangesBringBack(m: map<string, OrderRecord>, r: OrderRecord)
    requires r.clientOrderId in m
    ensures var a := m[r.clientOrderId];
            var after := ApplyLogEvent(m, AmendedEvent(r));
            && r.clientOrderId in after && after == m[r.clientOrderId := after[r.clientOrderId]]
            && (LegVersion(r) > 0 ==>
                  var a' := after[r.clientOrderId];
                  && a'.price == (if r.price != "" then r.price else a.price)
                  && a'.quantity == (if r.quantity != "" then r.quantity else a.quantity)
                  && a'.exchangeOrderId == (if r.exchangeOrderId != "" then r.exchangeOrderId else a.exchangeOrderId)
                  && (LegVersion(r) == |a.legs| + 1
                      ==> a'.legs == a.legs + [OrderLeg(LegVersion(r), r.exchangeOrderId)])
                  && a'.state == a.state && a'.filledQuantity == a.filledQuantity)
    ensures var a := m[r.clientOrderId];
            var after := ApplyLogEvent(m, StateEvent(r));
            && r.clientOrderId in after && after == m[r.clientOrderId := after[r.clientOrderId]]
            && var a' := after[r.clientOrderId];
               && HasTermsOf(a', a)
               && (if a.exchangeOrderId == "" && r.exchangeOrderId != ""
                   then a'.exchangeOrderId == r.exchangeOrderId
                        && a'.legs == a.legs + [OrderLeg(|a.legs| + 1, r.exchangeOrderId)]
                   else a'.exchangeOrderId == a.exchangeOrderId && a'.legs == a.legs)
  {
    hide FillAdvances;
  }

  // ---- logging keeps the refinement ----

  lemma {:induction false} LoggedRefines(s: Registry, live: map<string, OrderRecord>, e: Event, terms: bool := false)
    requires s.log.enabled && s.stats.logWriteFailures == 0
             ==> Agrees(ApplyLogEvent(Replay(s.log.events), e), live, terms)
    requires s.orders == live
    ensures Refined(Logged(s, e), terms)
  {
  }

  lemma {:induction false} QuietPutRefines(s: Registry, id: string, r': OrderRecord, terms: bool := false)
    requires Refined(s, terms) && id in s.orders && SameOutcome(s.orders[id], r', terms)
    ensures Refined(Put(s, id, r'), terms)
  {
  }

  lemma {:induction false} StateChangeRefines(s: Registry, s1: Registry, id: string, r': OrderRecord,
                                              terms: bool := false)
    requires Refined(s, terms) && id in s.orders && s.orders[id].clientOrderId == id
             && Observed(s.orders[id], r', terms)
    requires s1.orders == s.orders[id := r'] && s1.log == s.log && s1.stats.logWriteFailures == s.stats.logWriteFailures
    ensures Refined(Logged(s1, StateEvent(r')), terms)
  {
    if s.log.enabled && s.stats.logWriteFailures == 0 {
      StateEventReplays(Replay(s.log.events), s.orders, id, r', terms);
    }
    LoggedRefines(s1, s1.orders, StateEvent(r'), terms);
  }

  lemma {:induction false} ApplyReportRefines(s: Registry, id: string, report: ExecutionReport, terms: bool := false)
    requires Refined(s, terms) && id in s.orders && s.orders[id].clientOrderId == id
    ensures Refined(ApplyReport(s, id, report), terms) && ApplyReport(s, id, report).orders[id].clientOrderId == id
  {
    var r := s.orders[id];
    var r1, r' := Learned(r, report), Arbitrate(r, report);
    ObserveIsObserved(r, r1, report.state, report.filledQuantity, report.averageFillPrice, "", "",
                      DrivesLifecycle(r, report), terms);
    var s0 := if Adopts(r, report) then NoteDiscovery(s, id, report.exchangeOrderId) else s;
    var s1 := Put(s0, id, r');
    StateChangeRefines(s, s1.(stats := s1.stats.(applied := s1.stats.applied + 1)), id, r', terms);
    if r' == r1 {
      QuietPutRefines(s, id, r', terms);
    }
  }

  lemma {:induction false} ApplyReportsRefine(s: Registry, id: string, reports: seq<ExecutionReport>,
                                              terms: bool := false)
    requires Refined(s, terms) && id in s.orders && s.orders[id].clientOrderId == id
    ensures Refined(ApplyReports(s, id, reports), terms)
    decreases |reports|
  {
    if reports != [] {
      ApplyReportRefines(s, id, reports[0], terms);
      ApplyReportsRefine(ApplyReport(s, id, reports[0]), id, reports[1..], terms);
    }
  }

  // ---- the critical sections keep the refinement ----

  lemma {:induction false} RefusalRefines(s: Registry, id: string, staged: OrderRecord, e: Error, terms: bool := false)
    requires Refined(s, terms) && id !in s.orders && staged.clientOrderId == id && AsStaged(staged)
    ensures var r := staged.(state := Rejected, rejection := Some(e));
            Refined(Put(Logged(s, RejectedEvent(r)), id, r), terms)
  {
  }

  lemma {:induction false} IntentRefines(s: Registry, id: string, staged: OrderRecord, terms: bool := false)
    requires Refined(s, terms) && id !in s.orders && staged.clientOrderId == id && AsStaged(staged)
    ensures Refined(Put(Logged(s, PlaceSubmittedEvent(staged)), id, staged), terms)
  {
  }

  lemma {:induction false} PlaceStageRefines(s: Registry, cfg: Config, req: OrderRequest, venue: string,
                                             verdict: Option<Error>, terms: bool := false)
    requires Refined(s, terms)
    ensures Refined(PlaceStage(s, cfg, req, venue, verdict).0, terms)
  {
    var id := req.clientOrderId;
    var staged := StagedRecord(req, if venue == "" then cfg.defaultVenue else venue);
    if id !in s.orders {
      if verdict.Some? {
        RefusalRefines(s, id, staged, verdict.value, terms);
      } else {
        IntentRefines(s, id, staged, terms);
      }
    }
  }

  lemma {:induction false} RejectionRefines(s: Registry, id: string, e: Error, terms: bool := false)
    requires Refined(s, terms) && id in s.orders && s.orders[id].clientOrderId == id
    ensures Refined(PlaceRejected(s, id, e), terms)
  {
  }

  lemma {:induction false} PlaceFinishRefines(s: Registry, id: string, answer: Result<string>, terms: bool := false)
    requires Refined(s, terms) && id in s.orders && s.orders[id].clientOrderId == id && AsStaged(s.orders[id])
    ensures Refined(PlaceFinish(s, id, answer).0, terms)
  {
    var raced, s0 := RacedFor(s, id), Drained(s, id);
    match answer
    case Err(e) =>
      ApplyReportsRefine(s0, id, raced, terms);
      RejectionRefines(s0, id, e, terms);
    case Ok(x) =>
      var r := AckedPlace(s.orders[id], x);
      if s.log.enabled && s.stats.logWriteFailures == 0 {
        BirthEventReplays(Replay(s.log.events), s.orders, id, r, PlaceAcceptedEvent(r), terms);
      }
      LoggedRefines(Put(s0, id, r), s.orders[id := r], PlaceAcceptedEvent(r), terms);
      ApplyReportsRefine(Logged(Put(s0, id, r), PlaceAcceptedEvent(r)), id, raced, terms);
  }

  lemma {:induction false} AmendLoggedRefines(s: Registry, id: string, price: string, quantity: string, x: string,
                                              terms: bool := false)
    requires Refined(s, terms) && id in s.orders && s.orders[id].clientOrderId == id
    requires terms ==> x != "" && Replaces(s.orders[id].price, price) && Replaces(s.orders[id].quantity, quantity)
    ensures var r := AmendedRecord(s.orders[id], price, quantity, x);
            Refined(Logged(Put(s, id, r), AmendedEvent(r)), terms) && r.clientOrderId == id
  {
    hide ApplyLogEvent, Replaces;
    var r := AmendedRecord(s.orders[id], price, quantity, x);
    if s.log.enabled && s.stats.logWriteFailures == 0 {
      AmendedEventReplays(Replay(s.log.events), s.orders, id, r, terms);
    }
    LoggedRefines(Put(s, id, r), s.orders[id := r], AmendedEvent(r), terms);
  }

  lemma {:induction false} AmendFinishRefines(s: Registry, id: string, price: string, quantity: string,
                                              answer: Result<string>, terms: bool := false)
    requires Refined(s, terms) && id in s.orders && s.orders[id].clientOrderId == id
    requires terms && answer.Ok? ==>
               answer.value != "" && Replaces(s.orders[id].price, price) && Replaces(s.orders[id].quantity, quantity)
    ensures Refined(AmendFinish(s, id, price, quantity, answer).0, terms)
  {
    var raced, s0 := RacedFor(s, id), Drained(s, id);
    assert Refined(s0, terms);
    hide ApplyReports, ArbitrateAll, Replaces, Refined;
    match answer
    case Err(_) =>
      var newest := NewestUnknown(s.orders[id].legs, raced);
      var s1 := if s.orders[id].legs != [] && newest != "" then NoteDiscovery(s0, id, newest) else s0;
      NotedRefines(s0, id, newest, terms);
      QuietPutRefines(s1, id, AdoptNewest(s.orders[id], raced), terms);
      ApplyReportsRefine(Put(s1, id, AdoptNewest(s.orders[id], raced)), id, raced, terms);
    case Ok(x) =>
      var r := AmendedRecord(s.orders[id], price, quantity, x);
      AmendLoggedRefines(s0, id, price, quantity, x, terms);
      ApplyReportsRefine(Logged(Put(s0, id, r), AmendedEvent(r)), id, raced, terms);
  }

  lemma {:induction false} NotedRefines(s: Registry, id: string, x: string, terms: bool := false)
    requires Refined(s, terms)
    ensures Refined(NoteDiscovery(s, id, x), terms)
  {
  }

  lemma {:induction false} CancelFinishRefines(s: Registry, id: string, answer: Result<string>, terms: bool := false)
    requires Refined(s, terms) && id in s.orders && s.orders[id].clientOrderId == id
    ensures Refined(CancelFinish(s, id, answer).0, terms)
  {
    hide Refined, OmsRegistry.Logged;
    if answer.Ok? {
      var r := CanceledRecord(s.orders[id], answer.value);
      if Legal(s.orders[id].state, Canceled) {
        StateChangeRefines(s, Put(s, id, r), id, r, terms);
      } else {
        QuietPutRefines(s, id, r, terms);
      }
    }
  }

  lemma {:induction false} SnapshotObserved(r: OrderRecord, r1: OrderRecord, snap: OrderSnapshot, terms: bool := false)
    requires SameOutcome(r, r1, terms) && SameTrade(r, r1)
    requires terms ==> SameTerms(r, r1) && ShowsAgain(r.price, snap.price) && ShowsAgain(r.quantity, snap.quantity)
    ensures Observed(r, ObserveSnapshot(r1, snap), terms)
  {
  }

  /** The order, if it is known and may be touched, is listed with the price and quantity on record. */
  predicate ListingShowsAgain(s: Registry, snap: OrderSnapshot) {
    snap.clientOrderId in s.orders && snap.clientOrderId !in s.raced && snap.clientOrderId != "" ==>
      && ShowsAgain(s.orders[snap.clientOrderId].price, snap.price)
      && ShowsAgain(s.orders[snap.clientOrderId].quantity, snap.quantity)
  }

  predicate ListingsShowAgain(s: Registry, venue: string, snaps: seq<OrderSnapshot>)
    decreases |snaps|
  {
    snaps == [] || (ListingShowsAgain(s, snaps[0]) && ListingsShowAgain(ListOne(s, venue, snaps[0]), venue, snaps[1..]))
  }

  predicate AnswerShowsAgain(s: Registry, id: string, found: Result<Option<OrderSnapshot>>) {
    id in s.orders && found.Ok? && found.value.Some? ==>
      && ShowsAgain(s.orders[id].price, found.value.value.price)
      && ShowsAgain(s.orders[id].quantity, found.value.value.quantity)
  }

  /** The step brings no price or quantity that the log would not: what reconciliation shows is on record,
      and an acknowledged amend carries values and an id. */
  predicate StepShowsAgain(s: Sys, step: Step) {
    match step
    case ListOpenOrders(venue, snaps) => ListingsShowAgain(s.reg, venue, snaps)
    case LookUp(id, found) => AnswerShowsAgain(s.reg, id, found)
    case FinishAmend(t, answer) =>
      t in s.calls && s.calls[t].AmendCall? && answer.Ok? && s.calls[t].amendId in s.reg.orders ==>
        && answer.value != "" && Replaces(s.reg.orders[s.calls[t].amendId].price, s.calls[t].price)
        && Replaces(s.reg.orders[s.calls[t].amendId].quantity, s.calls[t].quantity)
    case _ => true
  }

  predicate RunShowsAgain(cfg: Config, s: Sys, steps: seq<Step>)
    decreases |steps|
  {
    steps == [] || (StepShowsAgain(s, steps[0]) && RunShowsAgain(cfg, Next(cfg, s, steps[0]), steps[1..]))
  }

  lemma {:induction false} ListOneRefines(s: Registry, venue: string, snap: OrderSnapshot, terms: bool := false)
    requires Refined(s, terms) && WellFiled(s.orders)
    requires terms ==> ListingShowsAgain(s, snap)
    ensures Refined(ListOne(s, venue, snap), terms)
  {
    var id := snap.clientOrderId;
    var r' := ListedRecord(s.orders, venue, snap);
    if id == "" || id in s.raced {
    } else if id in s.orders {
      assert WellFormedRecord(id, s.orders[id]);
      SnapshotObserved(s.orders[id], Backfilled(s.orders[id], snap.exchangeOrderId), snap, terms);
      StateChangeRefines(s, Put(s, id, r'), id, r', terms);
    } else {
      if s.log.enabled && s.stats.logWriteFailures == 0 {
        BirthEventReplays(Replay(s.log.events), s.orders, id, r', AdoptedEvent(r'), terms);
      }
      LoggedRefines(Put(s, id, r'), s.orders[id := r'], AdoptedEvent(r'), terms);
    }
  }

  lemma {:induction false} ListAllRefines(s: Registry, venue: string, snaps: seq<OrderSnapshot>, terms: bool := false)
    requires Refined(s, terms) && WellFiled(s.orders)
    requires terms ==> ListingsShowAgain(s, venue, snaps)
    ensures Refined(ListAll(s, venue, snaps), terms)
    decreases |snaps|
  {
    if snaps != [] {
      ListOneRefines(s, venue, snaps[0], terms);
      ListOneSparesOpen(s, venue, snaps[0]);
      ListAllRefines(ListOne(s, venue, snaps[0]), venue, snaps[1..], terms);
    }
  }

  lemma {:induction false} ResolveFoundRefines(s: Registry, id: string, snap: OrderSnapshot, terms: bool := false)
    requires Refined(s, terms) && id in s.orders && s.orders[id].clientOrderId == id
    requires terms ==> ShowsAgain(s.orders[id].price, snap.price) && ShowsAgain(s.orders[id].quantity, snap.quantity)
    ensures Refined(ResolveFound(s, id, snap), terms)
  {
    var r := s.orders[id];
    var r1 := LearnedFromSnapshot(r, snap.exchangeOrderId);
    var r' := ObserveSnapshot(r1, snap);
    SnapshotObserved(r, r1, snap, terms);
    var adopts := r.exchangeOrderId != "" && IsUnknown(r.legs, snap.exchangeOrderId);
    var s1 := Put(if adopts then NoteDiscovery(s, id, snap.exchangeOrderId) else s, id, r');
    StateChangeRefines(s, s1, id, r', terms);
    if r' == r1 {
      QuietPutRefines(s, id, r', terms);
    }
  }

  lemma {:induction false} AbsenceEventsReplay(m: map<string, OrderRecord>, live: map<string, OrderRecord>, id: string,
                                               r': OrderRecord, terms: bool := false)
    requires Agrees(m, live, terms) && id in live && live[id].clientOrderId == id && Legal(live[id].state, Rejected)
    requires r' == RejectedRecord(live[id], VENUE_ABSENT)
    ensures Agrees(ApplyLogEvent(ApplyLogEvent(m, StateEvent(r')), RejectedEvent(r')), live[id := r'], terms)
  {
  }

  lemma {:induction false} AbsenceRefines(s: Registry, id: string, r': OrderRecord, terms: bool := false)
    requires Refined(s, terms) && id in s.orders && s.orders[id].clientOrderId == id
             && Legal(s.orders[id].state, Rejected)
    requires r' == RejectedRecord(s.orders[id], VENUE_ABSENT)
    ensures Refined(Logged(Logged(Put(s, id, r'), StateEvent(r')), RejectedEvent(r')), terms)
  {
    hide OmsRegistry.ApplyLogEvent;
    var s1 := Logged(Put(s, id, r'), StateEvent(r'));
    if s1.log.enabled && s1.stats.logWriteFailures == 0 {
      AbsenceEventsReplay(Replay(s.log.events), s.orders, id, r', terms);
      assert (s.log.events + [StateEvent(r')])[..|s.log.events|] == s.log.events;
    }
    LoggedRefines(s1, s1.orders, RejectedEvent(r'), terms);
  }

  lemma {:induction false} ResolveRefines(s: Registry, id: string, found: Result<Option<OrderSnapshot>>,
                                          terms: bool := false)
    requires Refined(s, terms) && WellFiled(s.orders)
    requires terms ==> AnswerShowsAgain(s, id, found)
    ensures Refined(Resolve(s, id, found), terms)
  {
    if id in s.orders {
      assert WellFormedRecord(id, s.orders[id]);
      if found.Ok? && found.value.Some? {
        ResolveFoundRefines(s, id, found.value.value, terms);
      } else if ConclusivelyAbsent(found) && Legal(s.orders[id].state, Rejected) {
        AbsenceRefines(s, id, RejectedRecord(s.orders[id], VENUE_ABSENT), terms);
      }
    }
  }

  // ---- every step keeps the refinement ----

  lemma {:induction false} FinishRefines(cfg: Config, s: Sys, step: Step, terms: bool := false)
    requires Inv(s) && Refined(s.reg, terms) && (step.FinishPlace? || step.FinishAmend? || step.FinishCancel?)
    requires terms ==> StepShowsAgain(s, step)
    ensures Refined(Next(cfg, s, step).reg, terms)
  {
    if step.t in s.calls {
      var c := s.calls[step.t];
      var id := CallId(c);
      assert CallFits(s, step.t, c) && WellFormedRecord(id, s.reg.orders[id]);
      match c
      case PlaceCall(_, _) => PlaceFinishRefines(s.reg, id, step.answer, terms);
      case CancelCall(_) => CancelFinishRefines(s.reg, id, step.answer, terms);
      case AmendCall(_, price, quantity) =>
        if step.FinishAmend? {
          AmendFinishRefines(s.reg, id, price, quantity, step.answer, terms);
        }
    }
  }

  lemma {:induction false} FeedRefines(cfg: Config, s: Sys, step: Step, terms: bool := false)
    requires Inv(s) && Refined(s.reg, terms) && (OfReconcile(step) || step.Report?)
    requires terms ==> StepShowsAgain(s, step)
    ensures Refined(Next(cfg, s, step).reg, terms)
  {
    match step
    case Report(report) =>
      var id := report.clientOrderId;
      if id !in s.reg.raced && id in s.reg.orders {
        assert WellFormedRecord(id, s.reg.orders[id]);
        ApplyReportRefines(s.reg, id, report, terms);
      }
    case ListOpenOrders(venue, snaps) => ListAllRefines(s.reg, venue, snaps, terms);
    case LookUp(id, found) => ResolveRefines(s.reg, id, found, terms);
    case TakeWorklist =>
  }

  lemma {:induction false} StageRefines(cfg: Config, s: Sys, step: Step, terms: bool := false)
    requires Refined(s.reg, terms)
             && (step.StagePlace? || step.StageAmend? || step.StageCancel? || step.SendPlace? || step.DrainNotes?)
    ensures Refined(Next(cfg, s, step).reg, terms)
  {
    if step.StagePlace? {
      PlaceStageRefines(s.reg, cfg, step.req, step.venue, step.verdict, terms);
    }
  }

  lemma {:induction false} StepRefines(cfg: Config, s: Sys, step: Step, terms: bool := false)
    requires Inv(s) && Refined(s.reg, terms)
    requires terms ==> StepShowsAgain(s, step)
    ensures Refined(Next(cfg, s, step).reg, terms)
  {
    if step.FinishPlace? || step.FinishAmend? || step.FinishCancel? {
      FinishRefines(cfg, s, step, terms);
    } else if OfReconcile(step) || step.Report? {
      FeedRefines(cfg, s, step, terms);
    } else {
      StageRefines(cfg, s, step, terms);
    }
  }

  lemma {:induction false} RunRefines(cfg: Config, s: Sys, steps: seq<Step>, terms: bool := false)
    requires Inv(s) && Refined(s.reg, terms)
    requires terms ==> RunShowsAgain(cfg, s, steps)
    ensures Refined(Run(cfg, s, steps).reg, terms)
    decreases |steps|
  {
    if steps != [] {
      StepKeepsInv(cfg, s, steps[0]);
      StepRefines(cfg, s, steps[0], terms);
      RunRefines(cfg, Next(cfg, s, steps[0]), steps[1..], terms);
    }
  }

  /** Replay refines the runtime: after every prefix of every interleaving, with the log on and no
      failed append counted, replaying the log from nothing gives exactly the live orders, each with
      the live state, fill, average price and rejection. */
  lemma {:induction false} ReplayRefinesRuntime(cfg: Config, disk: seq<bool>, steps: seq<Step>)
    ensures var reg := Run(cfg, Init(true, disk), steps).reg;
            reg.stats.logWriteFailures == 0 ==> Agrees(Replay(reg.log.events), reg.orders)
  {
    RunRefines(cfg, Init(true, disk), steps);
    LogStaysOn(cfg, Init(true, disk), steps);
  }

  /** And the live price and quantity too, of every order not rejected, over any run in which
      reconciliation shows none that is not on record, and amends are to something and acks carry ids. */
  lemma {:induction false} ReplayRestoresTerms(cfg: Config, disk: seq<bool>, steps: seq<Step>)
    requires RunShowsAgain(cfg, Init(true, disk), steps)
    ensures var reg := Run(cfg, Init(true, disk), steps).reg;
            reg.stats.logWriteFailures == 0 ==> Agrees(Replay(reg.log.events), reg.orders, true)
  {
    hide RunShowsAgain;
    RunRefines(cfg, Init(true, disk), steps, true);
    LogStaysOn(cfg, Init(true, disk), steps);
  }

  /** It is reconciliation that the log does not follow: after a lookup, with no failed append, the log
      still brings back the terms of an order not rejected if and only if the venue showed those on
      record. */
  lemma {:induction false} LookUpReplaysIff(cfg: Config, s: Sys, id: string, found: Result<Option<OrderSnapshot>>)
    requires Inv(s) && Refined(s.reg, true) && s.reg.log.enabled && id in s.work
    ensures var reg := Next(cfg, s, LookUp(id, found)).reg;
            id in reg.orders && (reg.stats.logWriteFailures == 0 && reg.orders[id].state != Rejected ==>
              (Agrees(Replay(reg.log.events), reg.orders, true) <==> AnswerShowsAgain(s.reg, id, found)))
  {
    var reg := Resolve(s.reg, id, found);
    if reg.stats.logWriteFailures == 0 && reg.orders[id].state != Rejected {
      if AnswerShowsAgain(s.reg, id, found) {
        ResolveRefines(s.reg, id, found, true);
        StepOnlyAppends(cfg, s, LookUp(id, found));
      } else {
        var r, snap := s.reg.orders[id], found.value.value;
        assert WellFormedRecord(id, r);
        OtherTermsAreForgotten(s.reg, id, snap);
      }
    }
  }

  lemma {:induction false} SnapshotMovesTerms(r: OrderRecord, snap: OrderSnapshot)
    ensures var r' := ResolvedRecord(r, Ok(Some(snap)));
            && r'.clientOrderId == r.clientOrderId && (r'.state != Rejected ==> r.state != Rejected)
            && (SameTerms(r, r') <==> ShowsAgain(r.price, snap.price) && ShowsAgain(r.quantity, snap.quantity))
  {
    hide FillAdvances;
  }

  lemma {:induction false} OtherTermsAreForgotten(s: Registry, id: string, snap: OrderSnapshot)
    requires Refined(s, true) && s.log.enabled && id in s.orders && s.orders[id].clientOrderId == id
    requires !AnswerShowsAgain(s, id, Ok(Some(snap)))
    requires var s' := ResolveFound(s, id, snap);
             s'.stats.logWriteFailures == 0 && s'.orders[id].state != Rejected
    ensures var s' := ResolveFound(s, id, snap);
            !Agrees(Replay(s'.log.events), s'.orders, true)
  {
    hide Observe, ApplyLogEvent, ResolvedRecord, NoteExchangeId, Knows, SameTrade;
    var r, s' := s.orders[id], ResolveFound(s, id, snap);
    var m, r' := Replay(s.log.events), s'.orders[id];
    SnapshotMovesTerms(r, snap);
    ChangesBringBack(m, r');
    assert s'.log.events == s.log.events || s'.log.events == s.log.events + [StateEvent(r')];
    assert (s.log.events + [StateEvent(r')])[..|s.log.events|] == s.log.events;
    assert id in Replay(s'.log.events) && SameTerms(Replay(s'.log.events)[id], m[id]);
  }

  /** No step turns the log off or takes an event back. */
  lemma {:induction false} StepOnlyAppends(cfg: Config, s: Sys, step: Step)
    ensures LogGrows(s.reg.log, Next(cfg, s, step).reg.log)
  {
  }

  lemma {:induction false} LogStaysOn(cfg: Config, s: Sys, steps: seq<Step>)
    ensures Run(cfg, s, steps).reg.log.enabled == s.reg.log.enabled
    decreases |steps|
  {
    if steps != [] {
      StepOnlyAppends(cfg, s, steps[0]);
      LogStaysOn(cfg, Next(cfg, s, steps[0]), steps[1..]);
    }
  }
}
