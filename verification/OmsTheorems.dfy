/** What every interleaving of place, cancel, amend, execution reports and reconciliation keeps. */
module OmsTheorems {
  import opened Wrappers
  import opened OrderLifecycle
  import opened OrderRecords
  import opened OmsRegistry
  import opened OmsMachine

  ghost predicate AllChained(orders: map<string, OrderRecord>) {
    forall id :: id in orders ==> Chained(orders[id])
  }

  /** Only an adopted order can carry a fill that does not parse. */
  ghost predicate PlacedFillsParse(orders: map<string, OrderRecord>) {
    forall id :: id in orders ==> orders[id].adopted || FillOf(orders[id].filledQuantity).Some?
  }

  /** In every state reached in one process from an empty log, the invariant holds, every leg table
      is a chain 1..N ending in the current id, the fill of every placed order parses, and every
      buffered report is for the order it is buffered under. */
  lemma {:induction false} ReachableInv(cfg: Config, logging: bool, disk: seq<bool>, steps: seq<Step>)
    ensures var s := Run(cfg, Init(logging, disk), steps);
            Inv(s) && AllChained(s.reg.orders) && PlacedFillsParse(s.reg.orders) && Addressed(s.reg.raced)
  {
    RunsOnlyMoveForward(cfg, Init(logging, disk), steps);
    RunKeepsAddressed(cfg, Init(logging, disk), steps);
    var orders := Run(cfg, Init(logging, disk), steps).reg.orders;
    assert forall id :: id in orders ==> Sound(orders[id]);
  }

  // ---- open-place isolation ----

  /** In every reachable state an order has a report buffer exactly when one place or amend call is
      open for it, never two; and while a place is open its record is exactly as it was staged:
      pending, unfilled, without venue id or legs. */
  lemma {:induction false} OpenPlaceIsolation(cfg: Config, logging: bool, disk: seq<bool>, steps: seq<Step>)
    ensures var s := Run(cfg, Init(logging, disk), steps);
            && (forall id :: id in s.reg.raced <==> exists t :: t in s.calls && Mutates(s.calls[t], id))
            && (forall t, u ::
                  t in s.calls && u in s.calls && !s.calls[t].CancelCall? && Mutates(s.calls[u], CallId(s.calls[t]))
                  ==> t == u)
            && (forall t :: t in s.calls && s.calls[t].PlaceCall? ==>
                  && CallId(s.calls[t]) in s.reg.orders
                  && s.reg.orders[CallId(s.calls[t])] == s.calls[t].staged
                  && AsStaged(s.calls[t].staged))
  {
    ReachableInv(cfg, logging, disk, steps);
    var s := Run(cfg, Init(logging, disk), steps);
    assert forall t :: t in s.calls ==> CallFits(s, t, s.calls[t]);
    forall id | id in s.reg.raced ensures exists t :: t in s.calls && Mutates(s.calls[t], id) {
      assert id in s.holder;
    }
  }

  // ---- idempotent places ----

  /** Once an id is known, no later place of it sends or records anything; if it was rejected, it
      answers with that same rejection for ever. */
  lemma {:induction false} KnownIdsNeverResend(cfg: Config, s: Sys, steps: seq<Step>, req: OrderRequest, venue: string,
                                               verdict: Option<Error>)
    requires Inv(s) && req.clientOrderId in s.reg.orders
    ensures var (reg, decision) := PlaceStage(Run(cfg, s, steps).reg, cfg, req, venue, verdict);
            var known := s.reg.orders[req.clientOrderId];
            && reg == Run(cfg, s, steps).reg && !decision.Send?
            && (known.rejection.Some? ==> decision == Refused(known.rejection.value))
            && (decision.Replayed? ==> Later(known, decision.record))
  {
    RunsOnlyMoveForward(cfg, s, steps);
    assert Later(s.reg.orders[req.clientOrderId], Run(cfg, s, steps).reg.orders[req.clientOrderId]);
  }

  // ---- what an acknowledged call means ----

  /** An acknowledged place is on record under the venue's id, as its first leg, with the terms it was
      staged with, no longer pending, whatever reports raced the ack; and that record is the answer. */
  lemma {:induction false} PlacedMeansRecorded(s: Registry, id: string, x: string)
    requires id in s.orders && AsStaged(s.orders[id]) && x != "" && AppendSucceeds(s.log)
    ensures var (s', result) := PlaceFinish(s, id, Ok(x));
            && id in s'.orders && result == Ok(s'.orders[id])
            && [OrderLeg(1, x)] <= s'.orders[id].legs && s'.orders[id].state != Pending
            && s'.orders[id].price == s.orders[id].price && s'.orders[id].quantity == s.orders[id].quantity
  {
    var acked, raced := AckedPlace(s.orders[id], x), RacedFor(s, id);
    ArbitrateAllIsLater(acked, raced);
    ReportsKeepTerms(acked, raced);
    assert acked.legs == [OrderLeg(1, x)];
  }

  /** An acknowledged amend takes effect: the new price and quantity, and the next leg version under
      the id the venue answered, even if it is the old one; the answer is that record. */
  lemma {:induction false} AmendedMeansRecorded(s: Registry, id: string, price: string, quantity: string, x: string)
    requires id in s.orders && x != "" && AppendSucceeds(s.log)
    ensures var (s', result) := AmendFinish(s, id, price, quantity, Ok(x));
            && id in s'.orders && result == Ok(s'.orders[id])
            && s'.orders[id].price == price && s'.orders[id].quantity == quantity
            && s.orders[id].legs + [OrderLeg(|s.orders[id].legs| + 1, x)] <= s'.orders[id].legs
  {
    var amended, raced := AmendedRecord(s.orders[id], price, quantity, x), RacedFor(s, id);
    ArbitrateAllIsLater(amended, raced);
    ReportsKeepTerms(amended, raced);
  }

  /** An acknowledged cancel ends a working order, and leaves one a fill or a rejection ended first as
      it ended. */
  lemma {:induction false} CanceledMeansOver(s: Registry, id: string, x: string)
    requires id in s.orders && s.orders[id].state != Pending
    ensures var (s', result) := CancelFinish(s, id, Ok(x));
            && id in s'.orders && result == Ok(s'.orders[id])
            && s'.orders[id].state == if IsTerminal(s.orders[id].state) then s.orders[id].state else Canceled
  {
  }

  // ---- late duplicates ----

  /** A report processed directly while its order was not pending can arrive again at any later
      point of the run: it changes no record, logs nothing and only counts as stale, exactly unless
      its id was superseded the first time, has been made current since, and its state is a step the
      order can still take. */
  lemma {:induction false} LateDuplicatesAreStale(cfg: Config, s: Sys, report: ExecutionReport, after: seq<Step>)
    requires Inv(s) && AllChained(s.reg.orders)
    requires var id := report.clientOrderId;
             id in s.reg.orders && id !in s.reg.raced && s.reg.orders[id].state != Pending
    ensures var later := Run(cfg, NextReport(s, Report(report)), after).reg;
            var id := report.clientOrderId;
            && id in later.orders
            && (id !in later.raced
                ==> (StaleOnly(later, report) <==> !Revived(s.reg.orders[id], later.orders[id], report)))
  {
    var s1, id := NextReport(s, Report(report)), report.clientOrderId;
    ReportKeepsInv(s, Report(report));
    LaterInRun(cfg, s1, after, id);
    var later := Run(cfg, s1, after).reg;
    if id !in later.raced {
      StaleAgain(s.reg, s1.reg, later, report);
    }
  }

  lemma {:induction false} LaterInRun(cfg: Config, s: Sys, steps: seq<Step>, id: string)
    requires Inv(s) && id in s.reg.orders
    ensures id in Run(cfg, s, steps).reg.orders && Later(s.reg.orders[id], Run(cfg, s, steps).reg.orders[id])
  {
    RunsOnlyMoveForward(cfg, s, steps);
  }

  /** Delivering the report would count it as stale and change nothing else. */
  predicate StaleOnly(s: Registry, report: ExecutionReport) {
    Deliver(s, report) == s.(stats := s.stats.(stale := s.stats.stale + 1))
  }

  lemma {:induction false} StaleAgain(s: Registry, s1: Registry, later: Registry, report: ExecutionReport)
    requires var id := report.clientOrderId;
             && id in s.orders && id !in s.raced && s.orders[id].state != Pending && Chained(s.orders[id])
             && s1 == Deliver(s, report)
             && id in later.orders && id !in later.raced && Later(s1.orders[id], later.orders[id])
    ensures StaleOnly(later, report)
            <==> !Revived(s.orders[report.clientOrderId], later.orders[report.clientOrderId], report)
  {
    var id := report.clientOrderId;
    LateDuplicateChangesNothing(s.orders[id], report, later.orders[id]);
    StaleIffUnchanged(later, report);
  }

  // ---- late duplicates of buffered reports ----

  /** Every buffered report is for the order it is buffered under. */
  ghost predicate Addressed(raced: map<string, seq<ExecutionReport>>) {
    forall id :: id in raced ==> AllFor(raced[id], id)
  }

  lemma {:induction false} FinishKeepsAddressed(cfg: Config, s: Sys, step: Step)
    requires Inv(s) && Addressed(s.reg.raced) && (step.FinishPlace? || step.FinishAmend? || step.FinishCancel?)
    ensures Addressed(Next(cfg, s, step).reg.raced)
  {
    hide GoodStep;
    if step.t in s.calls {
      var c := s.calls[step.t];
      assert CallFits(s, step.t, c) && WellFormedRecord(CallId(c), s.reg.orders[CallId(c)]);
      match c
      case PlaceCall(_, _) => if step.FinishPlace? { PlaceOutcomeIsGood(s.reg, CallId(c), step.answer); }
      case AmendCall(id, price, quantity) =>
        if step.FinishAmend? { AmendOutcomeIsGood(s.reg, id, price, quantity, step.answer); }
      case CancelCall(_) =>
    }
  }

  lemma {:induction false} FeedKeepsAddressed(cfg: Config, s: Sys, step: Step)
    requires Inv(s) && Addressed(s.reg.raced) && (OfReconcile(step) || step.Report? || step.DrainNotes?)
    ensures Addressed(Next(cfg, s, step).reg.raced)
  {
    hide Progress, OrderRecords.Arbitrate;
    if step.ListOpenOrders? {
      ListAllSparesOpen(s.reg, step.venue, step.snaps);
    }
  }

  lemma {:induction false} StageKeepsAddressed(cfg: Config, s: Sys, step: Step)
    requires Addressed(s.reg.raced) && (step.StagePlace? || step.SendPlace? || step.StageCancel? || step.StageAmend?)
    ensures Addressed(Next(cfg, s, step).reg.raced)
  {
    hide OmsRegistry.StagedRecord;
  }

  lemma {:induction false} StepKeepsAddressed(cfg: Config, s: Sys, step: Step)
    requires Inv(s) && Addressed(s.reg.raced)
    ensures Addressed(Next(cfg, s, step).reg.raced)
  {
    hide Addressed, Inv, Next;
    if step.FinishPlace? || step.FinishAmend? || step.FinishCancel? {
      FinishKeepsAddressed(cfg, s, step);
    } else if OfReconcile(step) || step.Report? || step.DrainNotes? {
      FeedKeepsAddressed(cfg, s, step);
    } else {
      StageKeepsAddressed(cfg, s, step);
    }
  }

  lemma {:induction false} RunKeepsAddressed(cfg: Config, s: Sys, steps: seq<Step>)
    requires Inv(s) && Addressed(s.reg.raced)
    ensures Addressed(Run(cfg, s, steps).reg.raced)
    decreases |steps|
  {
    hide Addressed, Inv, Next;
    if steps != [] {
      StepKeepsInv(cfg, s, steps[0]);
      StepKeepsAddressed(cfg, s, steps[0]);
      RunKeepsAddressed(cfg, Next(cfg, s, steps[0]), steps[1..]);
    }
  }

  /** The record a drained batch is applied to, once the venue has answered; none when the batch is
      dropped. */
  function DrainBase(s: Registry, c: Call, answer: Result<string>): Option<OrderRecord>
    requires CallId(c) in s.orders
  {
    var r := s.orders[CallId(c)];
    match c
    case PlaceCall(_, _) =>
      if answer.Ok? then (if AppendSucceeds(s.log) then Some(AckedPlace(r, answer.value)) else None)
      else if answer.error.code == "transport" then Some(r)
      else None
    case AmendCall(id, price, quantity) =>
      if answer.Err? then Some(AdoptNewest(r, RacedFor(s, id)))
      else if AppendSucceeds(s.log) then Some(AmendedRecord(r, price, quantity, answer.value))
      else None
    case CancelCall(_) => None
  }

  /** The step ends the call its thread has open. */
  predicate Ends(s: Sys, step: Step) {
    && (step.FinishPlace? || step.FinishAmend?) && step.t in s.calls
    && (if step.FinishPlace? then s.calls[step.t].PlaceCall? && s.calls[step.t].sent else s.calls[step.t].AmendCall?)
    && CallId(s.calls[step.t]) in s.reg.orders
  }

  lemma {:induction false} ArbitrateAllSplits(r: OrderRecord, a: seq<ExecutionReport>, b: seq<ExecutionReport>)
    ensures ArbitrateAll(r, a + b) == ArbitrateAll(ArbitrateAll(r, a), b)
    decreases |a|
  {
    hide Arbitrate;
    if a == [] {
      assert a + b == b;
    } else {
      assert (a + b)[1..] == a[1..] + b;
      ArbitrateAllSplits(Arbitrate(r, a[0]), a[1..], b);
    }
  }

  /** A report applied out of a drained batch to a record that was not pending by then is a duplicate at
      any later record, in exactly the same sense as one processed directly. */
  lemma {:induction false} DrainedDuplicateChangesNothing(base: OrderRecord, raced: seq<ExecutionReport>, i: nat,
                                                          later: OrderRecord)
    requires Chained(base) && i < |raced| && ArbitrateAll(base, raced[..i]).state != Pending
    requires Later(ArbitrateAll(base, raced), later)
    ensures Arbitrate(later, raced[i]) == later <==> !Revived(ArbitrateAll(base, raced[..i]), later, raced[i])
    ensures Learned(later, raced[i]) == later && !Adopts(later, raced[i])
  {
    hide Arbitrate, Learned, Adopts, Revived;
    var r, rest := ArbitrateAll(base, raced[..i]), raced[i + 1..];
    ArbitrateAllIsLater(base, raced[..i]);
    ArbitrateAllSplits(base, raced[..i], [raced[i]] + rest);
    assert raced[..i] + ([raced[i]] + rest) == raced;
    assert ([raced[i]] + rest)[1..] == rest;
    ArbitrateAllIsLater(Arbitrate(r, raced[i]), rest);
    LaterIsTransitive(Arbitrate(r, raced[i]), ArbitrateAll(base, raced), later);
    LateDuplicateChangesNothing(r, raced[i], later);
  }

  lemma {:induction false} BaseIsChained(s: Registry, c: Call, answer: Result<string>)
    requires CallId(c) in s.orders && Chained(s.orders[CallId(c)]) && DrainBase(s, c, answer).Some?
    ensures Chained(DrainBase(s, c, answer).value)
  {
  }

  lemma {:induction false} DrainIsTheBatch(cfg: Config, s: Sys, step: Step)
    requires Ends(s, step) && DrainBase(s.reg, s.calls[step.t], step.answer).Some?
    ensures var id := CallId(s.calls[step.t]);
            && id in Next(cfg, s, step).reg.orders
            && Next(cfg, s, step).reg.orders[id]
            == ArbitrateAll(DrainBase(s.reg, s.calls[step.t], step.answer).value, RacedFor(s.reg, id))
  {
    hide OrderRecords.ArbitrateAll;
  }

  lemma {:induction false} StaleIffUnchanged(s: Registry, report: ExecutionReport)
    requires report.clientOrderId in s.orders && report.clientOrderId !in s.raced
    requires Learned(s.orders[report.clientOrderId], report) == s.orders[report.clientOrderId]
             && !Adopts(s.orders[report.clientOrderId], report)
    ensures StaleOnly(s, report)
            <==> Arbitrate(s.orders[report.clientOrderId], report) == s.orders[report.clientOrderId]
  {
    var id := report.clientOrderId;
    hide Arbitrate, Learned, Adopts;
    if Arbitrate(s.orders[id], report) == s.orders[id] {
      assert s.orders[id := s.orders[id]] == s.orders;
    } else {
      assert Deliver(s, report).orders[id] != s.orders[id];
    }
  }

  /** The same for reports that were buffered: one applied when the venue answered, to a record no
      longer pending by then, is stale at any later point of the run, exactly unless it is revived. */
  lemma {:induction false} DrainedDuplicatesAreStale(cfg: Config, s: Sys, step: Step, after: seq<Step>, i: nat)
    requires Inv(s) && AllChained(s.reg.orders) && Addressed(s.reg.raced) && Ends(s, step)
    ensures var id := CallId(s.calls[step.t]);
            var base, raced := DrainBase(s.reg, s.calls[step.t], step.answer), RacedFor(s.reg, id);
            var later := Run(cfg, Next(cfg, s, step), after).reg;
            id in later.orders
            && (base.Some? && i < |raced| && ArbitrateAll(base.value, raced[..i]).state != Pending
                && id !in later.raced ==>
                  (StaleOnly(later, raced[i])
                   <==> !Revived(ArbitrateAll(base.value, raced[..i]), later.orders[id], raced[i])))
  {
    hide StaleOnly, Revived, OrderRecords.ArbitrateAll, DrainBase, Inv, Progress;
    var id := CallId(s.calls[step.t]);
    var s1 := Next(cfg, s, step);
    StepKeepsInv(cfg, s, step);
    KnownStaysKnown(s.reg.orders, s1.reg.orders, id);
    LaterInRun(cfg, s1, after, id);
    var base, raced, later := DrainBase(s.reg, s.calls[step.t], step.answer), RacedFor(s.reg, id),
                              Run(cfg, s1, after).reg;
    if base.Some? && i < |raced| && ArbitrateAll(base.value, raced[..i]).state != Pending && id !in later.raced {
      BaseIsChained(s.reg, s.calls[step.t], step.answer);
      DrainIsTheBatch(cfg, s, step);
      DrainedDuplicateChangesNothing(base.value, raced, i, later.orders[id]);
      assert raced[i].clientOrderId == id;
      StaleIffUnchanged(later, raced[i]);
    }
  }

  lemma {:induction false} KnownStaysKnown(before: map<string, OrderRecord>, after: map<string, OrderRecord>,
                                           id: string)
    requires Progress(before, after) && id in before
    ensures id in after
  {
  }

  // ---- superseded legs ----

  /** The fill of `r'` is the maximum of that of `r` and of the reports; a fill that does not parse
      stays what it was. */
  predicate MarkIsMaximum(r: OrderRecord, r': OrderRecord, reports: seq<ExecutionReport>) {
    match FillOf(r.filledQuantity)
    case None => r'.filledQuantity == r.filledQuantity
    case Some(f) => FillOf(r'.filledQuantity) == Some(HighWater(f, reports))
  }

  /** After an acked amend whose id is new, whatever reports follow (the buffered ones and any
      later), the legs before it contribute fills only: lifecycle as if their reports had not come,
      fill the maximum over all of them. */
  lemma {:induction false} AmendedLegsDriveAlone(r: OrderRecord, price: string, quantity: string, id: string,
                                                 reports: seq<ExecutionReport>)
    requires Chained(r) && id != "" && !Knows(r.legs, id)
    ensures var r1 := AmendedRecord(r, price, quantity, id);
            && SameLifecycle(ArbitrateAll(r1, reports), ArbitrateAll(r1, Without(reports, r.legs)))
            && MarkIsMaximum(r, ArbitrateAll(r1, reports), reports)
  {
    var r1 := AmendedRecord(r, price, quantity, id);
    OldLegsNeverDrive(r.legs, r1, r1, reports);
    EveryFillCounts(r1, reports);
  }

  /** The same after a lost amend ack, for the legs before the adopted one. */
  lemma {:induction false} AdoptedLegDrivesAlone(r: OrderRecord, raced: seq<ExecutionReport>,
                                                 later: seq<ExecutionReport>)
    requires Chained(r) && r.legs != [] && NewestUnknown(r.legs, raced) != ""
    ensures var r1 := AdoptNewest(r, raced);
            && SameLifecycle(ArbitrateAll(r1, raced + later), ArbitrateAll(r1, Without(raced + later, r.legs)))
            && MarkIsMaximum(r, ArbitrateAll(r1, raced + later), raced + later)
  {
    NewestUnknownIsUnknown(r.legs, raced);
    var r1 := AdoptNewest(r, raced);
    OldLegsNeverDrive(r.legs, r1, r1, raced + later);
    EveryFillCounts(r1, raced + later);
  }

  // ---- buffering ----

  function DeliverAll(s: Registry, reports: seq<ExecutionReport>): Registry
    decreases |reports|
  {
    if reports == [] then s else DeliverAll(Deliver(s, reports[0]), reports[1..])
  }

  predicate AllFor(reports: seq<ExecutionReport>, id: string) {
    forall i :: 0 <= i < |reports| ==> reports[i].clientOrderId == id
  }

  lemma {:induction false} DirectDeliveries(s: Registry, id: string, reports: seq<ExecutionReport>)
    requires id in s.orders && id !in s.raced && AllFor(reports, id)
    ensures DeliverAll(s, reports) == ApplyReports(s, id, reports)
    decreases |reports|
  {
    if reports != [] {
      assert AllFor(reports[1..], id);
      DirectDeliveries(ApplyReport(s, id, reports[0]), id, reports[1..]);
    }
  }

  lemma {:induction false} BufferedDeliveries(s: Registry, id: string, reports: seq<ExecutionReport>)
    requires id in s.raced && AllFor(reports, id)
    ensures DeliverAll(s, reports)
         == s.(raced := s.raced[id := s.raced[id] + reports],
               stats := s.stats.(buffered := s.stats.buffered + |reports|))
    decreases |reports|
  {
    if reports == [] {
      assert s.raced[id] + reports == s.raced[id];
      assert s.raced[id := s.raced[id]] == s.raced;
    } else {
      assert AllFor(reports[1..], id);
      var s1 := Deliver(s, reports[0]);
      BufferedDeliveries(s1, id, reports[1..]);
      assert (s.raced[id] + [reports[0]]) + reports[1..] == s.raced[id] + reports;
      assert s1.raced[id := s.raced[id] + reports] == s.raced[id := s.raced[id] + reports];
    }
  }

  /** Reports racing a place or amend that is acked have the effect they would have had arriving, in
      the same order, just after the ack; only the buffered counter tells. */
  lemma {:induction false} BufferingIsInvisible(s: Registry, id: string, x: string, price: string, quantity: string,
                                                reports: seq<ExecutionReport>)
    requires id in s.orders && id in s.raced && s.raced[id] == [] && AllFor(reports, id) && AppendSucceeds(s.log)
    ensures var counted := s.(stats := s.stats.(buffered := s.stats.buffered + |reports|));
            && PlaceFinish(DeliverAll(s, reports), id, Ok(x)).0
               == DeliverAll(PlaceFinish(counted, id, Ok(x)).0, reports)
            && AmendFinish(DeliverAll(s, reports), id, price, quantity, Ok(x)).0
            == DeliverAll(AmendFinish(counted, id, price, quantity, Ok(x)).0, reports)
  {
    var counted := s.(stats := s.stats.(buffered := s.stats.buffered + |reports|));
    BufferedDeliveries(s, id, reports);
    assert [] + reports == reports;
    assert Drained(DeliverAll(s, reports), id) == Drained(counted, id) by {
      assert s.raced[id := reports] - {id} == s.raced - {id};
    }
    DirectDeliveries(PlaceFinish(counted, id, Ok(x)).0, id, reports);
    DirectDeliveries(AmendFinish(counted, id, price, quantity, Ok(x)).0, id, reports);
  }
}
