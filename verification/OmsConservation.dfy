/** No execution report is lost or counted twice. */
module OmsConservation {
  import opened Wrappers
  import opened OrderLifecycle
  import opened OrderRecords
  import opened OmsRegistry
  import opened OmsMachine

  /** How many reports are buffered in all. */
  ghost function TotalBuffered(raced: map<string, seq<ExecutionReport>>): nat {
    if raced == map[] then 0
    else
      var id :| id in raced;
      |raced[id]| + TotalBuffered(raced - {id})
  }

  lemma {:induction false} TotalSplits(raced: map<string, seq<ExecutionReport>>, id: string)
    requires id in raced
    ensures TotalBuffered(raced) == |raced[id]| + TotalBuffered(raced - {id})
    decreases |raced|
  {
    var k :| k in raced && TotalBuffered(raced) == |raced[k]| + TotalBuffered(raced - {k});
    if k != id {
      TotalSplits(raced - {k}, id);
      TotalSplits(raced - {id}, k);
      assert raced - {k} - {id} == raced - {id} - {k};
    }
  }

  lemma {:induction false} TotalAfterUpdate(raced: map<string, seq<ExecutionReport>>, id: string,
                                            reports: seq<ExecutionReport>)
    ensures TotalBuffered(raced[id := reports]) == |reports| + TotalBuffered(raced - {id})
    ensures id !in raced ==> raced - {id} == raced
  {
    TotalSplits(raced[id := reports], id);
    assert raced[id := reports] - {id} == raced - {id};
  }

  function Counted(stats: Stats): nat {
    stats.unknown + stats.applied + stats.stale
  }

  /** Delivered = unknown + applied + stale + buffered + dropped. */
  ghost predicate Balanced(s: Sys) {
    s.delivered == Counted(s.reg.stats) + TotalBuffered(s.reg.raced) + s.dropped
  }

  lemma {:induction false} AppliedReportCounts(s: Registry, id: string, report: ExecutionReport)
    requires id in s.orders
    ensures Counted(ApplyReport(s, id, report).stats) == Counted(s.stats) + 1
  {
    hide Arbitrate, Learned, Adopts;
  }

  lemma {:induction false} AppliedReportsCount(s: Registry, id: string, reports: seq<ExecutionReport>)
    requires id in s.orders
    ensures Counted(ApplyReports(s, id, reports).stats) == Counted(s.stats) + |reports|
    decreases |reports|
  {
    if reports != [] {
      AppliedReportCounts(s, id, reports[0]);
      AppliedReportsCount(ApplyReport(s, id, reports[0]), id, reports[1..]);
    }
  }

  lemma {:induction false} PlaceCounts(s: Registry, id: string, answer: Result<string>)
    requires id in s.orders
    ensures Counted(PlaceFinish(s, id, answer).0.stats) + DroppedByPlace(s, id, answer)
            == Counted(s.stats) + |RacedFor(s, id)|
  {
    var raced, s0 := RacedFor(s, id), Drained(s, id);
    match answer
    case Err(e) => if e.code == "transport" { AppliedReportsCount(s0, id, raced); }
    case Ok(x) =>
      var r := AckedPlace(s.orders[id], x);
      AppliedReportsCount(Logged(Put(s0, id, r), PlaceAcceptedEvent(r)), id, raced);
  }

  lemma {:induction false} AmendCounts(s: Registry, id: string, price: string, quantity: string, answer: Result<string>)
    requires id in s.orders
    ensures Counted(AmendFinish(s, id, price, quantity, answer).0.stats) + DroppedByAmend(s, id, answer)
         == Counted(s.stats) + |RacedFor(s, id)|
  {
    var raced, s0 := RacedFor(s, id), Drained(s, id);
    match answer
    case Err(e) =>
      var newest := NewestUnknown(s.orders[id].legs, raced);
      var s1 := if s.orders[id].legs != [] && newest != "" then NoteDiscovery(s0, id, newest) else s0;
      AppliedReportsCount(Put(s1, id, AdoptNewest(s.orders[id], raced)), id, raced);
    case Ok(x) =>
      var r := AmendedRecord(s.orders[id], price, quantity, x);
      AppliedReportsCount(Logged(Put(s0, id, r), AmendedEvent(r)), id, raced);
  }

  lemma {:induction false} ListAllCounts(s: Registry, venue: string, snaps: seq<OrderSnapshot>)
    ensures Counted(ListAll(s, venue, snaps).stats) == Counted(s.stats) && ListAll(s, venue, snaps).raced == s.raced
    decreases |snaps|
  {
    if snaps != [] {
      ListAllCounts(ListOne(s, venue, snaps[0]), venue, snaps[1..]);
    }
  }

  lemma {:induction false} FinishesBalance(s: Sys, step: Step)
    requires Inv(s) && Balanced(s) && (step.FinishPlace? || step.FinishAmend?)
    ensures Balanced(if step.FinishPlace? then NextFinishPlace(s, step) else NextFinishAmend(s, step))
  {
    if step.t in s.calls {
      var c := s.calls[step.t];
      assert CallFits(s, step.t, c);
      if !c.CancelCall? {
        TotalSplits(s.reg.raced, CallId(c));
        if c.PlaceCall? && step.FinishPlace? {
          PlaceOutcomeIsGood(s.reg, CallId(c), step.answer);
          PlaceCounts(s.reg, CallId(c), step.answer);
        } else if c.AmendCall? && step.FinishAmend? {
          AmendOutcomeIsGood(s.reg, c.amendId, c.price, c.quantity, step.answer);
          AmendCounts(s.reg, c.amendId, c.price, c.quantity, step.answer);
        }
      }
    }
  }

  lemma {:induction false} ReportBalances(s: Sys, step: Step)
    requires Balanced(s) && step.Report?
    ensures Balanced(NextReport(s, step))
  {
    hide ApplyReport, TotalBuffered;
    var id := step.report.clientOrderId;
    if id in s.reg.raced {
      TotalSplits(s.reg.raced, id);
      TotalAfterUpdate(s.reg.raced, id, s.reg.raced[id] + [step.report]);
    } else if id in s.reg.orders {
      AppliedReportCounts(s.reg, id, step.report);
    }
  }

  lemma {:induction false} StagePlaceBalances(cfg: Config, s: Sys, step: Step)
    requires Inv(s) && Balanced(s) && step.StagePlace?
    ensures Balanced(NextStagePlace(cfg, s, step))
  {
    var id := step.req.clientOrderId;
    assert id in s.holder ==> CallFits(s, s.holder[id], s.calls[s.holder[id]]);
    TotalAfterUpdate(s.reg.raced, id, []);
  }

  lemma {:induction false} StageAmendBalances(cfg: Config, s: Sys, step: Step)
    requires Balanced(s) && step.StageAmend?
    ensures Balanced(NextStageAmend(cfg, s, step))
  {
    TotalAfterUpdate(s.reg.raced, step.id, []);
  }

  lemma {:induction false} OthersBalance(cfg: Config, s: Sys, step: Step)
    requires Balanced(s)
             && (OfReconcile(step) || step.FinishCancel? || step.StageCancel? || step.SendPlace? || step.DrainNotes?)
    ensures Balanced(Next(cfg, s, step))
  {
    hide OrderRecords.Observe, ListAll, RejectedRecord, LearnedFromSnapshot, CancelStage,
         CanceledRecord, Worklist, ConclusivelyAbsent, TotalBuffered;
    if step.ListOpenOrders? {
      ListAllCounts(s.reg, step.venue, step.snaps);
    }
  }

  lemma {:induction false} StepBalances(cfg: Config, s: Sys, step: Step)
    requires Inv(s) && Balanced(s)
    ensures Balanced(Next(cfg, s, step))
  {
    if step.FinishPlace? || step.FinishAmend? {
      FinishesBalance(s, step);
    } else if step.Report? {
      ReportBalances(s, step);
    } else if step.StagePlace? {
      StagePlaceBalances(cfg, s, step);
    } else if step.StageAmend? {
      StageAmendBalances(cfg, s, step);
    } else {
      OthersBalance(cfg, s, step);
    }
  }

  /** Over whole runs every delivered report is unknown, applied, stale, still buffered
      or dropped. */
  lemma {:induction false} ReportsAreConserved(cfg: Config, s: Sys, steps: seq<Step>)
    requires Inv(s) && Balanced(s)
    ensures Balanced(Run(cfg, s, steps))
    decreases |steps|
  {
    if steps != [] {
      StepKeepsInv(cfg, s, steps[0]);
      StepBalances(cfg, s, steps[0]);
      ReportsAreConserved(cfg, Next(cfg, s, steps[0]), steps[1..]);
    }
  }

  /** The step ends a place in an error other than transport, or an ack by a failed append, over a
      buffer that holds reports. */
  predicate DropsReports(s: Sys, step: Step) {
    && (step.FinishPlace? || step.FinishAmend?) && step.t in s.calls
    && RacedFor(s.reg, CallId(s.calls[step.t])) != []
    && match s.calls[step.t]
       case PlaceCall(_, sent) =>
         step.FinishPlace? && sent && if step.answer.Ok? then !AppendSucceeds(s.reg.log)
         else step.answer.error.code != "transport"
       case AmendCall(_, _, _) => step.FinishAmend? && step.answer.Ok? && !AppendSucceeds(s.reg.log)
       case CancelCall(_) => false
  }

  predicate RunDropsReports(cfg: Config, s: Sys, steps: seq<Step>)
    decreases |steps|
  {
    steps != [] && (DropsReports(s, steps[0]) || RunDropsReports(cfg, Next(cfg, s, steps[0]), steps[1..]))
  }

  lemma {:induction false} StepDropsIff(cfg: Config, s: Sys, step: Step)
    ensures Next(cfg, s, step).dropped >= s.dropped
    ensures Next(cfg, s, step).dropped == s.dropped <==> !DropsReports(s, step)
  {
  }

  lemma {:induction false} RunDropsIff(cfg: Config, s: Sys, steps: seq<Step>)
    ensures Run(cfg, s, steps).dropped >= s.dropped
    ensures Run(cfg, s, steps).dropped == s.dropped <==> !RunDropsReports(cfg, s, steps)
    decreases |steps|
  {
    hide Next, DropsReports;
    if steps != [] {
      StepDropsIff(cfg, s, steps[0]);
      RunDropsIff(cfg, Next(cfg, s, steps[0]), steps[1..]);
    }
  }

  /** Conservation in every reachable state of a gateway started on an empty log, and nothing is dropped
      if and only if no place ended in an error other than transport, and no append after an ack failed,
      over buffered reports. */
  lemma {:induction false} EveryReportIsAccountedFor(cfg: Config, logging: bool, disk: seq<bool>, steps: seq<Step>)
    ensures var s := Run(cfg, Init(logging, disk), steps);
            var kept := s.reg.stats.unknown + s.reg.stats.applied + s.reg.stats.stale + TotalBuffered(s.reg.raced);
            s.delivered == kept + s.dropped
            && (s.delivered == kept <==> !RunDropsReports(cfg, Init(logging, disk), steps))
  {
    hide Run, RunDropsReports;
    ReportsAreConserved(cfg, Init(logging, disk), steps);
    RunDropsIff(cfg, Init(logging, disk), steps);
  }
}
