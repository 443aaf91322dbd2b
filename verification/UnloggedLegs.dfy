/** Which amends break a chain across restarts: those acknowledged while the order has a leg that the
    log does not bring back. */
module UnloggedLegs {
  import opened Wrappers
  import opened OrderLifecycle
  import opened OrderRecords
  import opened OmsRegistry
  import opened OmsMachine
  import opened OmsTheorems
  import opened OmsReplay
  import opened OmsCrash
  import opened EventLogs
  import opened LegReplay

  // ---- what is logged is no more than what is known ----

  /** The event is about an order there is, and names no leg it does not have. */
  predicate Tells(e: Event, live: map<string, OrderRecord>) {
    && e.id in live
    && match e
       case PlaceAccepted(id, _, x, _) => x == "" || live[id].legs != []
       case Adopted(id, _, x, _, _, _, _) => x == "" || live[id].legs != []
       case Amended(id, _, _, _, x, version) => x != "" && version <= |live[id].legs|
       case StateChanged(id, _, _, _, x, _) => x == "" || live[id].legs != []
       case _ => true
  }

  lemma {:induction false} RecordTells(live: map<string, OrderRecord>, r: OrderRecord)
    requires Chained(r) && r.clientOrderId in live && |r.legs| <= |live[r.clientOrderId].legs|
    ensures Tells(StateEvent(r), live) && Tells(RejectedEvent(r), live) && Tells(PlaceSubmittedEvent(r), live)
    ensures Tells(PlaceAcceptedEvent(r), live) && Tells(AdoptedEvent(r), live)
    ensures r.legs != [] ==> Tells(AmendedEvent(r), live)
  {
  }

  /** Everything appended between the two tells of the orders there are in the end. */
  ghost predicate Told(s: Registry, s': Registry) {
    forall i :: |s.log.events| <= i < |s'.log.events| ==> Tells(s'.log.events[i], s'.orders)
  }

  lemma {:induction false} LoggedTold(s: Registry, before: Registry, e: Event)
    requires Tells(e, s.orders) && before.log == s.log
    ensures Told(before, Logged(s, e))
  {
    hide Tells;
  }

  lemma {:induction false} ToldComposes(a: Registry, b: Registry, c: Registry)
    requires Told(a, b) && Told(b, c) && LogGrows(a.log, b.log) && LogGrows(b.log, c.log)
    requires Progress(b.orders, c.orders)
    ensures Told(a, c)
  {
    hide Sound;
    forall i | |a.log.events| <= i < |c.log.events| ensures Tells(c.log.events[i], c.orders) {
      if i < |b.log.events| {
        assert c.log.events[i] == b.log.events[i] && Tells(b.log.events[i], b.orders);
        assert Later(b.orders[b.log.events[i].id], c.orders[b.log.events[i].id]);
      }
    }
  }

  lemma {:induction false} ReportTold(s: Registry, id: string, report: ExecutionReport)
    requires id in s.orders && s.orders[id].clientOrderId == id && Chained(s.orders[id])
    ensures var s' := ApplyReport(s, id, report);
            && Told(s, s') && Progress(s.orders, s'.orders)
            && s'.orders[id].clientOrderId == id && Chained(s'.orders[id])
  {
    hide Tells, Chained, Progress, Told, Arbitrate, Learned;
    var r, r' := s.orders[id], Arbitrate(s.orders[id], report);
    ArbitrateIsLater(r, report);
    UpdateIsProgress(s.orders, id, r');
    RecordTells(s.orders[id := r'], r');
    var s1 := Put(if Adopts(r, report) then NoteDiscovery(s, id, report.exchangeOrderId) else s, id, r');
    LoggedTold(s1.(stats := s1.stats.(applied := s1.stats.applied + 1)), s, StateEvent(r'));
    NothingLogged(s, ApplyReport(s, id, report));
  }

  lemma {:induction false} NothingLogged(s: Registry, s': Registry)
    ensures s'.log == s.log ==> Told(s, s')
  {
  }

  lemma {:induction false} ReportsTold(s: Registry, id: string, reports: seq<ExecutionReport>)
    requires id in s.orders && s.orders[id].clientOrderId == id && Chained(s.orders[id])
    ensures Told(s, ApplyReports(s, id, reports)) && Progress(s.orders, ApplyReports(s, id, reports).orders)
    decreases |reports|
  {
    hide Tells, Chained, Progress, Told, ApplyReport, Later;
    if reports == [] {
      NothingLogged(s, s);
      NothingIsProgress(s.orders);
    } else {
      var s1, s' := ApplyReport(s, id, reports[0]), ApplyReports(s, id, reports);
      ReportTold(s, id, reports[0]);
      ReportsTold(s1, id, reports[1..]);
      ToldComposes(s, s1, s');
      ProgressIsTransitive(s.orders, s1.orders, s'.orders);
    }
  }

  /** A record logged, then a batch of reports. */
  lemma {:induction false} LoggedReportsTold(before: Registry, s: Registry, id: string, e: Event,
                                             reports: seq<ExecutionReport>)
    requires id in s.orders && s.orders[id].clientOrderId == id && Chained(s.orders[id])
    requires before.log == s.log && Tells(e, s.orders)
    ensures Told(before, Logged(s, e)) && Told(before, ApplyReports(Logged(s, e), id, reports))
  {
    hide Tells, Chained, Progress, Told, ApplyReports;
    LoggedTold(s, before, e);
    ReportsTold(Logged(s, e), id, reports);
    ToldComposes(before, Logged(s, e), ApplyReports(Logged(s, e), id, reports));
  }

  lemma {:induction false} PlaceStageTold(s: Registry, cfg: Config, req: OrderRequest, venue: string,
                                          verdict: Option<Error>)
    ensures Told(s, PlaceStage(s, cfg, req, venue, verdict).0)
  {
  }

  lemma {:induction false} AckedIsChained(r: OrderRecord, price: string, quantity: string, x: string)
    requires Chained(r)
    ensures Chained(AckedPlace(r, x)) && AckedPlace(r, x).clientOrderId == r.clientOrderId
    ensures Chained(AmendedRecord(r, price, quantity, x))
            && AmendedRecord(r, price, quantity, x).clientOrderId == r.clientOrderId
    ensures x != "" ==> AmendedRecord(r, price, quantity, x).legs != []
  {
    NoteIsLater(r, x);
  }

  lemma {:induction false} PlaceFinishTold(s: Registry, id: string, answer: Result<string>)
    requires id in s.orders && s.orders[id].clientOrderId == id && Chained(s.orders[id])
    ensures Told(s, PlaceFinish(s, id, answer).0)
  {
    hide Tells, Progress, Told, ApplyReports, AckedPlace;
    var raced, s0, r := RacedFor(s, id), Drained(s, id), s.orders[id];
    match answer
    case Err(e) =>
      ReportsTold(s0, id, raced);
      ToldFrom(s, s0, ApplyReports(s0, id, raced));
      var r1 := r.(state := Rejected, rejection := Some(e));
      RecordTells(s.orders[id := r1], r1);
      LoggedTold(Put(s0, id, r1), s, RejectedEvent(r1));
      NothingLogged(s, PlaceRejected(s0, id, e));
    case Ok(x) =>
      var r1 := AckedPlace(r, x);
      AckedIsChained(r, "", "", x);
      RecordTells(s.orders[id := r1], r1);
      LoggedReportsTold(s, Put(s0, id, r1), id, PlaceAcceptedEvent(r1), raced);
  }

  lemma {:induction false} ToldFrom(s: Registry, s0: Registry, s': Registry)
    requires s.log == s0.log
    ensures Told(s0, s') ==> Told(s, s')
  {
  }

  lemma {:induction false} AmendFinishTold(s: Registry, id: string, price: string, quantity: string,
                                           answer: Result<string>)
    requires id in s.orders && s.orders[id].clientOrderId == id && Chained(s.orders[id])
    requires answer.Ok? ==> answer.value != ""
    ensures Told(s, AmendFinish(s, id, price, quantity, answer).0)
  {
    hide Tells, Progress, Told, ApplyReports, AmendedRecord;
    var raced, s0, r := RacedFor(s, id), Drained(s, id), s.orders[id];
    match answer
    case Err(_) =>
      var newest := NewestUnknown(r.legs, raced);
      var s1 := if r.legs != [] && newest != "" then NoteDiscovery(s0, id, newest) else s0;
      NoteIsLater(r, newest);
      var s2 := Put(s1, id, AdoptNewest(r, raced));
      ReportsTold(s2, id, raced);
      ToldFrom(s, s2, ApplyReports(s2, id, raced));
    case Ok(x) =>
      var r1 := AmendedRecord(r, price, quantity, x);
      AckedIsChained(r, price, quantity, x);
      RecordTells(s.orders[id := r1], r1);
      LoggedReportsTold(s, Put(s0, id, r1), id, AmendedEvent(r1), raced);
  }

  lemma {:induction false} CancelFinishTold(s: Registry, id: string, answer: Result<string>)
    requires id in s.orders && s.orders[id].clientOrderId == id && Chained(s.orders[id])
    ensures Told(s, CancelFinish(s, id, answer).0)
  {
    hide Tells, Told;
    NothingLogged(s, CancelFinish(s, id, answer).0);
    if answer.Ok? {
      var r := CanceledRecord(s.orders[id], answer.value);
      NoteIsLater(s.orders[id], answer.value);
      RecordTells(s.orders[id := r], r);
      LoggedTold(Put(s, id, r), s, StateEvent(r));
    }
  }

  lemma {:induction false} ListOneTold(s: Registry, venue: string, snap: OrderSnapshot)
    requires WellFiled(s.orders) && AllChained(s.orders)
    ensures Told(s, ListOne(s, venue, snap)) && AllChained(ListOne(s, venue, snap).orders)
  {
    hide Tells, Told, Progress, Observe;
    var id, r' := snap.clientOrderId, ListedRecord(s.orders, venue, snap);
    if id in s.orders {
      assert WellFormedRecord(id, s.orders[id]);
      ListedIsGood(s.orders[id], snap);
    } else {
      AdoptedIsSound(snap, venue);
    }
    RecordTells(s.orders[id := r'], r');
    LoggedTold(Put(s, id, r'), s, StateEvent(r'));
    LoggedTold(Put(s, id, r'), s, AdoptedEvent(r'));
    NothingLogged(s, ListOne(s, venue, snap));
  }

  lemma {:induction false} ListAllTold(s: Registry, venue: string, snaps: seq<OrderSnapshot>)
    requires WellFiled(s.orders) && AllChained(s.orders)
    ensures Told(s, ListAll(s, venue, snaps))
    decreases |snaps|
  {
    hide Told, Progress, ListOne, AllChained;
    if snaps == [] {
      NothingLogged(s, s);
    } else {
      var s1 := ListOne(s, venue, snaps[0]);
      ListOneTold(s, venue, snaps[0]);
      ListOneSparesOpen(s, venue, snaps[0]);
      ListAllTold(s1, venue, snaps[1..]);
      ListAllSparesOpen(s1, venue, snaps[1..]);
      ToldComposes(s, s1, ListAll(s, venue, snaps));
    }
  }

  lemma {:induction false} ResolveTold(s: Registry, id: string, found: Result<Option<OrderSnapshot>>)
    requires WellFiled(s.orders) && AllChained(s.orders)
    ensures Told(s, Resolve(s, id, found))
  {
    hide Tells, Told, ObserveSnapshot, Later;
    NothingLogged(s, Resolve(s, id, found));
    if id in s.orders {
      assert WellFormedRecord(id, s.orders[id]);
      var r, r' := s.orders[id], ResolvedRecord(s.orders[id], found);
      ResolvedIsChained(r, found);
      RecordTells(s.orders[id := r'], r');
      if found.Ok? && found.value.Some? {
        var snap := found.value.value;
        var adopts := r.exchangeOrderId != "" && IsUnknown(r.legs, snap.exchangeOrderId);
        LoggedTold(Put(if adopts then NoteDiscovery(s, id, snap.exchangeOrderId) else s, id, r'), s, StateEvent(r'));
      } else {
        var s1 := Put(s, id, r');
        LoggedTold(s1, s, StateEvent(r'));
        LoggedTold(Logged(s1, StateEvent(r')), Logged(s1, StateEvent(r')), RejectedEvent(r'));
        NothingIsProgress(s1.orders);
        ToldComposes(s, Logged(s1, StateEvent(r')), Logged(Logged(s1, StateEvent(r')), RejectedEvent(r')));
      }
    }
  }

  lemma {:induction false} ResolvedIsChained(r: OrderRecord, found: Result<Option<OrderSnapshot>>)
    requires Chained(r) && (r.rejection.Some? ==> r.state == Rejected)
    ensures Chained(ResolvedRecord(r, found)) && ResolvedRecord(r, found).clientOrderId == r.clientOrderId
  {
    hide Chained, ResolvedRecord;
    ResolveOutcomeIsGood(r, found);
  }

  /** An acknowledged amend carries the id of the leg it made. */
  predicate AckNamed(step: Step) {
    step.FinishAmend? && step.answer.Ok? ==> step.answer.value != ""
  }

  lemma {:induction false} FinishTold(cfg: Config, s: Sys, step: Step)
    requires Inv(s) && AllChained(s.reg.orders) && AckNamed(step)
    requires step.FinishPlace? || step.FinishAmend? || step.FinishCancel?
    ensures Told(s.reg, Next(cfg, s, step).reg)
  {
    hide Told, Chained;
    NothingLogged(s.reg, s.reg);
    if step.t in s.calls {
      var c := s.calls[step.t];
      assert CallFits(s, step.t, c) && WellFormedRecord(CallId(c), s.reg.orders[CallId(c)]);
      match c
      case PlaceCall(_, _) => PlaceFinishTold(s.reg, CallId(c), step.answer);
      case CancelCall(id) => CancelFinishTold(s.reg, id, step.answer);
      case AmendCall(id, price, quantity) =>
        if step.FinishAmend? {
          AmendFinishTold(s.reg, id, price, quantity, step.answer);
        }
    }
  }

  /** No step logs more legs of an order than it leaves the order with. */
  lemma {:induction false} StepTold(cfg: Config, s: Sys, step: Step)
    requires Inv(s) && AllChained(s.reg.orders) && AckNamed(step)
    ensures Told(s.reg, Next(cfg, s, step).reg)
  {
    hide Told, Chained;
    NothingLogged(s.reg, Next(cfg, s, step).reg);
    if step.FinishPlace? || step.FinishAmend? || step.FinishCancel? {
      FinishTold(cfg, s, step);
    } else if step.StagePlace? {
      PlaceStageTold(s.reg, cfg, step.req, step.venue, step.verdict);
    } else if step.Report? {
      var id := step.report.clientOrderId;
      if id in s.reg.orders {
        assert WellFormedRecord(id, s.reg.orders[id]);
        ReportTold(s.reg, id, step.report);
      }
    } else if step.ListOpenOrders? {
      ListAllTold(s.reg, step.venue, step.snaps);
    } else if step.LookUp? {
      ResolveTold(s.reg, step.id, step.found);
    }
  }

  // ---- so the log never shows more legs than the orders have ----

  ghost predicate Behind(logged: map<string, OrderRecord>, live: map<string, OrderRecord>) {
    forall id :: id in logged ==> id in live && |logged[id].legs| <= |live[id].legs|
  }

  /** Every amend in the log carries an id. */
  predicate AmendsNamed(events: seq<Event>) {
    forall i :: 0 <= i < |events| && events[i].Amended? ==> events[i].exchangeOrderId != ""
  }

  lemma {:induction false} EventKeepsBehind(logged: map<string, OrderRecord>, live: map<string, OrderRecord>, e: Event)
    requires Behind(logged, live) && AllChained(logged) && InOrder(logged, e) && Tells(e, live)
    ensures Behind(ApplyLogEvent(logged, e), live)
  {
    hide FillAdvances;
    var after := ApplyLogEvent(logged, e);
    EventSparesOthers(logged, e);
    if e.id in logged {
      EventLegs(logged, e, e.id);
      assert Chained(logged[e.id]);
    }
  }

  lemma {:induction false} InOrderIsChained(events: seq<Event>)
    requires LogInOrder(events) && AmendsNamed(events)
    ensures AllChained(Replay(events))
  {
    hide FillAdvances, AllChained, InOrder;
    if events == [] {
      NoOrdersChained();
    } else {
      InOrderIsChained(events[..|events| - 1]);
      EventKeepsChained(Replay(events[..|events| - 1]), events[|events| - 1]);
    }
  }

  lemma {:induction false} NoOrdersChained()
    ensures AllChained(map[])
  {
  }

  lemma {:induction false} EventKeepsOwnChain(orders: map<string, OrderRecord>, e: Event)
    requires e.id in orders ==> Chained(orders[e.id])
    requires InOrder(orders, e) && (e.Amended? ==> e.exchangeOrderId != "")
    ensures e.id in ApplyLogEvent(orders, e) ==> Chained(ApplyLogEvent(orders, e)[e.id])
  {
    hide FillAdvances;
    if e.id in orders && !IsBirth(e) {
      EventLegs(orders, e, e.id);
    }
  }

  lemma {:induction false} EventKeepsChained(orders: map<string, OrderRecord>, e: Event)
    requires AllChained(orders) && InOrder(orders, e) && (e.Amended? ==> e.exchangeOrderId != "")
    ensures AllChained(ApplyLogEvent(orders, e))
  {
    hide ApplyLogEvent, Chained, InOrder;
    EventSparesOthers(orders, e);
    EventKeepsOwnChain(orders, e);
  }

  lemma {:induction false} ReplayStaysBehind(events: seq<Event>, n: nat, live: map<string, OrderRecord>)
    requires n <= |events| && LogInOrder(events) && AmendsNamed(events) && Behind(Replay(events[..n]), live)
    requires forall i :: n <= i < |events| ==> Tells(events[i], live)
    ensures Behind(Replay(events), live)
    decreases |events|
  {
    hide ApplyLogEvent, Behind, Tells, InOrder, AllChained;
    if n == |events| {
      assert events[..n] == events;
    } else {
      var before := events[..|events| - 1];
      assert before[..n] == events[..n];
      ReplayStaysBehind(before, n, live);
      InOrderIsChained(before);
      EventKeepsBehind(Replay(before), live, events[|events| - 1]);
    }
  }

  // ---- which acks break a chain ----

  /** The log is on and in order, and shows at most the legs the orders have. */
  ghost predicate Follows(s: Sys) {
    && Inv(s) && s.reg.log.enabled && LogInOrder(s.reg.log.events) && AmendsNamed(s.reg.log.events)
    && AllChained(s.reg.orders) && Behind(Replay(s.reg.log.events), s.reg.orders)
  }

  /** The log brings back fewer legs of the order than it has. */
  predicate HasUnloggedLeg(s: Registry, id: string) {
    && id in s.orders && id in Replay(s.log.events)
    && |Replay(s.log.events)[id].legs| < |s.orders[id].legs|
  }

  /** The step logs an acknowledged amend of an order with such a leg. */
  predicate AcksOverUnloggedLeg(s: Sys, step: Step) {
    && step.FinishAmend? && step.answer.Ok? && step.t in s.calls && s.calls[step.t].AmendCall?
    && s.reg.log.enabled && AppendSucceeds(s.reg.log) && HasUnloggedLeg(s.reg, CallId(s.calls[step.t]))
  }

  lemma {:induction false} RecordsAreFiled(s: Sys, id: string)
    requires Inv(s) && id in s.reg.orders
    ensures s.reg.orders[id].clientOrderId == id
  {
    hide Ownership;
    assert WellFormedRecord(id, s.reg.orders[id]);
  }

  lemma {:induction false} OutOfOrderIff(s: Sys, step: Step)
    requires Follows(s) && AckNamed(step)
    ensures LogsOutOfOrder(s, step) <==> AcksOverUnloggedLeg(s, step)
  {
    hide Inv, Ownership, LogInOrder, Replay;
    if step.FinishAmend? && step.answer.Ok? && step.t in s.calls && s.calls[step.t].AmendCall? {
      var id := CallId(s.calls[step.t]);
      if id in s.reg.orders {
        RecordsAreFiled(s, id);
        assert Chained(s.reg.orders[id]);
      }
    }
  }

  lemma {:induction false} StepFollows(cfg: Config, s: Sys, step: Step)
    requires Follows(s) && AckNamed(step) && !LogsOutOfOrder(s, step)
    ensures Follows(Next(cfg, s, step))
  {
    hide Inv, LogInOrder, Replay, Next, LogsOutOfOrder, Sound;
    var s' := Next(cfg, s, step);
    var before, after := s.reg.log.events, s'.reg.log.events;
    StepKeepsInv(cfg, s, step);
    StepOnlyAppends(cfg, s, step);
    StepInOrderIff(cfg, s, step);
    StepTold(cfg, s, step);
    ProgressKeepsChained(s.reg.orders, s'.reg.orders);
    ProgressKeepsBehind(Replay(before), s.reg.orders, s'.reg.orders);
    assert after[..|before|] == before;
    ReplayStaysBehind(after, |before|, s'.reg.orders);
  }

  lemma {:induction false} ProgressKeepsChained(before: map<string, OrderRecord>, after: map<string, OrderRecord>)
    requires Progress(before, after) && AllChained(before)
    ensures AllChained(after)
  {
    forall id | id in after ensures Chained(after[id]) {
      if id in before {
        assert Later(before[id], after[id]) && Chained(before[id]);
      } else {
        assert Sound(after[id]);
      }
    }
  }

  lemma {:induction false} ProgressKeepsBehind(logged: map<string, OrderRecord>, before: map<string, OrderRecord>,
                                               after: map<string, OrderRecord>)
    requires Progress(before, after) && Behind(logged, before)
    ensures Behind(logged, after)
  {
    hide Sound;
    forall id | id in logged ensures id in after && |logged[id].legs| <= |after[id].legs| {
      assert Later(before[id], after[id]);
    }
  }

  lemma {:induction false} RestartFollows(codec: Codec<Event>, j: Journal, cut: nat, sent: seq<string>)
    requires Faithful(codec) && j.enabled && AmendsNamed(j.events) && LogInOrder(ReadBack(codec, j, cut))
    ensures Follows(Reboot(codec, j, cut, sent))
  {
    hide Inv, LogInOrder, Replay, ReadBack;
    RestartIsSound(codec, j, cut, sent);
    RestartRecovers(codec, [], j, cut);
    var events := ReadBack(codec, j, cut);
    assert forall i :: 0 <= i < |events| ==> events[i] == j.events[i];
    InOrderIsChained(events);
  }

  // ---- over runs with crashes ----

  predicate MoveNamed(move: Move) {
    match move
    case Do(step) => AckNamed(step)
    case Crash(during, _) => AckNamed(during)
  }

  /** A crash counts only if the amend's line is among what is read back. */
  predicate MoveOverUnloggedLeg(cfg: Config, codec: Codec<Event>, s: Sys, move: Move) {
    match move
    case Do(step) => AcksOverUnloggedLeg(s, step)
    case Crash(during, cut) =>
      && AcksOverUnloggedLeg(s, during)
      && |ReadBack(codec, Next(cfg, s, during).reg.log, cut)| > |s.reg.log.events|
  }

  predicate NoAckOverUnloggedLegs(cfg: Config, codec: Codec<Event>, s: Sys, moves: seq<Move>)
    decreases |moves|
  {
    moves == []
    || (&& !MoveOverUnloggedLeg(cfg, codec, s, moves[0])
        && NoAckOverUnloggedLegs(cfg, codec, NextMove(cfg, codec, s, moves[0]), moves[1..]))
  }

  lemma {:induction false} MoveFollows(cfg: Config, codec: Codec<Event>, s: Sys, move: Move)
    requires Faithful(codec) && Follows(s) && MoveNamed(move)
    ensures MoveOutOfOrder(cfg, codec, s, move) <==> MoveOverUnloggedLeg(cfg, codec, s, move)
    ensures !MoveOutOfOrder(cfg, codec, s, move) ==> Follows(NextMove(cfg, codec, s, move))
  {
    hide Inv, LogInOrder, Replay, Next, ReadBack, LogsOutOfOrder, AcksOverUnloggedLeg, AllChained, Behind;
    match move
    case Do(step) =>
      OutOfOrderIff(s, step);
      if !LogsOutOfOrder(s, step) {
        StepFollows(cfg, s, step);
      }
    case Crash(during, cut) =>
      OutOfOrderIff(s, during);
      if !MoveOutOfOrder(cfg, codec, s, move) {
        CrashInOrderIff(cfg, codec, s, during, cut);
        StepOnlyAppends(cfg, s, during);
        StepTold(cfg, s, during);
        AppendedAmendsNamed(s.reg, Next(cfg, s, during).reg);
        RestartFollows(codec, Next(cfg, s, during).reg.log, cut, s.sent);
      }
  }

  lemma {:induction false} AppendedAmendsNamed(s: Registry, s': Registry)
    requires AmendsNamed(s.log.events) && LogGrows(s.log, s'.log) && Told(s, s')
    ensures AmendsNamed(s'.log.events)
  {
    var events := s'.log.events;
    forall i | 0 <= i < |events| && events[i].Amended? ensures events[i].exchangeOrderId != "" {
      if i < |s.log.events| {
        assert events[i] == s.log.events[i];
      } else {
        assert Tells(events[i], s'.orders);
      }
    }
  }

  lemma {:induction false} FollowingRunsStayWholeIff(cfg: Config, codec: Codec<Event>, s: Sys, moves: seq<Move>)
    requires Faithful(codec) && Follows(s) && forall i :: 0 <= i < |moves| ==> MoveNamed(moves[i])
    ensures RestartsStayWhole(cfg, codec, s, moves) <==> NoAckOverUnloggedLegs(cfg, codec, s, moves)
    decreases |moves|
  {
    hide Inv, LogInOrder, AllChained, Behind, AmendsNamed, EveryRestartWhole, MoveOutOfOrder, MoveOverUnloggedLeg,
         MoveNamed, Reboot, Next;
    EveryRestartWholeIff(codec, s);
    if moves != [] {
      var s' := NextMove(cfg, codec, s, moves[0]);
      MoveFollows(cfg, codec, s, moves[0]);
      MoveInOrderIff(cfg, codec, s, moves[0]);
      if MoveOutOfOrder(cfg, codec, s, moves[0]) {
        assert !RestartsStayWhole(cfg, codec, s', moves[1..]);
      } else {
        FollowingRunsStayWholeIff(cfg, codec, s', moves[1..]);
      }
    }
  }

  /** From an empty log, over any run with crashes at any byte and whose amend acks carry ids: every
      restart at every point has whole chains if and only if no amend that is kept was acknowledged
      over a leg that had been learned and that the log did not bring back. */
  lemma {:induction false} RestartsStayWholeIffLegsLogged(cfg: Config, codec: Codec<Event>, disk: seq<bool>,
                                                          moves: seq<Move>)
    requires Faithful(codec) && forall i :: 0 <= i < |moves| ==> MoveNamed(moves[i])
    ensures RestartsStayWhole(cfg, codec, Init(true, disk), moves)
       <==> NoAckOverUnloggedLegs(cfg, codec, Init(true, disk), moves)
  {
    hide RestartsStayWhole, NoAckOverUnloggedLegs, MoveNamed;
    assert Follows(Init(true, disk));
    FollowingRunsStayWholeIff(cfg, codec, Init(true, disk), moves);
  }
}
