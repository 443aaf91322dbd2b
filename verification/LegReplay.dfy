/** Leg chains across restarts: which logs bring every chain back whole, and which runs write one
    that does not. */
module LegReplay {
  import opened Wrappers
  import opened OrderLifecycle
  import opened OrderRecords
  import opened OmsRegistry
  import opened OmsMachine
  import opened OmsReplay
  import opened OmsCrash
  import opened EventLogs
  import opened Audit

  // ---- one order's versions, for any log ----

  /** Since the order's last birth in the log, which carries at most version 1, no amend carries a
      version more than one past the legs replayed before it. */
  predicate VersionsInOrder(events: seq<Event>, id: string) {
    if events == [] then true
    else
      var before, e := events[..|events| - 1], events[|events| - 1];
      if e.id != id then VersionsInOrder(before, id)
      else
        match e
        case PlaceSubmitted(_, _) => true
        case PlaceAccepted(_, _, x, version) => x == "" || version <= 1
        case Adopted(_, _, x, version, _, _, _) => x == "" || version <= 1
        case Amended(_, _, _, _, _, version) =>
          VersionsInOrder(before, id) && (id in Replay(before) ==> version <= |Replay(before)[id].legs| + 1)
        case _ => VersionsInOrder(before, id)
  }

  lemma {:induction false} LegsStayGapless(legs: seq<OrderLeg>, leg: OrderLeg, i: nat, x: string)
    ensures Gapless(legs + [leg]) <==> Gapless(legs) && leg.version == |legs| + 1
    ensures i < |legs| ==> (Gapless(legs[i := legs[i].(exchangeOrderId := x)]) <==> Gapless(legs))
  {
    var more := legs + [leg];
    assert more[|legs|] == leg && forall k :: 0 <= k < |legs| ==> legs[k] == more[k];
    if i < |legs| {
      var renamed := legs[i := legs[i].(exchangeOrderId := x)];
      assert forall k :: 0 <= k < |legs| ==> legs[k].version == renamed[k].version;
    }
  }

  lemma {:induction false} FirstLegGapless(r: OrderRecord, x: string, version: nat)
    requires r.legs == []
    ensures Gapless(WithFirstLeg(r, x, version).legs) <==> x == "" || version <= 1
  {
    LegsStayGapless([], OrderLeg(if version == 0 then 1 else version, x), 0, "");
  }

  /** What one event does to the legs of a known order. */
  lemma {:induction false} EventLegs(orders: map<string, OrderRecord>, e: Event, id: string)
    requires id in orders
    ensures id in ApplyLogEvent(orders, e)
    ensures var r, r' := orders[id], ApplyLogEvent(orders, e)[id];
            if e.id != id then r' == r
            else match e
                 case RejectionRecorded(_, _, _, _, _) => r'.legs == r.legs && r'.exchangeOrderId == r.exchangeOrderId
                 case StateChanged(_, _, _, _, x, _) =>
                   (r'.legs == r.legs && r'.exchangeOrderId == r.exchangeOrderId)
                   || (r'.legs == PushLeg(r.legs, x) && r'.exchangeOrderId == x)
                 case _ => true
  {
    hide OrderRecords.FillAdvances;
  }

  predicate IsBirth(e: Event) {
    e.PlaceSubmitted? || e.PlaceAccepted? || e.Adopted?
  }

  lemma {:induction false} BirthVersions(orders: map<string, OrderRecord>, e: Event)
    requires IsBirth(e)
    ensures var after := ApplyLogEvent(orders, e);
            e.id in after
            && (Gapless(after[e.id].legs) <==> e.PlaceSubmitted? || e.exchangeOrderId == "" || e.version <= 1)
  {
    hide Gapless;
    if e.PlaceSubmitted? {
      FirstLegGapless(FreshRecord(e.id, e.terms, Pending), "", 1);
    } else {
      FirstLegGapless(FreshRecord(e.id, e.terms, if e.Adopted? then e.state else Live), e.exchangeOrderId, e.version);
    }
  }

  lemma {:induction false} EventKeepsVersionsIff(orders: map<string, OrderRecord>, e: Event)
    requires e.id in orders && !IsBirth(e)
    ensures e.id in ApplyLogEvent(orders, e)
    ensures var legs, legs' := orders[e.id].legs, ApplyLogEvent(orders, e)[e.id].legs;
            Gapless(legs') <==> Gapless(legs) && (e.Amended? ==> e.version <= |legs| + 1)
  {
    hide OrderRecords.FillAdvances;
    var legs := orders[e.id].legs;
    EventLegs(orders, e, e.id);
    if e.StateChanged? {
      LegsStayGapless(legs, OrderLeg(|legs| + 1, e.exchangeOrderId), 0, "");
    } else if e.Amended? && e.version > 0 {
      var newest := if e.version <= |legs| then e.version - 1 else 0;
      LegsStayGapless(legs, OrderLeg(e.version, e.exchangeOrderId), newest, e.exchangeOrderId);
    }
  }

  lemma {:induction false} EventSparesOthers(orders: map<string, OrderRecord>, e: Event)
    ensures var after := ApplyLogEvent(orders, e);
            after == if e.id in after then orders[e.id := after[e.id]] else orders
  {
    hide OrderRecords.Observe, WithFirstLeg, ReplayedLegs;
  }

  /** Any log at all: an order comes back with versions 1..N if and only if its amends are logged in
      that order. */
  lemma {:induction false} ReplayIsGaplessIff(events: seq<Event>, id: string)
    ensures id in Replay(events) ==> (Gapless(Replay(events)[id].legs) <==> VersionsInOrder(events, id))
    ensures id !in Replay(events) ==> VersionsInOrder(events, id)
  {
    hide Gapless, ApplyLogEvent;
    if events == [] {
    } else {
      var before, e := Replay(events[..|events| - 1]), events[|events| - 1];
      ReplayIsGaplessIff(events[..|events| - 1], id);
      EventSparesOthers(before, e);
      if IsBirth(e) {
        BirthVersions(before, e);
      } else if e.id in before {
        EventKeepsVersionsIff(before, e);
      } else {
        UnknownOrderStaysEmpty(before, e);
      }
    }
  }

  /** An amend or a state for an unknown order does nothing; a rejection makes one without legs. */
  lemma {:induction false} UnknownOrderStaysEmpty(orders: map<string, OrderRecord>, e: Event)
    requires e.id !in orders && !IsBirth(e)
    ensures var after := ApplyLogEvent(orders, e);
            if e.RejectionRecorded? then e.id in after && Gapless(after[e.id].legs) else after == orders
  {
  }

  // ---- every order, every cut ----

  ghost predicate AllUnbroken(orders: map<string, OrderRecord>) {
    forall id :: id in orders ==> Unbroken(orders[id])
  }

  /** The amend carries the next version, or names the newest leg, or repeats the current id. */
  predicate AmendInOrder(r: OrderRecord, version: nat, x: string) {
    if x == "" then version <= |r.legs| || (version == |r.legs| + 1 && r.exchangeOrderId == "")
    else version == |r.legs| + 1 || version == |r.legs| || (version < |r.legs| && x == r.exchangeOrderId)
  }

  predicate InOrder(orders: map<string, OrderRecord>, e: Event) {
    match e
    case PlaceAccepted(_, _, x, version) => x == "" || version <= 1
    case Adopted(_, _, x, version, _, _, _) => x == "" || version <= 1
    case Amended(id, _, _, _, x, version) => id in orders && version > 0 ==> AmendInOrder(orders[id], version, x)
    case _ => true
  }

  lemma {:induction false} AmendKeepsChainIff(r: OrderRecord, version: nat, x: string)
    requires Unbroken(r) && version > 0
    ensures Unbroken(r.(legs := ReplayedLegs(r.legs, version, x),
                        exchangeOrderId := if x != "" then x else r.exchangeOrderId))
       <==> AmendInOrder(r, version, x)
  {
  }

  /** What one event does to the chain of its own order. */
  lemma {:induction false} EventKeepsChainIff(orders: map<string, OrderRecord>, e: Event)
    requires e.id in orders ==> Unbroken(orders[e.id])
    ensures e.id in ApplyLogEvent(orders, e) ==> (Unbroken(ApplyLogEvent(orders, e)[e.id]) <==> InOrder(orders, e))
    ensures e.id !in ApplyLogEvent(orders, e) ==> InOrder(orders, e)
  {
    hide OrderRecords.FillAdvances;
    if e.id in orders {
      var r := orders[e.id];
      EventLegs(orders, e, e.id);
      if e.Amended? && e.version > 0 {
        AmendKeepsChainIff(r, e.version, e.exchangeOrderId);
      } else if e.StateChanged? {
        LegsStayGapless(r.legs, OrderLeg(|r.legs| + 1, e.exchangeOrderId), 0, "");
      }
    }
  }

  lemma {:induction false} EventKeepsChainsIff(orders: map<string, OrderRecord>, e: Event)
    requires AllUnbroken(orders)
    ensures AllUnbroken(ApplyLogEvent(orders, e)) <==> InOrder(orders, e)
  {
    hide Unbroken, InOrder;
    EventKeepsChainIff(orders, e);
    EventSparesOthers(orders, e);
  }

  predicate LogInOrder(events: seq<Event>) {
    events == []
    || (LogInOrder(events[..|events| - 1]) && InOrder(Replay(events[..|events| - 1]), events[|events| - 1]))
  }

  ghost predicate EveryPrefixWhole(events: seq<Event>) {
    forall k :: 0 <= k <= |events| ==> AllUnbroken(Replay(events[..k]))
  }

  lemma {:induction false} PrefixesSplit(events: seq<Event>)
    requires events != []
    ensures EveryPrefixWhole(events) <==> EveryPrefixWhole(events[..|events| - 1]) && AllUnbroken(Replay(events))
  {
    hide Replay, AllUnbroken;
    var n := |events| - 1;
    var before := events[..n];
    assert events[..n + 1] == events;
    assert forall k :: 0 <= k <= n ==> events[..k] == before[..k];
  }

  /** Any log at all: all its prefixes bring back whole chains if and only if each event is in order
      with the prefix before it. */
  lemma {:induction false} EveryPrefixWholeIff(events: seq<Event>)
    ensures EveryPrefixWhole(events) <==> LogInOrder(events)
  {
    hide ApplyLogEvent, AllUnbroken, InOrder;
    if events == [] {
      NothingReplayed(events);
    } else {
      hide EveryPrefixWhole;
      var before := events[..|events| - 1];
      EveryPrefixWholeIff(before);
      PrefixesSplit(events);
      if EveryPrefixWhole(before) {
        LastPrefixWhole(before);
        EventKeepsChainsIff(Replay(before), events[|events| - 1]);
      }
    }
  }

  lemma {:induction false} NothingReplayed(events: seq<Event>)
    requires events == []
    ensures EveryPrefixWhole(events)
  {
    assert events[..0] == [];
  }

  lemma {:induction false} LastPrefixWhole(events: seq<Event>)
    requires EveryPrefixWhole(events)
    ensures AllUnbroken(Replay(events))
  {
    hide Replay, AllUnbroken;
    assert events[..|events|] == events;
  }

  lemma {:induction false} PrefixInOrder(events: seq<Event>, k: nat)
    requires k <= |events| && LogInOrder(events)
    ensures LogInOrder(events[..k])
    decreases |events|
  {
    hide InOrder;
    if k < |events| {
      PrefixInOrder(events[..|events| - 1], k);
      assert events[..|events| - 1][..k] == events[..k];
    } else {
      assert events[..k] == events;
    }
  }

  lemma {:induction false} EachEventInOrder(events: seq<Event>, k: nat)
    requires k < |events| && LogInOrder(events)
    ensures InOrder(Replay(events[..k]), events[k])
  {
    hide InOrder, Replay;
    PrefixInOrder(events, k + 1);
    assert events[..k + 1][..k] == events[..k];
  }

  // ---- every restart ----

  /** Wherever a crash cuts the log now, the next process has whole chains. */
  ghost predicate EveryRestartWhole(codec: Codec<Event>, s: Sys) {
    forall cut: nat {:trigger ReadBack(codec, s.reg.log, cut)} ::
      AllUnbroken(Reboot(codec, s.reg.log, cut, s.sent).reg.orders)
  }

  /** A cut right behind an event reads back exactly the events up to it. */
  lemma {:induction false} PrefixIsReadBack(codec: Codec<Event>, j: Journal, k: nat)
    requires Faithful(codec) && j.enabled && k <= |j.events|
    ensures ReadBack(codec, j, |Encode(codec, j.events[..k])|) == j.events[..k]
  {
    var cut := |Encode(codec, j.events[..k])|;
    PrefixOfEncoding(codec, j.events, k);
    CrashPrefixRecovery(codec, j.events, cut);
    CompleteLinesIsMaximal(codec, j.events, cut, k);
    if k < |j.events| {
      CompleteLinesIsMaximal(codec, j.events, cut, k + 1);
      EncodeAppend(codec, j.events[..k], [j.events[k]]);
      assert j.events[..k + 1] == j.events[..k] + [j.events[k]];
    }
  }

  /** Every restart has whole chains if and only if the log is in order. */
  lemma {:induction false} EveryRestartWholeIff(codec: Codec<Event>, s: Sys)
    requires Faithful(codec) && s.reg.log.enabled
    ensures EveryRestartWhole(codec, s) <==> LogInOrder(s.reg.log.events)
  {
    hide LogInOrder, AllUnbroken, Replay, ReadBack;
    var j := s.reg.log;
    EveryPrefixWholeIff(j.events);
    forall cut: nat ensures ReadBack(codec, j, cut) <= j.events {
      RestartRecovers(codec, [], j, cut);
    }
    forall k | 0 <= k <= |j.events| ensures ReadBack(codec, j, |Encode(codec, j.events[..k])|) == j.events[..k] {
      PrefixIsReadBack(codec, j, k);
    }
    if EveryPrefixWhole(j.events) {
      forall cut: nat ensures AllUnbroken(Reboot(codec, j, cut, s.sent).reg.orders) {
        var n := |ReadBack(codec, j, cut)|;
        assert j.events[..n] == ReadBack(codec, j, cut);
      }
    }
  }

  // ---- which steps log out of order ----

  /** The step logs an acknowledged amend whose version does not fit what the log shows. */
  predicate LogsOutOfOrder(s: Sys, step: Step) {
    && step.FinishAmend? && step.answer.Ok? && step.t in s.calls && s.calls[step.t].AmendCall?
    && s.reg.log.enabled && AppendSucceeds(s.reg.log)
    && var c := s.calls[step.t];
       c.amendId in s.reg.orders
       && !InOrder(Replay(s.reg.log.events),
                   AmendedEvent(AmendedRecord(s.reg.orders[c.amendId], c.price, c.quantity, step.answer.value)))
  }

  lemma {:induction false} LoggedInOrder(s: Registry, e: Event)
    ensures LogInOrder(Logged(s, e).log.events) <==>
            LogInOrder(s.log.events) && (s.log.enabled && AppendSucceeds(s.log) ==> InOrder(Replay(s.log.events), e))
  {
    hide InOrder, Replay;
    assert (s.log.events + [e])[..|s.log.events|] == s.log.events;
  }

  /** What the order of a log's events is left as by steps that log no amend. */
  predicate AsOrdered(s: Registry, s': Registry) {
    LogInOrder(s'.log.events) == LogInOrder(s.log.events)
  }

  lemma {:induction false} ReportsInOrder(s: Registry, id: string, reports: seq<ExecutionReport>)
    requires id in s.orders
    ensures AsOrdered(s, ApplyReports(s, id, reports))
    decreases |reports|
  {
    if reports != [] {
      ReportInOrder(s, id, reports[0]);
      ReportsInOrder(ApplyReport(s, id, reports[0]), id, reports[1..]);
    }
  }

  lemma {:induction false} ReportInOrder(s: Registry, id: string, report: ExecutionReport)
    requires id in s.orders
    ensures AsOrdered(s, ApplyReport(s, id, report))
  {
    hide LogInOrder, Replay, Arbitrate;
    var r, r' := s.orders[id], Arbitrate(s.orders[id], report);
    var s1 := Put(if Adopts(r, report) then NoteDiscovery(s, id, report.exchangeOrderId) else s, id, r');
    LoggedInOrder(s1.(stats := s1.stats.(applied := s1.stats.applied + 1)), StateEvent(r'));
  }

  lemma {:induction false} PlaceStageInOrder(s: Registry, cfg: Config, req: OrderRequest, venue: string,
                                             verdict: Option<Error>)
    ensures AsOrdered(s, PlaceStage(s, cfg, req, venue, verdict).0)
  {
    hide LogInOrder, Replay;
    var staged := StagedRecord(req, if venue == "" then cfg.defaultVenue else venue);
    LoggedInOrder(s, PlaceSubmittedEvent(staged));
    LoggedInOrder(s, RejectedEvent(staged.(state := Rejected, rejection := verdict)));
  }

  lemma {:induction false} PlaceFinishInOrder(s: Registry, id: string, answer: Result<string>)
    requires id in s.orders && AsStaged(s.orders[id])
    ensures AsOrdered(s, PlaceFinish(s, id, answer).0)
  {
    hide LogInOrder, Replay, ApplyReports;
    var raced, s0, r := RacedFor(s, id), Drained(s, id), s.orders[id];
    match answer
    case Err(e) =>
      ReportsInOrder(s0, id, raced);
      var r1 := r.(state := Rejected, rejection := Some(e));
      LoggedInOrder(Put(s0, id, r1), RejectedEvent(r1));
    case Ok(x) =>
      var r1 := AckedPlace(r, x);
      LoggedInOrder(Put(s0, id, r1), PlaceAcceptedEvent(r1));
      ReportsInOrder(Logged(Put(s0, id, r1), PlaceAcceptedEvent(r1)), id, raced);
  }

  lemma {:induction false} AmendFinishInOrder(s: Registry, id: string, price: string, quantity: string,
                                              answer: Result<string>)
    requires id in s.orders
    ensures var r := AmendedRecord(s.orders[id], price, quantity, if answer.Ok? then answer.value else "");
            LogInOrder(AmendFinish(s, id, price, quantity, answer).0.log.events) <==>
            LogInOrder(s.log.events)
            && (answer.Ok? && s.log.enabled && AppendSucceeds(s.log) ==> InOrder(Replay(s.log.events), AmendedEvent(r)))
  {
    hide LogInOrder, Replay, InOrder, ApplyReports;
    var raced, s0 := RacedFor(s, id), Drained(s, id);
    match answer
    case Err(_) =>
      var newest := NewestUnknown(s.orders[id].legs, raced);
      var s1 := if s.orders[id].legs != [] && newest != "" then NoteDiscovery(s0, id, newest) else s0;
      ReportsInOrder(Put(s1, id, AdoptNewest(s.orders[id], raced)), id, raced);
    case Ok(x) =>
      var r := AmendedRecord(s.orders[id], price, quantity, x);
      LoggedInOrder(Put(s0, id, r), AmendedEvent(r));
      ReportsInOrder(Logged(Put(s0, id, r), AmendedEvent(r)), id, raced);
  }

  lemma {:induction false} ListOneInOrder(s: Registry, venue: string, snap: OrderSnapshot)
    ensures AsOrdered(s, ListOne(s, venue, snap))
  {
    hide LogInOrder, Replay;
    var r' := ListedRecord(s.orders, venue, snap);
    if snap.clientOrderId in s.orders {
      LoggedInOrder(Put(s, snap.clientOrderId, r'), StateEvent(r'));
    } else {
      LoggedInOrder(s, AdoptedEvent(r'));
    }
  }

  lemma {:induction false} ListAllInOrder(s: Registry, venue: string, snaps: seq<OrderSnapshot>)
    ensures AsOrdered(s, ListAll(s, venue, snaps))
    decreases |snaps|
  {
    if snaps != [] {
      ListOneInOrder(s, venue, snaps[0]);
      ListAllInOrder(ListOne(s, venue, snaps[0]), venue, snaps[1..]);
    }
  }

  lemma {:induction false} ResolveInOrder(s: Registry, id: string, found: Result<Option<OrderSnapshot>>)
    ensures AsOrdered(s, Resolve(s, id, found))
  {
    hide LogInOrder, Replay, ObserveSnapshot;
    if id in s.orders {
      if found.Ok? && found.value.Some? {
        var r, snap := s.orders[id], found.value.value;
        var r' := ObserveSnapshot(LearnedFromSnapshot(r, snap.exchangeOrderId), snap);
        var adopts := r.exchangeOrderId != "" && IsUnknown(r.legs, snap.exchangeOrderId);
        LoggedInOrder(Put(if adopts then NoteDiscovery(s, id, snap.exchangeOrderId) else s, id, r'), StateEvent(r'));
      } else {
        var r' := RejectedRecord(s.orders[id], VENUE_ABSENT);
        LoggedInOrder(Put(s, id, r'), StateEvent(r'));
        LoggedInOrder(Logged(Put(s, id, r'), StateEvent(r')), RejectedEvent(r'));
      }
    }
  }

  lemma {:induction false} CancelFinishInOrder(s: Registry, id: string, answer: Result<string>)
    ensures AsOrdered(s, CancelFinish(s, id, answer).0)
  {
    hide LogInOrder, Replay;
    if id in s.orders && answer.Ok? {
      var r := CanceledRecord(s.orders[id], answer.value);
      LoggedInOrder(Put(s, id, r), StateEvent(r));
    }
  }

  lemma {:induction false} FinishInOrderIff(cfg: Config, s: Sys, step: Step)
    requires Inv(s) && (step.FinishPlace? || step.FinishAmend? || step.FinishCancel?)
    ensures LogInOrder(Next(cfg, s, step).reg.log.events) <==> LogInOrder(s.reg.log.events) && !LogsOutOfOrder(s, step)
  {
    hide LogInOrder, Replay, InOrder;
    if step.t in s.calls {
      var c := s.calls[step.t];
      assert CallFits(s, step.t, c);
      match c
      case PlaceCall(_, _) => PlaceFinishInOrder(s.reg, CallId(c), step.answer);
      case CancelCall(id) => CancelFinishInOrder(s.reg, id, step.answer);
      case AmendCall(id, price, quantity) => AmendFinishInOrder(s.reg, id, price, quantity, step.answer);
    }
  }

  /** Of all steps only an acknowledged amend can put the log out of order. */
  lemma {:induction false} StepInOrderIff(cfg: Config, s: Sys, step: Step)
    requires Inv(s)
    ensures LogInOrder(Next(cfg, s, step).reg.log.events) <==> LogInOrder(s.reg.log.events) && !LogsOutOfOrder(s, step)
  {
    hide LogInOrder, Replay, InOrder;
    if step.FinishPlace? || step.FinishAmend? || step.FinishCancel? {
      FinishInOrderIff(cfg, s, step);
    } else if step.StagePlace? {
      PlaceStageInOrder(s.reg, cfg, step.req, step.venue, step.verdict);
    } else if step.Report? {
      if step.report.clientOrderId in s.reg.orders {
        ReportInOrder(s.reg, step.report.clientOrderId, step.report);
      }
    } else if step.ListOpenOrders? {
      ListAllInOrder(s.reg, step.venue, step.snaps);
    } else if step.LookUp? {
      ResolveInOrder(s.reg, step.id, step.found);
    }
  }

  // ---- runs with crashes ----

  /** A crash puts the log out of order only if the interrupted step does and its amend's line is
      among what is read back. */
  predicate MoveOutOfOrder(cfg: Config, codec: Codec<Event>, s: Sys, move: Move) {
    match move
    case Do(step) => LogsOutOfOrder(s, step)
    case Crash(during, cut) =>
      LogsOutOfOrder(s, during) && |ReadBack(codec, Next(cfg, s, during).reg.log, cut)| > |s.reg.log.events|
  }

  predicate MovesInOrder(cfg: Config, codec: Codec<Event>, s: Sys, moves: seq<Move>)
    decreases |moves|
  {
    moves == []
    || (!MoveOutOfOrder(cfg, codec, s, moves[0])
        && MovesInOrder(cfg, codec, NextMove(cfg, codec, s, moves[0]), moves[1..]))
  }

  /** Now and after every move, every restart has whole chains. */
  ghost predicate RestartsStayWhole(cfg: Config, codec: Codec<Event>, s: Sys, moves: seq<Move>)
    decreases |moves|
  {
    EveryRestartWhole(codec, s)
    && (moves == [] || RestartsStayWhole(cfg, codec, NextMove(cfg, codec, s, moves[0]), moves[1..]))
  }

  /** The amend is the first event its step appends. */
  lemma {:induction false} AmendIsFirst(cfg: Config, s: Sys, step: Step)
    requires LogsOutOfOrder(s, step)
    ensures var before, after := s.reg.log.events, Next(cfg, s, step).reg.log.events;
            |before| < |after| && before <= after && !InOrder(Replay(before), after[|before|])
  {
    hide InOrder, Replay, ApplyReports;
    var c := s.calls[step.t];
    var r := AmendedRecord(s.reg.orders[c.amendId], c.price, c.quantity, step.answer.value);
    var s1 := Logged(Put(Drained(s.reg, c.amendId), c.amendId, r), AmendedEvent(r));
    assert s1.log.events == s.reg.log.events + [AmendedEvent(r)];
    assert LogGrows(s1.log, ApplyReports(s1, c.amendId, RacedFor(s.reg, c.amendId)).log);
  }

  lemma {:induction false} CrashInOrderIff(cfg: Config, codec: Codec<Event>, s: Sys, during: Step, cut: nat)
    requires Faithful(codec) && Inv(s) && s.reg.log.enabled && LogInOrder(s.reg.log.events)
    ensures LogInOrder(Restarted(cfg, codec, s, during, cut).reg.log.events)
            <==> !MoveOutOfOrder(cfg, codec, s, Crash(during, cut))
  {
    hide LogInOrder, InOrder, Replay, Inv, ReadBack, LogsOutOfOrder, Next;
    var j := Next(cfg, s, during).reg.log;
    var read, before := ReadBack(codec, j, cut), s.reg.log.events;
    StepOnlyAppends(cfg, s, during);
    RestartRecovers(codec, [], j, cut);
    StepInOrderIff(cfg, s, during);
    assert read == j.events[..|read|];
    if !LogsOutOfOrder(s, during) {
      PrefixInOrder(j.events, |read|);
    } else if |read| <= |before| {
      assert read == before[..|read|];
      PrefixInOrder(before, |read|);
    } else {
      AmendIsFirst(cfg, s, during);
      assert read[..|before|] == before;
      if LogInOrder(read) {
        EachEventInOrder(read, |before|);
      }
    }
  }

  /** Chains across restarts: over any run with crashes, every restart at every point has whole chains
      if and only if no amend is acknowledged, and kept, whose version does not fit the log. */
  lemma {:induction false} RestartsStayWholeIff(cfg: Config, codec: Codec<Event>, s: Sys, moves: seq<Move>)
    requires Faithful(codec) && Inv(s) && s.reg.log.enabled && EveryRestartWhole(codec, s)
    ensures RestartsStayWhole(cfg, codec, s, moves) <==> MovesInOrder(cfg, codec, s, moves)
    decreases |moves|
  {
    hide LogInOrder, Inv, EveryRestartWhole, MoveOutOfOrder, LogsOutOfOrder, Next, Reboot;
    if moves == [] {
    } else {
      var s' := NextMove(cfg, codec, s, moves[0]);
      MoveInOrderIff(cfg, codec, s, moves[0]);
      if EveryRestartWhole(codec, s') {
        RestartsStayWholeIff(cfg, codec, s', moves[1..]);
      } else {
        assert !RestartsStayWhole(cfg, codec, s', moves[1..]);
      }
    }
  }

  lemma {:induction false} MoveInOrderIff(cfg: Config, codec: Codec<Event>, s: Sys, move: Move)
    requires Faithful(codec) && Inv(s) && s.reg.log.enabled && EveryRestartWhole(codec, s)
    ensures var s' := NextMove(cfg, codec, s, move);
            && Inv(s') && s'.reg.log.enabled
            && (EveryRestartWhole(codec, s') <==> !MoveOutOfOrder(cfg, codec, s, move))
  {
    hide LogInOrder, Inv, EveryRestartWhole, LogsOutOfOrder, Next;
    EveryRestartWholeIff(codec, s);
    match move {
      case Do(step) =>
        StepKeepsInv(cfg, s, step);
        StepOnlyAppends(cfg, s, step);
        StepInOrderIff(cfg, s, step);
      case Crash(during, cut) =>
        StepOnlyAppends(cfg, s, during);
        RestartIsSound(codec, Next(cfg, s, during).reg.log, cut, s.sent);
        CrashInOrderIff(cfg, codec, s, during, cut);
    }
    EveryRestartWholeIff(codec, NextMove(cfg, codec, s, move));
  }

  // ---- a run that breaks a chain ----

  /** Place and ack, a report under an unknown id, an acknowledged amend, and a crash. */
  function AdoptThenAmend(req: OrderRequest, venue: string, price: string, cut: nat): seq<Move> {
    [Do(StagePlace(0, req, venue, None)), Do(SendPlace(0)), Do(FinishPlace(0, Ok("1"))),
     Do(Report(ExecutionReport(req.clientOrderId, "2", Live, "", ""))),
     Do(StageAmend(0, req.clientOrderId, Some(price), None, None)), Do(FinishAmend(0, Ok("3"))),
     Crash(TakeWorklist, cut)]
  }

  lemma {:induction false} PlacedAndAcked(cfg: Config, req: OrderRequest, venue: string)
    requires venue != "" && venue in cfg.venues
    ensures var id, r := req.clientOrderId, AckedPlace(StagedRecord(req, venue), "1");
            var s0 := Next(cfg, Next(cfg, Init(true, []), StagePlace(0, req, venue, None)), SendPlace(0));
            var s := Next(cfg, s0, FinishPlace(0, Ok("1")));
            && s.calls == map[] && s.reg.raced == map[] && s.reg.orders == map[id := r]
            && s.reg.log == Journal(true, [PlaceSubmittedEvent(StagedRecord(req, venue)), PlaceAcceptedEvent(r)], [])
  {
  }

  lemma {:induction false} AdoptedUnlogged(cfg: Config, s: Sys, id: string, r: OrderRecord)
    requires s.calls == map[] && s.reg.raced == map[] && s.reg.orders == map[id := r]
    requires r.legs == [OrderLeg(1, "1")] && r.exchangeOrderId == "1" && r.state == Live
    ensures var s' := Next(cfg, s, Report(ExecutionReport(id, "2", Live, "", "")));
            && s'.calls == map[] && s'.reg.raced == map[] && s'.reg.orders == map[id := NoteExchangeId(r, "2")]
            && s'.reg.log == s.reg.log
  {
    var report := ExecutionReport(id, "2", Live, "", "");
    assert r.legs[0].exchangeOrderId == "1";
    assert Arbitrate(r, report) == Learned(r, report) == NoteExchangeId(r, "2");
  }

  lemma {:induction false} AmendLogged(cfg: Config, s: Sys, id: string, r: OrderRecord, price: string)
    requires s.calls == map[] && s.reg.raced == map[] && s.reg.orders == map[id := r]
    requires r.state == Live && r.venue != "" && r.venue in cfg.venues && s.reg.log.enabled && s.reg.log.disk == []
    ensures var s' := Next(cfg, Next(cfg, s, StageAmend(0, id, Some(price), None, None)), FinishAmend(0, Ok("3")));
            var e := AmendedEvent(AmendedRecord(r, price, r.quantity, "3"));
            && s'.reg.log == s.reg.log.(events := s.reg.log.events + [e])
            && s'.sent == s.sent
  {
  }

  /** What the crash finds in the log: the amend's version 3 over a replayed chain of one leg. */
  lemma {:induction false} ReplayedGap(staged: OrderRecord, price: string)
    requires AsStaged(staged)
    ensures var acked := AckedPlace(staged, "1");
            var amended := AmendedRecord(NoteExchangeId(acked, "2"), price, acked.quantity, "3");
            var orders := Replay([PlaceSubmittedEvent(staged), PlaceAcceptedEvent(acked)] + [AmendedEvent(amended)]);
            staged.clientOrderId in orders && !Gapless(orders[staged.clientOrderId].legs)
  {
    var acked := AckedPlace(staged, "1");
    var amended := AmendedRecord(NoteExchangeId(acked, "2"), price, acked.quantity, "3");
    var before := [PlaceSubmittedEvent(staged), PlaceAcceptedEvent(acked)];
    var events := before + [AmendedEvent(amended)];
    assert events[..2] == before && before[..1] == [PlaceSubmittedEvent(staged)];
    assert Replay(before) == ApplyLogEvent(Replay(before[..1]), before[1]);
    ReplayIsGaplessIff(events, staged.clientOrderId);
  }

  lemma {:induction false} AdoptThenAmendRuns(cfg: Config, codec: Codec<Event>, req: OrderRequest, venue: string,
                                              price: string, cut: nat)
    returns (s: Sys)
    requires venue != "" && venue in cfg.venues
    ensures var staged := StagedRecord(req, venue);
            var acked := AckedPlace(staged, "1");
            var amended := AmendedRecord(NoteExchangeId(acked, "2"), price, acked.quantity, "3");
            var events := [PlaceSubmittedEvent(staged), PlaceAcceptedEvent(acked)] + [AmendedEvent(amended)];
            s.reg.log == Journal(true, events, [])
    ensures var moves := AdoptThenAmend(req, venue, price, cut);
            && RunMoves(cfg, codec, Init(true, []), moves) == RunMoves(cfg, codec, s, [Crash(TakeWorklist, cut)])
            && (DurableRun(cfg, codec, Init(true, []), moves)
                <==> DurableRun(cfg, codec, s, [Crash(TakeWorklist, cut)]))
  {
    hide Next, StagedRecord, RunMoves, DurableRun, Init;
    var id, r := req.clientOrderId, AckedPlace(StagedRecord(req, venue), "1");
    var a, b, c := StagePlace(0, req, venue, None), SendPlace(0), FinishPlace(0, Ok("1"));
    var d := Report(ExecutionReport(id, "2", Live, "", ""));
    var e, f, g := StageAmend(0, id, Some(price), None, None), FinishAmend(0, Ok("3")), Crash(TakeWorklist, cut);
    var s0 := Init(true, []);
    var s2 := Next(cfg, Next(cfg, s0, a), b);
    var s4 := Next(cfg, Next(cfg, s2, c), d);
    s := Next(cfg, Next(cfg, s4, e), f);
    StagedIsAsStaged(req, venue);
    PlacedAndAcked(cfg, req, venue);
    AdoptedUnlogged(cfg, Next(cfg, s2, c), id, r);
    AmendLogged(cfg, s4, id, NoteExchangeId(r, "2"), price);
    FirstPairThenRest(cfg, codec, s0, a, b, [Do(c), Do(d)] + ([Do(e), Do(f)] + [g]));
    FirstPairThenRest(cfg, codec, s2, c, d, [Do(e), Do(f)] + [g]);
    FirstPairThenRest(cfg, codec, s4, e, f, [g]);
    assert AdoptThenAmend(req, venue, price, cut) == [Do(a), Do(b)] + ([Do(c), Do(d)] + ([Do(e), Do(f)] + [g]));
  }

  /** A leg adopted from a report is not brought back by the log. From an empty log, a report under an unknown id,
      an acknowledged amend and a durable crash leave the next process with a version gap. */
  lemma {:induction false} AdoptionThenAmendBreaksRestart(cfg: Config, codec: Codec<Event>, req: OrderRequest,
                                                          venue: string, price: string)
    returns (cut: nat)
    requires Faithful(codec) && venue != "" && venue in cfg.venues
    ensures var moves := AdoptThenAmend(req, venue, price, cut);
            var s := RunMoves(cfg, codec, Init(true, []), moves);
            && DurableRun(cfg, codec, Init(true, []), moves)
            && req.clientOrderId in s.reg.orders && !Gapless(s.reg.orders[req.clientOrderId].legs)
  {
    hide Replay, ReadBack, AdoptThenAmend, Gapless, StagedRecord, Init;
    var s := AdoptThenAmendRuns(cfg, codec, req, venue, price, 0);
    cut := |Encode(codec, s.reg.log.events)|;
    s := AdoptThenAmendRuns(cfg, codec, req, venue, price, cut);
    PrefixIsReadBack(codec, s.reg.log, |s.reg.log.events|);
    assert s.reg.log.events[..|s.reg.log.events|] == s.reg.log.events;
    StagedIsAsStaged(req, venue);
    ReplayedGap(StagedRecord(req, venue), price);
  }

  lemma StagedIsAsStaged(req: OrderRequest, venue: string)
    ensures var r := StagedRecord(req, venue);
            AsStaged(r) && r.clientOrderId == req.clientOrderId && r.venue == venue
  {
  }
}
