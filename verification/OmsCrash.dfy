/** Crashes at any byte of the log, restarts by replay, and how often an order can be sent. */
module OmsCrash {
  import opened Wrappers
  import opened OrderLifecycle
  import opened OrderRecords
  import opened OmsRegistry
  import opened OmsMachine
  import opened OmsReplay
  import opened EventLogs

  /** A run with crashes: a crash interrupts a step whose log writes have got as far as byte `cut`. */
  datatype Move = Do(step: Step) | Crash(during: Step, cut: nat)

  /** What is on disk when the process dies. */
  function FileAtCrash(codec: Codec<Event>, events: seq<Event>, cut: nat): string {
    var written := Encode(codec, events);
    if cut <= |written| then written[..cut] else written
  }

  /** The events a new process reads back; without a log there are none. */
  function ReadBack(codec: Codec<Event>, j: Journal, cut: nat): seq<Event> {
    if j.enabled then ScanFrom(codec, FileAtCrash(codec, j.events, cut), 0).events else []
  }

  /** The new process: nothing survives but the log, scanned from its bytes and replayed. */
  function Reboot(codec: Codec<Event>, j: Journal, cut: nat, sent: seq<string>): Sys {
    var events := ReadBack(codec, j, cut);
    Sys(Boot(Replay(events), Journal(j.enabled, events, j.disk)), map[], map[], {}, sent, 0, 0)
  }

  function Restarted(cfg: Config, codec: Codec<Event>, s: Sys, during: Step, cut: nat): Sys {
    Reboot(codec, Next(cfg, s, during).reg.log, cut, s.sent)
  }

  function NextMove(cfg: Config, codec: Codec<Event>, s: Sys, move: Move): Sys {
    match move
    case Do(step) => Next(cfg, s, step)
    case Crash(during, cut) => Restarted(cfg, codec, s, during, cut)
  }

  function RunMoves(cfg: Config, codec: Codec<Event>, s: Sys, moves: seq<Move>): Sys
    decreases |moves|
  {
    if moves == [] then s else RunMoves(cfg, codec, NextMove(cfg, codec, s, moves[0]), moves[1..])
  }

  /** Every crash keeps the bytes whose append had returned. */
  predicate Durable(codec: Codec<Event>, s: Sys, move: Move) {
    move.Crash? ==> move.cut >= |Encode(codec, s.reg.log.events)|
  }

  predicate DurableRun(cfg: Config, codec: Codec<Event>, s: Sys, moves: seq<Move>)
    decreases |moves|
  {
    moves == []
    || (Durable(codec, s, moves[0]) && DurableRun(cfg, codec, NextMove(cfg, codec, s, moves[0]), moves[1..]))
  }

  // ---- restarts ----

  lemma {:induction false} ReplayIsWellFiled(events: seq<Event>)
    ensures WellFiled(Replay(events))
  {
    if events != [] {
      ReplayIsWellFiled(events[..|events| - 1]);
      EventKeepsWellFiled(Replay(events[..|events| - 1]), events[|events| - 1]);
    }
  }

  lemma {:induction false} EventKeepsWellFiled(orders: map<string, OrderRecord>, e: Event)
    requires WellFiled(orders)
    ensures WellFiled(ApplyLogEvent(orders, e))
  {
  }

  /** A restart establishes the invariant and the refinement, whatever was lost. */
  lemma {:induction false} RestartIsSound(codec: Codec<Event>, j: Journal, cut: nat, sent: seq<string>)
    ensures Inv(Reboot(codec, j, cut, sent)) && Refined(Reboot(codec, j, cut, sent).reg)
  {
    ReplayIsWellFiled(ReadBack(codec, j, cut));
  }

  /** What a restart recovers: a prefix of the events written; if the crash kept the bytes of the
      events synced before it, those are all there. */
  lemma {:induction false} RestartRecovers(codec: Codec<Event>, synced: seq<Event>, j: Journal, cut: nat)
    requires Faithful(codec) && j.enabled && synced <= j.events
    ensures ReadBack(codec, j, cut) <= j.events
    ensures cut >= |Encode(codec, synced)| ==> synced <= ReadBack(codec, j, cut)
  {
    var size := |Encode(codec, j.events)|;
    var n := if cut <= size then cut else size;
    CrashPrefixRecovery(codec, j.events, n);
    assert Encode(codec, j.events)[..size] == Encode(codec, j.events);
    if cut >= |Encode(codec, synced)| {
      assert j.events[..|synced|] == synced;
      PrefixOfEncoding(codec, j.events, |synced|);
      DurablePrefixSurvives(codec, synced, j.events, n);
    }
  }

  /** Restart without loss: a crash that keeps the synced bytes, between log writes and with no
      failed append before it, brings back every order with its state, fill, average price and
      rejection. */
  lemma {:induction false} DurableRestartKeepsOutcomes(codec: Codec<Event>, s: Sys, cut: nat)
    requires Faithful(codec) && Refined(s.reg) && s.reg.log.enabled && s.reg.stats.logWriteFailures == 0
    requires cut >= |Encode(codec, s.reg.log.events)|
    ensures Agrees(Reboot(codec, s.reg.log, cut, s.sent).reg.orders, s.reg.orders)
  {
    RestartRecovers(codec, s.reg.log.events, s.reg.log, cut);
    assert ReadBack(codec, s.reg.log, cut) == s.reg.log.events;
  }

  /** Replay refines the runtime across crashes too, durable or not. */
  lemma {:induction false} ReplayRefinesAcrossCrashes(cfg: Config, codec: Codec<Event>, s: Sys, moves: seq<Move>)
    requires Inv(s) && Refined(s.reg)
    ensures Inv(RunMoves(cfg, codec, s, moves)) && Refined(RunMoves(cfg, codec, s, moves).reg)
    decreases |moves|
  {
    if moves != [] {
      match moves[0] {
        case Do(step) =>
          StepKeepsInv(cfg, s, step);
          StepRefines(cfg, s, step);
        case Crash(during, cut) => RestartIsSound(codec, Next(cfg, s, during).reg.log, cut, s.sent);
      }
      ReplayRefinesAcrossCrashes(cfg, codec, NextMove(cfg, codec, s, moves[0]), moves[1..]);
    }
  }

  // ---- at most one send ----

  predicate NoRepeats(ids: seq<string>) {
    forall i, j :: 0 <= i < j < |ids| ==> ids[i] != ids[j]
  }

  /** The intent to place `id` is in the log. */
  predicate HasIntent(events: seq<Event>, id: string) {
    exists i :: 0 <= i < |events| && events[i].PlaceSubmitted? && events[i].id == id
  }

  predicate SentIsKnown(reg: Registry, id: string) {
    id in reg.orders && HasIntent(reg.log.events, id)
  }

  predicate PlaceIsLogged(s: Sys, c: Call) {
    c.PlaceCall? ==> HasIntent(s.reg.log.events, CallId(c)) && (!c.sent ==> CallId(c) !in s.sent)
  }

  /** Every id ever sent is in the registry and its intent is in the log; a staged place is logged
      and not yet sent. */
  ghost predicate SendsAreLogged(s: Sys) {
    && s.reg.log.enabled
    && NoRepeats(s.sent)
    && (forall id :: id in s.sent ==> SentIsKnown(s.reg, id))
    && (forall t :: t in s.calls ==> PlaceIsLogged(s, s.calls[t]))
  }

  lemma {:induction false} IntentIsReplayed(events: seq<Event>, id: string)
    requires HasIntent(events, id)
    ensures id in Replay(events)
  {
    var last := events[|events| - 1];
    if last.PlaceSubmitted? && last.id == id {
    } else {
      var before := events[..|events| - 1];
      var i :| 0 <= i < |events| && events[i].PlaceSubmitted? && events[i].id == id;
      assert before[i] == events[i];
      IntentIsReplayed(before, id);
    }
  }

  lemma {:induction false} IntentSurvives(events: seq<Event>, more: seq<Event>, id: string)
    requires HasIntent(events, id) && events <= more
    ensures HasIntent(more, id)
  {
  }

  /** Steps that send nothing and open no place keep the sends logged. */
  lemma {:induction false} GrowthKeepsSends(s: Sys, s': Sys)
    requires SendsAreLogged(s) && LogGrows(s.reg.log, s'.reg.log) && Progress(s.reg.orders, s'.reg.orders)
             && s'.sent == s.sent
    requires forall t :: t in s'.calls && s'.calls[t].PlaceCall? ==> t in s.calls && s'.calls[t] == s.calls[t]
    ensures SendsAreLogged(s')
  {
  }

  lemma {:induction false} OpeningKeepsSends(s: Sys, reg: Registry, t: nat, r: OrderRecord)
    requires SendsAreLogged(s.(reg := reg)) && HasIntent(reg.log.events, r.clientOrderId) && r.clientOrderId !in s.sent
    ensures SendsAreLogged(Opened(s, reg, t, PlaceCall(r, false)))
  {
  }

  lemma {:induction false} StagingKeepsSends(cfg: Config, s: Sys, step: Step)
    requires Inv(s) && SendsAreLogged(s) && step.StagePlace?
    ensures SendsAreLogged(NextStagePlace(cfg, s, step))
  {
    hide OmsMachine.Inv, OmsMachine.Progress;
    StagePlaceKeepsInv(cfg, s, step);
    if step.t !in s.calls {
      var (reg, decision) := PlaceStage(s.reg, cfg, step.req, step.venue, step.verdict);
      GrowthKeepsSends(s, s.(reg := reg));
      if decision.Send? {
        var id := step.req.clientOrderId;
        assert reg.log.events[|s.reg.log.events|].PlaceSubmitted? && reg.log.events[|s.reg.log.events|].id == id;
        assert id in s.sent ==> SentIsKnown(s.reg, id);
        OpeningKeepsSends(s, reg, step.t, reg.orders[id]);
      }
    }
  }

  lemma {:induction false} SendingKeepsSends(s: Sys, step: Step)
    requires Inv(s) && SendsAreLogged(s) && step.SendPlace?
    ensures SendsAreLogged(NextSendPlace(s, step))
  {
  }

  lemma {:induction false} StepKeepsSends(cfg: Config, s: Sys, step: Step)
    requires Inv(s) && SendsAreLogged(s)
    ensures SendsAreLogged(Next(cfg, s, step))
  {
    if step.StagePlace? {
      StagingKeepsSends(cfg, s, step);
    } else if step.SendPlace? {
      SendingKeepsSends(s, step);
    } else {
      StepKeepsInv(cfg, s, step);
      StepOnlyAppends(cfg, s, step);
      OtherStepsSendNothing(cfg, s, step);
      GrowthKeepsSends(s, Next(cfg, s, step));
    }
  }

  lemma {:induction false} OtherStepsSendNothing(cfg: Config, s: Sys, step: Step)
    requires !step.StagePlace? && !step.SendPlace?
    ensures var s' := Next(cfg, s, step);
            && s'.sent == s.sent
            && forall t :: t in s'.calls && s'.calls[t].PlaceCall? ==> t in s.calls && s'.calls[t] == s.calls[t]
  {
  }

  lemma {:induction false} RestartKeepsSends(codec: Codec<Event>, s: Sys, j: Journal, cut: nat)
    requires Faithful(codec) && SendsAreLogged(s) && LogGrows(s.reg.log, j) && cut >= |Encode(codec, s.reg.log.events)|
    ensures SendsAreLogged(Reboot(codec, j, cut, s.sent))
  {
    var s' := Reboot(codec, j, cut, s.sent);
    RestartRecovers(codec, s.reg.log.events, j, cut);
    forall id | id in s'.sent ensures SentIsKnown(s'.reg, id) {
      assert SentIsKnown(s.reg, id);
      IntentSurvives(s.reg.log.events, s'.reg.log.events, id);
      IntentIsReplayed(s'.reg.log.events, id);
    }
  }

  /** At most one send across crashes: over any run in which every crash keeps the synced bytes, no
      client order id is handed to a connector's place twice. */
  lemma {:induction false} SentAtMostOnce(cfg: Config, codec: Codec<Event>, s: Sys, moves: seq<Move>)
    requires Faithful(codec) && Inv(s) && SendsAreLogged(s) && DurableRun(cfg, codec, s, moves)
    ensures NoRepeats(RunMoves(cfg, codec, s, moves).sent)
    decreases |moves|
  {
    if moves != [] {
      match moves[0] {
        case Do(step) =>
          StepKeepsInv(cfg, s, step);
          StepKeepsSends(cfg, s, step);
        case Crash(during, cut) =>
          RestartIsSound(codec, Next(cfg, s, during).reg.log, cut, s.sent);
          StepOnlyAppends(cfg, s, during);
          RestartKeepsSends(codec, s, Next(cfg, s, during).reg.log, cut);
      }
      SentAtMostOnce(cfg, codec, NextMove(cfg, codec, s, moves[0]), moves[1..]);
    }
  }

  /** Place, send, a crash that empties the log file, and the same place again. */
  function PlaceCrashPlace(req: OrderRequest, venue: string): seq<Move> {
    [Do(StagePlace(0, req, venue, None)), Do(SendPlace(0)), Crash(TakeWorklist, 0),
     Do(StagePlace(0, req, venue, None)), Do(SendPlace(0))]
  }

  /** One place staged and sent on a registry that does not know the id. */
  lemma {:induction false} UnknownIdIsSent(cfg: Config, s: Sys, req: OrderRequest, venue: string)
    requires venue != "" && venue in cfg.venues && s.calls == map[] && req.clientOrderId !in s.reg.orders
    requires AppendSucceeds(s.reg.log)
    ensures var s1 := Next(cfg, s, StagePlace(0, req, venue, None));
            var s2 := Next(cfg, s1, SendPlace(0));
            && s2.sent == s.sent + [req.clientOrderId]
            && s2.reg.log.enabled == s.reg.log.enabled
            && (s.reg.log.disk == [] ==> s2.reg.log.disk == [])
  {
  }

  lemma {:induction false} FirstPairThenRest(cfg: Config, codec: Codec<Event>, s: Sys, a: Step, b: Step,
                                             rest: seq<Move>)
    ensures var s' := Next(cfg, Next(cfg, s, a), b);
            && RunMoves(cfg, codec, s, [Do(a), Do(b)] + rest) == RunMoves(cfg, codec, s', rest)
            && (DurableRun(cfg, codec, s, [Do(a), Do(b)] + rest) <==> DurableRun(cfg, codec, s', rest))
  {
    hide Next;
    var moves := [Do(a), Do(b)] + rest;
    assert moves[1..] == [Do(b)] + rest && moves[1..][1..] == rest;
    assert RunMoves(cfg, codec, Next(cfg, s, a), [Do(b)] + rest)
           == RunMoves(cfg, codec, Next(cfg, Next(cfg, s, a), b), rest);
    assert DurableRun(cfg, codec, Next(cfg, s, a), [Do(b)] + rest)
           <==> DurableRun(cfg, codec, Next(cfg, Next(cfg, s, a), b), rest);
  }

  lemma {:induction false} FirstMoveThenRest(cfg: Config, codec: Codec<Event>, s: Sys, a: Move, rest: seq<Move>)
    ensures RunMoves(cfg, codec, s, [a] + rest) == RunMoves(cfg, codec, NextMove(cfg, codec, s, a), rest)
  {
    assert ([a] + rest)[1..] == rest;
  }

  /** Nothing is read back from an empty file, or without a log. */
  lemma {:induction false} CrashForgets(cfg: Config, codec: Codec<Event>, s: Sys)
    ensures var s' := Restarted(cfg, codec, s, TakeWorklist, 0);
            s'.reg.orders == map[] && s'.calls == map[] && s'.sent == s.sent && s'.reg.log.disk == s.reg.log.disk
  {
  }

  /** If the second process finds nothing in its log, it sends the order again: with the log off,
      and with it on when the crash takes the synced line of the intent. */
  lemma {:induction false} ForgottenIdIsSentTwice(cfg: Config, codec: Codec<Event>, logging: bool, req: OrderRequest,
                                                  venue: string)
    requires venue != "" && venue in cfg.venues
    ensures RunMoves(cfg, codec, Init(logging, []), PlaceCrashPlace(req, venue)).sent
            == [req.clientOrderId, req.clientOrderId]
  {
    hide Next, Restarted, DurableRun;
    var s := Init(logging, []);
    var stage, send := StagePlace(0, req, venue, None), SendPlace(0);
    var again := [Do(stage), Do(send)];
    UnknownIdIsSent(cfg, s, req, venue);
    var s2 := Next(cfg, Next(cfg, s, stage), send);
    CrashForgets(cfg, codec, s2);
    var s3 := Restarted(cfg, codec, s2, TakeWorklist, 0);
    UnknownIdIsSent(cfg, s3, req, venue);
    FirstPairThenRest(cfg, codec, s, stage, send, [Crash(TakeWorklist, 0)] + again);
    FirstMoveThenRest(cfg, codec, s2, Crash(TakeWorklist, 0), again);
    FirstPairThenRest(cfg, codec, s3, stage, send, []);
    assert PlaceCrashPlace(req, venue) == [Do(stage), Do(send)] + ([Crash(TakeWorklist, 0)] + again)
           && again + [] == again;
  }

  /** The log is what makes sending at most once: with a venue to place on, no durable run sends an
      id twice if and only if the log is on. */
  lemma {:induction false} SentAtMostOnceIffLogged(cfg: Config, codec: Codec<Event>, logging: bool, venue: string)
    requires Faithful(codec) && venue != "" && venue in cfg.venues
    ensures logging <==> forall moves :: DurableRun(cfg, codec, Init(logging, []), moves)
                                         ==> NoRepeats(RunMoves(cfg, codec, Init(logging, []), moves).sent)
  {
    if logging {
      forall moves | DurableRun(cfg, codec, Init(true, []), moves)
        ensures NoRepeats(RunMoves(cfg, codec, Init(true, []), moves).sent)
      {
        SentAtMostOnce(cfg, codec, Init(true, []), moves);
      }
    } else {
      var req := OrderRequest("id", "", Buy, Limit, "", "", "");
      var moves := PlaceCrashPlace(req, venue);
      ForgottenIdIsSentTwice(cfg, codec, false, req, venue);
      UnloggedRunsAreDurable(cfg, codec, Init(false, []), moves);
      var sent := RunMoves(cfg, codec, Init(false, []), moves).sent;
      assert sent[0] == sent[1];
      assert !NoRepeats(sent);
    }
  }

  lemma {:induction false} UnloggedRunsAreDurable(cfg: Config, codec: Codec<Event>, s: Sys, moves: seq<Move>)
    requires !s.reg.log.enabled && s.reg.log.events == []
    ensures DurableRun(cfg, codec, s, moves)
    decreases |moves|
  {
    if moves != [] {
      match moves[0] {
        case Do(step) => UnloggedStaysEmpty(cfg, s, step);
        case Crash(during, _) => UnloggedStaysEmpty(cfg, s, during);
      }
      UnloggedRunsAreDurable(cfg, codec, NextMove(cfg, codec, s, moves[0]), moves[1..]);
    }
  }

  lemma {:induction false} UnloggedStaysEmpty(cfg: Config, s: Sys, step: Step)
    requires !s.reg.log.enabled && s.reg.log.events == []
    ensures !Next(cfg, s, step).reg.log.enabled && Next(cfg, s, step).reg.log.events == []
  {
  }
}
