/** The order-management system as the object it is: one method per critical section, each leaving
    exactly the registry its specification says. */
module Oms {
  import opened Wrappers
  import opened OrderLifecycle
  import opened DecimalText
  import opened OrderRecords
  import opened OmsRegistry
  import opened EventLogs
  import opened Exposure
  import opened Risk
  import opened PositionLimit
  import OmsMachine
  import OmsCrash

  /** How a critical section can fail to end: by an exception, or by an operation whose behaviour is
      undefined, after which nothing is stated. */
  datatype Fault = Throws | Overflows

  const FAULTED := Error("fault", "the critical section did not end")

  /** A report applied to a record that has learned its id: counted, and logged if it changed anything. */
  function AfterReport(s: Registry, id: string, learned: OrderRecord, r: OrderRecord): Registry {
    var s1 := Put(s, id, r);
    if r != learned then Logged(s1.(stats := s1.stats.(applied := s1.stats.applied + 1)), StateEvent(r))
    else s1.(stats := s1.stats.(stale := s1.stats.stale + 1))
  }

  lemma {:induction false} AfterReportOverwrites(s: Registry, id: string, over: OrderRecord, learned: OrderRecord,
                                                 r: OrderRecord)
    ensures AfterReport(Put(s, id, over), id, learned, r) == AfterReport(s, id, learned, r)
  {
  }

  /** Applying a report is learning its id, then observing. */
  lemma {:induction false} ArbitrationIsAfterReport(s: Registry, id: string, report: ExecutionReport, s1: Registry)
    requires id in s.orders
    requires var r, x := s.orders[id], report.exchangeOrderId;
             s1 == if Adopts(r, report) then Put(NoteDiscovery(s, id, x), id, NoteExchangeId(r, x)) else s
    ensures var r1 := s1.orders[id];
            var learned := if r1.exchangeOrderId == "" then NoteExchangeId(r1, report.exchangeOrderId) else r1;
            && learned == Learned(s.orders[id], report)
            && OmsRegistry.ApplyReport(s, id, report) == AfterReport(s1, id, learned, Arbitrate(s.orders[id], report))
  {
  }

  /** The registry loaded from a log of `events` cut at any byte is the one a restart begins with. */
  lemma {:induction false} LoadingIsRebooting(c: Codec<Event>, events: seq<Event>, cut: nat, disk: seq<bool>,
                                              sent: seq<string>)
    requires Faithful(c) && cut <= |Encode(c, events)|
    ensures var scan := ScanFrom(c, Encode(c, events)[..cut], 0);
            && scan.outcome != Corrupt
            && OmsMachine.Boot(Replay(scan.events), Journal(true, scan.events, disk))
            == OmsCrash.Reboot(c, Journal(true, events, disk), cut, sent).reg
  {
    CrashPrefixRecovery(c, events, cut);
    assert cut == |Encode(c, events)| ==> Encode(c, events)[..cut] == Encode(c, events);
  }

  /** The fill half of an observation: forward only. */
  method ObserveFill(r: OrderRecord, filled: string, average: string) returns (r': OrderRecord, changed: bool)
    ensures r' == Observe(r, r.state, filled, average, "", "", false)
    ensures if changed then r'.filledQuantity != r.filledQuantity else r' == r
  {
    r', changed := r, false;
    AdvanceIsNews(r.filledQuantity, filled);
    if FillAdvances(r.filledQuantity, filled) {
      r' := r'.(filledQuantity := filled);
      if average != "" {
        r' := r'.(averageFillPrice := average);
      }
      changed := true;
    }
  }

  /** The other half: a legal transition, and price and quantity when a snapshot gives them. */
  method ObserveLifecycle(r: OrderRecord, state: OrderState, price: string, quantity: string)
    returns (r': OrderRecord, changed: bool)
    ensures r' == r.(state := Advance(r.state, state), price := if price != "" then price else r.price,
                     quantity := if quantity != "" then quantity else r.quantity)
    ensures changed <==> r' != r
  {
    r', changed := r, false;
    if state != r.state {
      var legal := CanTransition(r.state, state);
      if legal {
        r' := r'.(state := state);
        changed := true;
      }
    }
    if price != "" && price != r.price {
      r' := r'.(price := price);
      changed := true;
    }
    if quantity != "" && quantity != r.quantity {
      r' := r'.(quantity := quantity);
      changed := true;
    }
  }

  class OrderManagementSystem {
    const cfg: Config
    const risk: RiskConfig
    const log: EventLog?<Event>
    var orders: map<string, OrderRecord>
    var racedReports: map<string, seq<ExecutionReport>>
    var discoveredLegNotes: seq<(string, string)>
    var stats: Stats
    /** The events in the file: those loaded from the text it had at first, and those appended since. */
    ghost var logged: seq<Event>
    ghost var loaded: seq<Event>
    ghost var base: string

    ghost function Files(): set<object> {
      if log == null then {} else {log}
    }

    /** The file is a text whose whole lines are the events loaded, then the encoding of the rest. */
    ghost predicate Valid()
      reads this`logged, this`loaded, this`base, Files()
    {
      && loaded <= logged
      && if log == null then logged == []
         else ScanFrom(log.codec, base, 0) == Scan(loaded, |base|, Clean)
              && log.content == base + Encode(log.codec, logged[|loaded|..])
    }

    ghost function State(): Registry
      reads this, Files()
    {
      Registry(orders, racedReports, discoveredLegNotes, stats,
               Journal(log != null, logged, if log == null then [] else log.stream))
    }

    constructor (cfg: Config, risk: RiskConfig, log: EventLog?<Event>)
      ensures this.cfg == cfg && this.risk == risk && this.log == log
      ensures State() == OmsMachine.Boot(map[], Journal(log != null, [], if log == null then [] else log.stream))
      ensures log == null || log.content == "" ==> Valid()
    {
      this.cfg, this.risk, this.log := cfg, risk, log;
      orders, racedReports, discoveredLegNotes, stats := map[], map[], [], Stats(0, 0, 0, 0, 0, 0);
      logged, loaded, base := [], [], "";
    }

    // ---- the log ----

    method AppendOrError(e: Event) returns (error: Option<Error>)
      requires Valid()
      modifies this`logged, Files()
      ensures Valid() && State() == old(State()).(log := Appended(old(State()).log, e))
      ensures error == if AppendSucceeds(old(State()).log) then None else Some(APPEND_FAILED)
    {
      if log == null {
        return None;
      }
      error := log.Append(e);
      if error.None? {
        ghost var appended := logged[|loaded|..];
        EncodeAppend(log.codec, appended, [e]);
        assert Encode(log.codec, [e]) == Line(log.codec, e) + Encode(log.codec, [e][1..]);
        logged := logged + [e];
        assert logged[|loaded|..] == appended + [e];
        assert base + (Encode(log.codec, appended) + Line(log.codec, e))
               == base + Encode(log.codec, appended) + Line(log.codec, e);
      }
    }

    method AppendEvent(e: Event)
      requires Valid()
      modifies this`logged, this`stats, Files()
      ensures Valid() && State() == Logged(old(State()), e)
    {
      var error := AppendOrError(e);
      if error.Some? {
        stats := stats.(logWriteFailures := stats.logWriteFailures + 1);
      }
    }

    /** Rebuilds the registry from the whole lines of whatever is in the file; a terminated line that
        does not parse fails the load after the lines before it. */
    method LoadFromLog() returns (result: Result<bool>)
      requires orders == map[] && (log == null ==> Valid())
      modifies this`orders, this`logged, this`base, this`loaded, Files()
      ensures log == null ==> Valid() && State() == old(State()) && result == Ok(false)
      ensures log != null ==>
                var scan := ScanFrom(log.codec, old(log.content), 0);
                && orders == Replay(scan.events) && log.stream == old(log.stream)
                && (result.Err? <==> scan.outcome == Corrupt)
                && (result.Ok? ==> && Valid() && result.value == (scan.outcome == Torn)
                                   && State() == old(State()).(orders := Replay(scan.events),
                                                               log := Journal(true, scan.events, old(log.stream))))
                && (result.Err? ==> log.content == old(log.content) && logged == old(logged))
    {
      if log == null {
        return Ok(false);
      }
      ghost var content := log.content;
      AcceptedFileIsClean(log.codec, content);
      hide EventLogs.ScanFrom, OmsRegistry.Replay;
      var delivered, outcome := log.Replay();
      ReplayAll(delivered);
      if outcome.Ok? {
        base, loaded, logged := log.content, delivered, delivered;
        assert log.content == base + Encode(log.codec, logged[|loaded|..]);
      }
      return outcome;
    }

    method ReplayAll(events: seq<Event>)
      requires orders == map[]
      modifies this`orders
      ensures orders == Replay(events)
    {
      var i := 0;
      while i < |events|
        invariant 0 <= i <= |events|
        invariant orders == Replay(events[..i])
      {
        assert events[..i + 1][..i] == events[..i];
        ApplyLogEvent(events[i]);
        i := i + 1;
      }
      assert events[..i] == events;
    }

    method ApplyLogEvent(e: Event)
      modifies this`orders
      ensures orders == OmsRegistry.ApplyLogEvent(old(orders), e)
    {
      match e
      case PlaceSubmitted(id, terms) =>
        orders := orders[id := FreshRecord(id, terms, Pending)];
      case PlaceAccepted(id, terms, x, version) =>
        orders := orders[id := WithFirstLeg(FreshRecord(id, terms, Live), x, version)];
      case Adopted(id, terms, x, version, state, filled, average) =>
        var r := WithFirstLeg(FreshRecord(id, terms, state), x, version);
        orders := orders[id := r.(filledQuantity := filled, averageFillPrice := average, adopted := true)];
      case RejectionRecorded(id, symbol, venue, code, reason) =>
        var r := FreshRecord(id, OrderTerms("", "", Buy, Limit, "", "", "GTC"), Pending);
        if id in orders {
          r := orders[id];
        }
        r := r.(clientOrderId := id, state := Rejected, symbol := symbol, venue := venue);
        orders := orders[id := r.(rejection := Some(Error(code, reason)))];
      case Amended(id, price, quantity, _, x, version) =>
        if id in orders && version != 0 {
          var r := orders[id];
          if price != "" {
            r := r.(price := price);
          }
          if quantity != "" {
            r := r.(quantity := quantity);
          }
          if version <= |r.legs| {
            if x != "" {
              r := r.(legs := r.legs[version - 1 := r.legs[version - 1].(exchangeOrderId := x)]);
            }
          } else {
            r := r.(legs := r.legs + [OrderLeg(version, x)]);
          }
          if x != "" {
            r := r.(exchangeOrderId := x);
          }
          orders := orders[id := r];
        }
      case StateChanged(id, state, filled, average, x, _) =>
        if id in orders {
          var _ := ApplyObservation(id, state, filled, average, "", "", true);
          if orders[id].exchangeOrderId == "" {
            NoteExchangeId(id, x);
          }
        }
    }

    // ---- one record ----

    /** Whether anything changed is reported exactly. */
    method ApplyObservation(id: string, state: OrderState, filled: string, average: string, price: string,
                            quantity: string, lifecycle: bool)
      returns (changed: bool)
      requires id in orders
      modifies this`orders
      ensures orders == old(orders)[id := Observe(old(orders)[id], state, filled, average, price, quantity, lifecycle)]
      ensures changed <==> orders[id] != old(orders)[id]
    {
      hide OrderRecords.FillAdvances;
      var r, more := orders[id], false;
      r, changed := ObserveFill(r, filled, average);
      if lifecycle {
        r, more := ObserveLifecycle(r, state, price, quantity);
      }
      orders := orders[id := r];
      changed := changed || more;
    }

    method NoteExchangeId(id: string, x: string)
      requires id in orders
      modifies this`orders
      ensures orders == old(orders)[id := OrderRecords.NoteExchangeId(old(orders)[id], x)]
    {
      var r := orders[id];
      if x != "" && x != r.exchangeOrderId {
        r := r.(exchangeOrderId := x);
        r := r.(legs := PushLeg(r.legs, x));
      }
      orders := orders[id := r];
    }

    method NoteDiscoveredLeg(id: string, x: string)
      modifies this`discoveredLegNotes
      ensures discoveredLegNotes == PushNote(old(discoveredLegNotes), (id, x))
    {
      discoveredLegNotes := discoveredLegNotes + [(id, x)];
      ghost var all := discoveredLegNotes;
      while |discoveredLegNotes| > MAX_DISCOVERED_LEG_NOTES
        invariant |discoveredLegNotes| <= |all| && discoveredLegNotes == all[|all| - |discoveredLegNotes|..]
        invariant |all| > MAX_DISCOVERED_LEG_NOTES ==> |discoveredLegNotes| >= MAX_DISCOVERED_LEG_NOTES
        invariant |all| <= MAX_DISCOVERED_LEG_NOTES ==> discoveredLegNotes == all
      {
        discoveredLegNotes := discoveredLegNotes[1..];
      }
    }

    method AdoptUnknownLeg(id: string, x: string)
      requires id in orders
      modifies this`orders, this`stats, this`discoveredLegNotes
      ensures State() == Put(NoteDiscovery(old(State()), id, x), id, OrderRecords.NoteExchangeId(old(orders)[id], x))
    {
      NoteExchangeId(id, x);
      stats := stats.(legsDiscovered := stats.legsDiscovered + 1);
      NoteDiscoveredLeg(id, x);
    }

    // ---- execution reports ----

    method DrainRacedReports(id: string) returns (raced: seq<ExecutionReport>)
      modifies this`racedReports
      ensures raced == RacedFor(old(State()), id) && State() == Drained(old(State()), id)
    {
      raced := [];
      if id in racedReports {
        raced := racedReports[id];
      }
      racedReports := racedReports - {id};
    }

    method ApplyReport(id: string, report: ExecutionReport, lifecycle: bool)
      requires Valid() && id in orders
      modifies this`orders, this`stats, this`logged, Files()
      ensures Valid()
      ensures var r := old(orders)[id];
              var learned := if r.exchangeOrderId == "" then OrderRecords.NoteExchangeId(r, report.exchangeOrderId)
                             else r;
              State() == AfterReport(old(State()), id, learned,
                                     Observe(learned, report.state, report.filledQuantity, report.averageFillPrice, "",
                                             "", lifecycle))
    {
      hide OrderRecords.FillAdvances, OrderManagementSystem.Valid;
      if orders[id].exchangeOrderId == "" {
        NoteExchangeId(id, report.exchangeOrderId);
      }
      ghost var learned := orders[id];
      var changed := ApplyObservation(id, report.state, report.filledQuantity, report.averageFillPrice, "", "",
                                      lifecycle);
      assert State() == Put(old(State()), id, orders[id]);
      AfterReportOverwrites(old(State()), id, orders[id], learned, orders[id]);
      CountReport(id, changed, learned);
    }

    method CountReport(id: string, changed: bool, ghost learned: OrderRecord)
      requires Valid() && id in orders && (changed <==> orders[id] != learned)
      modifies this`stats, this`logged, Files()
      ensures Valid() && State() == AfterReport(old(State()), id, learned, orders[id])
    {
      assert orders[id := orders[id]] == orders;
      if changed {
        stats := stats.(applied := stats.applied + 1);
        AppendEvent(StateEvent(orders[id]));
      } else {
        stats := stats.(stale := stats.stale + 1);
      }
    }

    method ApplyArbitratedReport(id: string, report: ExecutionReport)
      requires Valid() && id in orders
      modifies this`orders, this`stats, this`discoveredLegNotes, this`logged, Files()
      ensures Valid() && State() == OmsRegistry.ApplyReport(old(State()), id, report)
    {
      var lifecycle := true;
      if report.exchangeOrderId != "" && orders[id].legs != [] {
        var found := LegIndexOf(orders[id].legs, report.exchangeOrderId);
        if found.None? {
          AdoptUnknownLeg(id, report.exchangeOrderId);
        } else if found.value + 1 < |orders[id].legs| {
          lifecycle := false;
        }
      }
      ArbitrationIsAfterReport(old(State()), id, report, State());
      ApplyReport(id, report, lifecycle);
    }

    method ApplyBatch(id: string, raced: seq<ExecutionReport>)
      requires Valid() && id in orders
      modifies this`orders, this`stats, this`discoveredLegNotes, this`logged, Files()
      ensures Valid() && State() == ApplyReports(old(State()), id, raced)
    {
      var i := 0;
      while i < |raced|
        invariant 0 <= i <= |raced| && Valid() && id in orders
        invariant ApplyReports(State(), id, raced[i..]) == ApplyReports(old(State()), id, raced)
      {
        ApplyArbitratedReport(id, raced[i]);
        assert raced[i..][1..] == raced[i + 1..];
        i := i + 1;
      }
    }

    method OnExecutionReport(report: ExecutionReport)
      requires Valid()
      modifies this`orders, this`stats, this`racedReports, this`discoveredLegNotes, this`logged, Files()
      ensures Valid() && State() == Deliver(old(State()), report)
    {
      var id := report.clientOrderId;
      if id in racedReports {
        racedReports := racedReports[id := racedReports[id] + [report]];
        stats := stats.(buffered := stats.buffered + 1);
        return;
      }
      if id !in orders {
        stats := stats.(unknown := stats.unknown + 1);
        return;
      }
      ApplyArbitratedReport(id, report);
    }

    // ---- place ----

    /** Ends unless limits are set and the projection reads a fill that did not parse, which throws, or
        negates the least 64-bit value, which overflows. */
    method CheckCandidate(keys: seq<string>, symbol: string, replaced: Option<OrderRecord>, side: Side, price: string,
                          quantity: string)
      returns (verdict: Option<Error>, fault: Option<Fault>)
      requires Enumerates(keys, orders)
      ensures fault.Some? <==> LimitsFor(risk, symbol).Some? && !Checkable(orders, symbol, replaced, side, quantity)
      ensures fault == Some(Throws) ==> !Projectable(orders, symbol, replaced)
      ensures fault == Some(Overflows) ==> !ProjectionStays(orders, symbol, replaced, side, quantity)
      ensures fault.None? ==> verdict == Verdict(risk, orders, keys, symbol, replaced, side, price, quantity)
    {
      hide Exposure.Projectable, Exposure.ProjectionStays;
      var limits := LimitsFor(risk, symbol);
      if limits.None? {
        return None, None;
      }
      var end := ProjectedPosition(orders, keys, symbol, replaced, side, quantity);
      match end
      case Summed(text) => return CheckRisk(limits, RiskOrder(price, quantity, text)), None;
      case Threw => return None, Some(Throws);
      case Overflowed => return None, Some(Overflows);
    }

    /** Does not end exactly when the verdict on a new order does not; a throw leaves everything as it was. */
    method PlaceStage(req: OrderRequest, venue: string, keys: seq<string>)
      returns (decision: PlaceDecision, fault: Option<Fault>)
      requires Valid() && Enumerates(keys, orders)
      modifies this`orders, this`stats, this`racedReports, this`logged, Files()
      ensures fault != Some(Overflows) ==> Valid()
      ensures fault.Some? <==>
                && req.clientOrderId !in old(orders)
                && (if venue == "" then cfg.defaultVenue else venue) in cfg.venues
                               && LimitsFor(risk, req.instrumentId).Some?
                               && !Checkable(old(orders), req.instrumentId, None, req.side, req.quantity)
      ensures fault == Some(Throws) ==> !Projectable(old(orders), req.instrumentId, None) && State() == old(State())
      ensures fault == Some(Overflows) ==> !ProjectionStays(old(orders), req.instrumentId, None, req.side, req.quantity)
      ensures fault.None? ==>
                var symbol := req.instrumentId;
                var verdict := Verdict(risk, old(orders), keys, symbol, None, req.side, req.price, req.quantity);
                          (State(), decision) == OmsRegistry.PlaceStage(old(State()), cfg, req, venue, verdict)
    {
      hide Verdict, Checkable, Exposure.Projectable, Exposure.ProjectionStays;
      fault := None;
      var id := req.clientOrderId;
      if id in orders {
        if orders[id].rejection.Some? {
          return Refused(orders[id].rejection.value), None;
        }
        return Replayed(orders[id]), None;
      }
      var v := if venue == "" then cfg.defaultVenue else venue;
      if v !in cfg.venues {
        return Refused(Error("invalid_request", "unsupported venue")), None;
      }
      var candidate := StagedRecord(req, v);
      var verdict: Option<Error>;
      verdict, fault := CheckCandidate(keys, req.instrumentId, None, req.side, req.price, req.quantity);
      if fault.Some? {
        return Refused(FAULTED), fault;
      }
      if verdict.Some? {
        decision := RecordRefusal(candidate.(state := Rejected, rejection := verdict), verdict.value);
      } else {
        decision := RecordIntent(candidate);
      }
    }

    /** A risk rejection is on record, and logged, before it is answered. */
    method RecordRefusal(candidate: OrderRecord, reason: Error) returns (decision: PlaceDecision)
      requires Valid()
      modifies this`orders, this`stats, this`logged, Files()
      ensures Valid()
              && State() == Put(Logged(old(State()), RejectedEvent(candidate)), candidate.clientOrderId, candidate)
      ensures decision == Refused(if AppendSucceeds(old(State()).log) then reason else APPEND_FAILED)
    {
      var error := AppendOrError(RejectedEvent(candidate));
      orders := orders[candidate.clientOrderId := candidate];
      if error.Some? {
        stats := stats.(logWriteFailures := stats.logWriteFailures + 1);
        return Refused(error.value);
      }
      return Refused(reason);
    }

    /** Born pending: the intent is logged, or nothing is recorded and nothing is sent. */
    method RecordIntent(candidate: OrderRecord) returns (decision: PlaceDecision)
      requires Valid()
      modifies this`orders, this`stats, this`racedReports, this`logged, Files()
      ensures Valid()
      ensures var s, id := Logged(old(State()), PlaceSubmittedEvent(candidate)), candidate.clientOrderId;
              if AppendSucceeds(old(State()).log)
              then decision == Send
                   && State() == Put(s, id, candidate).(raced := if id in s.raced then s.raced else s.raced[id := []])
              else decision == Refused(Error("persistence", "order was not sent to the venue")) && State() == s
    {
      var error := AppendOrError(PlaceSubmittedEvent(candidate));
      if error.Some? {
        stats := stats.(logWriteFailures := stats.logWriteFailures + 1);
        return Refused(Error("persistence", "order was not sent to the venue"));
      }
      orders := orders[candidate.clientOrderId := candidate];
      if candidate.clientOrderId !in racedReports {
        racedReports := racedReports[candidate.clientOrderId := []];
      }
      return Send;
    }

    method PlaceRejected(id: string, e: Error)
      requires Valid() && id in orders
      modifies this`orders, this`stats, this`logged, Files()
      ensures Valid() && State() == OmsRegistry.PlaceRejected(old(State()), id, e)
    {
      var legal := CanTransition(orders[id].state, Rejected);
      if legal {
        orders := orders[id := orders[id].(state := Rejected, rejection := Some(e))];
        AppendEvent(RejectedEvent(orders[id]));
      }
    }

    /** The acked record: its first id, and pending no more. */
    method MarkAcked(id: string, x: string)
      requires id in orders
      modifies this`orders
      ensures orders == old(orders)[id := AckedPlace(old(orders)[id], x)]
    {
      NoteExchangeId(id, x);
      var legal := CanTransition(orders[id].state, Live);
      if legal {
        orders := orders[id := orders[id].(state := Live)];
      }
    }

    method PlaceAcked(id: string, x: string, raced: seq<ExecutionReport>) returns (result: Result<OrderRecord>)
      requires Valid() && id in orders
      modifies this`orders, this`stats, this`discoveredLegNotes, this`logged, Files()
      ensures Valid() && State() == OmsRegistry.PlaceAcked(old(State()), id, x, raced)
      ensures result == if AppendSucceeds(old(State()).log) then Ok(orders[id])
                        else Err(Error("persistence", "order was accepted by the venue; retry replays it"))
    {
      hide OrderRecords.ArbitrateAll, OmsRegistry.ApplyReports, OrderManagementSystem.Valid;
      MarkAcked(id, x);
      hide OmsRegistry.AckedPlace;
      var error := AppendOrError(PlaceAcceptedEvent(orders[id]));
      if error.Some? {
        stats := stats.(logWriteFailures := stats.logWriteFailures + 1);
        return Err(Error("persistence", "order was accepted by the venue; retry replays it"));
      }
      ApplyBatch(id, raced);
      return Ok(orders[id]);
    }

    method PlaceFinish(id: string, answer: Result<string>) returns (result: Result<OrderRecord>)
      requires Valid()
      modifies this`orders, this`stats, this`racedReports, this`discoveredLegNotes, this`logged, Files()
      ensures Valid() && (State(), result) == OmsRegistry.PlaceFinish(old(State()), id, answer)
    {
      var raced := DrainRacedReports(id);
      if id !in orders {
        return Err(Error("internal", "pending place vanished"));
      }
      match answer
      case Err(e) =>
        if e.code != "transport" {
          PlaceRejected(id, e);
        } else {
          ApplyBatch(id, raced);
        }
        return Err(e);
      case Ok(x) =>
        result := PlaceAcked(id, x, raced);
    }

    // ---- cancel ----

    method CancelStage(id: string) returns (decision: CancelDecision)
      ensures decision == OmsRegistry.CancelStage(State(), cfg, id)
    {
      if id !in orders {
        return CancelRefused(Error("not_found", "unknown clientOrderId"));
      }
      var r := orders[id];
      if r.state == Pending {
        return CancelRefused(Error("order_pending", "order is pending venue acknowledgement"));
      }
      if r.state == Canceled {
        return AlreadyCanceled(r);
      }
      if IsTerminal(r.state) {
        return CancelRefused(Error("order_terminal", "order is terminal"));
      }
      if !HasConnector(cfg, r.venue) {
        return CancelRefused(Error("internal", "no connector for venue"));
      }
      return SendCancel;
    }

    method CancelFinish(id: string, answer: Result<string>) returns (result: Result<OrderRecord>)
      requires Valid()
      modifies this`orders, this`stats, this`logged, Files()
      ensures Valid() && (State(), result) == OmsRegistry.CancelFinish(old(State()), id, answer)
    {
      if id !in orders {
        return Err(Error("not_found", "unknown clientOrderId"));
      }
      if answer.Err? {
        return Err(answer.error);
      }
      NoteExchangeId(id, answer.value);
      var legal := CanTransition(orders[id].state, Canceled);
      if legal {
        orders := orders[id := orders[id].(state := Canceled)];
        assert orders == old(orders)[id := CanceledRecord(old(orders)[id], answer.value)];
        AppendEvent(StateEvent(orders[id]));
      }
      assert orders == old(orders)[id := CanceledRecord(old(orders)[id], answer.value)];
      return Ok(orders[id]);
    }

    // ---- amend ----

    /** Does not end exactly when the verdict on an amendable order does not; a throw leaves everything as
        it was. */
    method AmendStage(id: string, newPrice: Option<string>, newQuantity: Option<string>, keys: seq<string>)
      returns (decision: AmendDecision, fault: Option<Fault>)
      requires Enumerates(keys, orders)
      modifies this`racedReports
      ensures fault.Some? <==>
                && (newPrice.Some? || newQuantity.Some?) && id in orders && orders[id].state != Pending
                && !IsTerminal(orders[id].state)
                && HasConnector(cfg, orders[id].venue) && LimitsFor(risk, orders[id].symbol).Some?
                && !Checkable(orders, orders[id].symbol, Some(orders[id]), orders[id].side,
                              if newQuantity.Some? then newQuantity.value else orders[id].quantity)
      ensures fault == Some(Throws)
              ==> id in orders && !Projectable(orders, orders[id].symbol, Some(orders[id])) && State() == old(State())
      ensures fault == Some(Overflows) ==>
                id in orders && !ProjectionStays(orders, orders[id].symbol, Some(orders[id]), orders[id].side,
                                                 if newQuantity.Some? then newQuantity.value else orders[id].quantity)
      ensures fault.None? && id in orders ==>
                var r := orders[id];
                var verdict := Verdict(risk, orders, keys, r.symbol, Some(r), r.side,
                                       if newPrice.Some? then newPrice.value else r.price,
                                       if newQuantity.Some? then newQuantity.value else r.quantity);
                (State(), decision) == OmsRegistry.AmendStage(old(State()), cfg, id, newPrice, newQuantity, verdict)
      ensures id !in orders
              ==> (State(), decision) == OmsRegistry.AmendStage(old(State()), cfg, id, newPrice, newQuantity, None)
    {
      hide Verdict, Checkable, Exposure.Projectable, Exposure.ProjectionStays;
      fault := None;
      if newPrice.None? && newQuantity.None? {
        return AmendRefused(Error("protocol", "amend requires a new price and/or quantity")), None;
      }
      if id !in orders {
        return AmendRefused(Error("not_found", "unknown clientOrderId")), None;
      }
      var r := orders[id];
      if r.state == Pending {
        return AmendRefused(Error("order_pending", "order is pending venue acknowledgement")), None;
      }
      if IsTerminal(r.state) {
        return AmendRefused(Error("order_terminal", "order is terminal")), None;
      }
      if !HasConnector(cfg, r.venue) {
        return AmendRefused(Error("internal", "no connector for venue")), None;
      }
      var price := if newPrice.Some? then newPrice.value else r.price;
      var quantity := if newQuantity.Some? then newQuantity.value else r.quantity;
      var verdict: Option<Error>;
      verdict, fault := CheckCandidate(keys, r.symbol, Some(r), r.side, price, quantity);
      if fault.Some? {
        return AmendRefused(FAULTED), fault;
      }
      if verdict.Some? {
        return AmendRefused(verdict.value), None;
      }
      if id in racedReports {
        return AmendRefused(Error("order_busy", "a place/amend is still in flight")), None;
      }
      racedReports := racedReports[id := []];
      return SendAmend(price, quantity), None;
    }

    method AmendFailed(id: string, raced: seq<ExecutionReport>)
      requires Valid() && id in orders
      modifies this`orders, this`stats, this`discoveredLegNotes, this`logged, Files()
      ensures Valid() && State() == OmsRegistry.AmendFailed(old(State()), id, raced)
    {
      if orders[id].legs != [] {
        var newest := FindNewestUnknown(orders[id].legs, raced);
        if newest != "" {
          AdoptUnknownLeg(id, newest);
        }
      }
      assert State() == Put(State(), id, orders[id]) by {
        assert orders[id := orders[id]] == orders;
      }
      ApplyBatch(id, raced);
    }

    method AmendAcked(id: string, price: string, quantity: string, x: string, raced: seq<ExecutionReport>)
      returns (result: Result<OrderRecord>)
      requires Valid() && id in orders
      modifies this`orders, this`stats, this`discoveredLegNotes, this`logged, Files()
      ensures Valid() && State() == OmsRegistry.AmendAcked(old(State()), id, price, quantity, x, raced)
      ensures result == if AppendSucceeds(old(State()).log) then Ok(orders[id])
                        else Err(Error("persistence", "the amend was accepted by the venue"))
    {
      var r := orders[id].(price := price, quantity := quantity);
      orders := orders[id := AppendAmendLeg(r, x)];
      var error := AppendOrError(AmendedEvent(orders[id]));
      if error.Some? {
        stats := stats.(logWriteFailures := stats.logWriteFailures + 1);
        return Err(Error("persistence", "the amend was accepted by the venue"));
      }
      ApplyBatch(id, raced);
      return Ok(orders[id]);
    }

    method AmendFinish(id: string, price: string, quantity: string, answer: Result<string>)
      returns (result: Result<OrderRecord>)
      requires Valid()
      modifies this`orders, this`stats, this`racedReports, this`discoveredLegNotes, this`logged, Files()
      ensures Valid() && (State(), result) == OmsRegistry.AmendFinish(old(State()), id, price, quantity, answer)
    {
      var raced := DrainRacedReports(id);
      if id !in orders {
        return Err(Error("not_found", "unknown clientOrderId"));
      }
      match answer
      case Err(e) =>
        AmendFailed(id, raced);
        return Err(e);
      case Ok(x) =>
        result := AmendAcked(id, price, quantity, x, raced);
    }

    // ---- reconcile ----

    method RecordFromSnapshot(snap: OrderSnapshot, venue: string)
      requires Valid()
      modifies this`orders, this`stats, this`logged, Files()
      ensures Valid()
              && State() == Put(Logged(old(State()), AdoptedEvent(AdoptedRecord(snap, venue))), snap.clientOrderId,
                                AdoptedRecord(snap, venue))
    {
      var r := AdoptedRecord(snap, venue);
      AppendEvent(AdoptedEvent(r));
      orders := orders[snap.clientOrderId := r];
    }

    method ReconcileSnapshot(snap: OrderSnapshot, venue: string)
      requires Valid()
      modifies this`orders, this`stats, this`logged, Files()
      ensures Valid() && State() == ListOne(old(State()), venue, snap)
    {
      var id := snap.clientOrderId;
      if id == "" || id in racedReports {
        return;
      }
      if id !in orders {
        RecordFromSnapshot(snap, venue);
        return;
      }
      var learned := false;
      if orders[id].exchangeOrderId == "" && snap.exchangeOrderId != "" {
        NoteExchangeId(id, snap.exchangeOrderId);
        learned := true;
      }
      assert orders[id] == Backfilled(old(orders)[id], snap.exchangeOrderId);
      var changed := ApplyObservation(id, snap.state, snap.filledQuantity, snap.averageFillPrice, snap.price,
                                      snap.quantity, true);
      assert orders == old(orders)[id := ListedRecord(old(orders), venue, snap)];
      LogIfChanged(id, learned || changed);
    }

    /** One venue's open-order listing, under the lock. */
    method ReconcileListing(venue: string, snaps: seq<OrderSnapshot>)
      requires Valid()
      modifies this`orders, this`stats, this`logged, Files()
      ensures Valid() && State() == ListAll(old(State()), venue, snaps)
    {
      var i := 0;
      while i < |snaps|
        invariant 0 <= i <= |snaps| && Valid()
        invariant ListAll(State(), venue, snaps[i..]) == ListAll(old(State()), venue, snaps)
      {
        ReconcileSnapshot(snaps[i], venue);
        assert snaps[i..][1..] == snaps[i + 1..];
        i := i + 1;
      }
    }

    /** The ids to look up, in the order the hash map is walked. */
    method ReconcileWorklist(keys: seq<string>) returns (open: seq<string>)
      requires Enumerates(keys, orders)
      ensures forall id :: id in open <==> id in Worklist(State())
    {
      open := [];
      var i := 0;
      while i < |keys|
        invariant 0 <= i <= |keys|
        invariant forall id :: id in open <==> id in keys[..i] && id in Worklist(State())
      {
        if !IsTerminal(orders[keys[i]].state) && keys[i] !in racedReports {
          open := open + [keys[i]];
        }
        i := i + 1;
      }
      assert keys[..i] == keys;
    }

    /** The answer to one lookup, under the lock. */
    method ReconcileAnswer(id: string, found: Result<Option<OrderSnapshot>>)
      requires Valid()
      modifies this`orders, this`stats, this`discoveredLegNotes, this`logged, Files()
      ensures Valid() && State() == Resolve(old(State()), id, found)
    {
      if id !in orders {
        return;
      }
      if found.Ok? && found.value.Some? {
        ReconcileFound(id, found.value.value);
        return;
      }
      if ConclusivelyAbsent(found) {
        var legal := CanTransition(orders[id].state, Rejected);
        if legal {
          orders := orders[id := orders[id].(state := Rejected, rejection := Some(VENUE_ABSENT))];
          AppendEvent(StateEvent(orders[id]));
          AppendEvent(RejectedEvent(orders[id]));
        }
      }
    }

    method ReconcileFound(id: string, snap: OrderSnapshot)
      requires Valid() && id in orders
      modifies this`orders, this`stats, this`discoveredLegNotes, this`logged, Files()
      ensures Valid() && State() == ResolveFound(old(State()), id, snap)
    {
      hide OrderRecords.FillAdvances, OrderManagementSystem.Valid;
      var learned := LearnFromSnapshot(id, snap.exchangeOrderId);
      var changed := ApplyObservation(id, snap.state, snap.filledQuantity, snap.averageFillPrice, snap.price,
                                      snap.quantity, true);
      assert orders == old(orders)[id := orders[id]];
      LogIfChanged(id, learned || changed);
    }

    method LogIfChanged(id: string, changed: bool)
      requires Valid() && id in orders
      modifies this`stats, this`logged, Files()
      ensures Valid() && State() == if changed then Logged(old(State()), StateEvent(orders[id])) else old(State())
    {
      if changed {
        AppendEvent(StateEvent(orders[id]));
      }
    }

    /** What a looked-up id teaches the leg table. */
    method LearnFromSnapshot(id: string, x: string) returns (learned: bool)
      requires id in orders
      modifies this`orders, this`stats, this`discoveredLegNotes
      ensures var s, r := old(State()), old(orders)[id];
              var adopts := r.exchangeOrderId != "" && IsUnknown(r.legs, x);
              && State() == Put(if adopts then NoteDiscovery(s, id, x) else s, id, LearnedFromSnapshot(r, x))
              && (learned <==> adopts || (r.exchangeOrderId == "" && x != ""))
    {
      learned := false;
      assert orders[id := orders[id]] == orders;
      if orders[id].exchangeOrderId == "" && x != "" {
        NoteExchangeId(id, x);
        learned := true;
      } else if x != "" {
        var known := LegIndexOf(orders[id].legs, x);
        if known.None? {
          AdoptUnknownLeg(id, x);
          learned := true;
        }
      }
    }

    method DrainDiscoveredLegNotes() returns (notes: seq<(string, string)>)
      modifies this`discoveredLegNotes
      ensures notes == old(discoveredLegNotes) && State() == old(State()).(notes := [])
    {
      notes := discoveredLegNotes;
      discoveredLegNotes := [];
    }
  }

  /** The last buffered report whose id no leg knows. */
  method FindNewestUnknown(legs: seq<OrderLeg>, raced: seq<ExecutionReport>) returns (newest: string)
    ensures newest == NewestUnknown(legs, raced)
  {
    newest := "";
    var i := 0;
    while i < |raced|
      invariant 0 <= i <= |raced|
      invariant newest == NewestUnknown(legs, raced[..i])
    {
      assert raced[..i + 1][..i] == raced[..i];
      if raced[i].exchangeOrderId != "" {
        var known := LegIndexOf(legs, raced[i].exchangeOrderId);
        if known.None? {
          newest := raced[i].exchangeOrderId;
        }
      }
      i := i + 1;
    }
    assert raced[..i] == raced;
  }
}
