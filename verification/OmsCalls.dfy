/** Place, cancel and amend from the caller's arguments to the record, the log and the answer, over any
    steps of other threads in between. */
module OmsCalls {
  import opened Wrappers
  import opened OrderLifecycle
  import opened OrderRecords
  import opened OmsRegistry
  import opened OmsMachine
  import opened OmsTheorems

  function VenueAsked(cfg: Config, venue: string): string {
    if venue == "" then cfg.defaultVenue else venue
  }

  /** The venue works the order: it can still be amended or canceled. */
  predicate AtWork(state: OrderState) {
    state == Live || state == PartiallyFilled
  }

  predicate Reachable(cfg: Config, r: OrderRecord) {
    if r.venue == "" then cfg.defaultVenue in cfg.venues else r.venue in cfg.venues
  }

  // ---- a call stays open until it is answered ----

  predicate Answers(step: Step, t: nat) {
    (step.FinishPlace? || step.FinishCancel? || step.FinishAmend?) && step.t == t
  }

  predicate NeverAnswered(steps: seq<Step>, t: nat) {
    forall i :: 0 <= i < |steps| ==> !Answers(steps[i], t)
  }

  /** The same call; a place may have been handed to its connector meanwhile. */
  predicate SameCall(c: Call, c': Call) {
    if c.PlaceCall? then c'.PlaceCall? && c'.staged == c.staged else c' == c
  }

  lemma {:induction false} StepKeepsCall(cfg: Config, s: Sys, step: Step, t: nat)
    requires t in s.calls && !Answers(step, t)
    ensures t in Next(cfg, s, step).calls && SameCall(s.calls[t], Next(cfg, s, step).calls[t])
  {
    hide PlaceStage, PlaceFinish, AmendStage, AmendFinish, CancelFinish, ListAll, Resolve, Deliver;
  }

  lemma {:induction false} CallStaysOpen(cfg: Config, s: Sys, steps: seq<Step>, t: nat)
    requires Inv(s) && t in s.calls && NeverAnswered(steps, t)
    ensures Inv(Run(cfg, s, steps))
    ensures t in Run(cfg, s, steps).calls && SameCall(s.calls[t], Run(cfg, s, steps).calls[t])
    decreases |steps|
  {
    hide Next, Inv;
    if steps != [] {
      StepKeepsInv(cfg, s, steps[0]);
      StepKeepsCall(cfg, s, steps[0], t);
      CallStaysOpen(cfg, Next(cfg, s, steps[0]), steps[1..], t);
    }
  }

  // ---- place ----

  /** What was asked for: the request's own fields, good till canceled unless it says otherwise, and the
      default venue unless one is named. */
  predicate AsRequested(cfg: Config, req: OrderRequest, venue: string, symbol: string, at: string, side: Side,
                        orderType: OrderType, price: string, quantity: string, timeInForce: string)
  {
    && symbol == req.instrumentId && side == req.side && orderType == req.orderType
    && price == req.price && quantity == req.quantity
    && timeInForce == (if req.timeInForce == "" then "GTC" else req.timeInForce)
    && at == VenueAsked(cfg, venue)
  }

  predicate RecordAsRequested(cfg: Config, req: OrderRequest, venue: string, r: OrderRecord) {
    && r.clientOrderId == req.clientOrderId && !r.adopted
    && AsRequested(cfg, req, venue, r.symbol, r.venue, r.side, r.orderType, r.price, r.quantity, r.timeInForce)
  }

  predicate TermsAsRequested(cfg: Config, req: OrderRequest, venue: string, terms: OrderTerms) {
    AsRequested(cfg, req, venue, terms.symbol, terms.venue, terms.side, terms.orderType, terms.price, terms.quantity,
                terms.timeInForce)
  }

  /** The journal after one append that may fail. */
  predicate Appends(j: Journal, j': Journal, e: Event) {
    && j'.enabled == j.enabled
    && j'.events == (if j.enabled && (j.disk == [] || j.disk[0]) then j.events + [e] else j.events)
    && j'.disk == (if j.enabled && j.disk != [] then j.disk[1..] else j.disk)
  }

  predicate Unfilled(r: OrderRecord) {
    r.filledQuantity == "0" && r.averageFillPrice == "" && r.exchangeOrderId == "" && r.legs == []
  }

  /** The whole decision of a place: an id on record answers as it stands; a place without a venue leaves
      nothing; a refusal by the limits is on record and logged as exactly that refusal; what cannot be
      logged leaves nothing; and all else is recorded and logged as requested, and sent. */
  lemma {:induction false} PlaceIsDecided(s: Registry, cfg: Config, req: OrderRequest, venue: string,
                                          verdict: Option<Error>)
    ensures var (s', decision) := PlaceStage(s, cfg, req, venue, verdict);
            var id := req.clientOrderId;
            if id in s.orders then
              && s' == s
              && decision == match s.orders[id].rejection case Some(e) => Refused(e) case None => Replayed(s.orders[id])
            else if VenueAsked(cfg, venue) !in cfg.venues then
              s' == s && decision.Refused? && decision.error.code == "invalid_request"
            else if verdict.Some? then
              && id in s'.orders && s'.orders == s.orders[id := s'.orders[id]] && s'.raced == s.raced
              && RecordAsRequested(cfg, req, venue, s'.orders[id]) && Unfilled(s'.orders[id])
              && s'.orders[id].state == Rejected && s'.orders[id].rejection == verdict
              && decision.Refused?
              && (if AppendSucceeds(s.log) then decision.error == verdict.value else decision.error.code == "io")
              && Appends(s.log, s'.log,
                         RejectionRecorded(id, req.instrumentId, VenueAsked(cfg, venue), verdict.value.code,
                                                          verdict.value.message))
            else if !AppendSucceeds(s.log) then
              && s'.orders == s.orders && s'.raced == s.raced && s'.log.events == s.log.events
              && decision.Refused? && decision.error.code == "persistence"
            else
              && id in s'.orders && s'.orders == s.orders[id := s'.orders[id]]
              && RecordAsRequested(cfg, req, venue, s'.orders[id]) && Unfilled(s'.orders[id])
              && s'.orders[id].state == Pending && s'.orders[id].rejection.None?
              && decision == Send && id in s'.raced
              && exists terms ::
                TermsAsRequested(cfg, req, venue, terms) && Appends(s.log, s'.log, PlaceSubmitted(id, terms))
  {
    if req.clientOrderId !in s.orders && verdict.None? {
      var r := StagedRecord(req, VenueAsked(cfg, venue));
      assert TermsAsRequested(cfg, req, venue, TermsOf(r));
    }
  }

  lemma {:induction false} OpenCallFits(s: Sys, t: nat)
    requires Inv(s) && t in s.calls
    ensures CallFits(s, t, s.calls[t]) && WellFormedRecord(CallId(s.calls[t]), s.reg.orders[CallId(s.calls[t])])
  {
    assert CallFits(s, t, s.calls[t]);
    assert WellFormedRecord(CallId(s.calls[t]), s.reg.orders[CallId(s.calls[t])]);
  }

  /** A thread's place, from the request to the moment the venue answers: it is sent exactly for an id not
      on record, at a venue there is, unless the limits refuse it or the log fails; and while it is open
      the record is as requested and untouched. */
  lemma {:induction false} PlaceStaysAsRequested(cfg: Config, s: Sys, t: nat, req: OrderRequest, venue: string,
                                                 verdict: Option<Error>, between: seq<Step>)
    requires Inv(s) && t !in s.calls && NeverAnswered(between, t)
    ensures var s1 := Next(cfg, s, StagePlace(t, req, venue, verdict));
            var s2 := Run(cfg, s1, between);
            var id := req.clientOrderId;
            && (t in s1.calls <==> && id !in s.reg.orders && VenueAsked(cfg, venue) in cfg.venues && verdict.None?
                                   && AppendSucceeds(s.reg.log))
            && (t in s1.calls ==>
                  && Inv(s2) && t in s2.calls && s2.calls[t].PlaceCall? && CallId(s2.calls[t]) == id
                  && id in s2.reg.orders && AsStaged(s2.reg.orders[id])
                  && RecordAsRequested(cfg, req, venue, s2.reg.orders[id]))
  {
    hide Inv, Run, Progress, Later;
    var step := StagePlace(t, req, venue, verdict);
    var s1 := Next(cfg, s, step);
    StagePlaceKeepsInv(cfg, s, step);
    PlaceIsDecided(s.reg, cfg, req, venue, verdict);
    if t in s1.calls {
      CallStaysOpen(cfg, s1, between, t);
      OpenCallFits(Run(cfg, s1, between), t);
    }
  }

  /** The record, the answer and the next log event after a place as requested is answered. */
  ghost predicate PlaceAnswered(cfg: Config, req: OrderRequest, venue: string, before: Registry, after: Registry,
                                answer: Result<string>, result: Result<OrderRecord>)
  {
    var id := req.clientOrderId;
    && id in after.orders && after.orders == before.orders[id := after.orders[id]] && id !in after.raced
    && RecordAsRequested(cfg, req, venue, after.orders[id])
    && match answer
       case Ok(x) =>
         && after.orders[id].state != Pending && (x != "" ==> [OrderLeg(1, x)] <= after.orders[id].legs)
         && (if AppendSucceeds(before.log) then result == Ok(after.orders[id])
             else result.Err? && result.error.code == "persistence")
         && (before.log.enabled && AppendSucceeds(before.log) ==>
               && before.log.events < after.log.events
               && exists terms :: TermsAsRequested(cfg, req, venue, terms)
                                  && after.log.events[|before.log.events|] == PlaceAccepted(id, terms, x, 1))
       case Err(e) =>
         && result == Err(e)
         && if e.code == "transport" then
              after.orders[id].rejection.None?
              && (RacedFor(before, id) == [] ==> AsStaged(after.orders[id]) && after.log == before.log)
            else
              && after.orders[id].state == Rejected && after.orders[id].rejection == Some(e)
              && Unfilled(after.orders[id])
              && Appends(before.log, after.log,
                         RejectionRecorded(id, req.instrumentId, VenueAsked(cfg, venue), e.code, e.message))
  }

  lemma {:induction false} FailedPlaceIsRecorded(s: Registry, cfg: Config, req: OrderRequest, venue: string, e: Error)
    requires var id := req.clientOrderId;
             id in s.orders && AsStaged(s.orders[id]) && RecordAsRequested(cfg, req, venue, s.orders[id])
    ensures PlaceAnswered(cfg, req, venue, s, PlaceFinish(s, req.clientOrderId, Err(e)).0, Err(e),
                          PlaceFinish(s, req.clientOrderId, Err(e)).1)
  {
    hide Arbitrate, Later, FillOf, PlaceAcked;
    var r, raced := s.orders[req.clientOrderId], RacedFor(s, req.clientOrderId);
    ReportsKeepTerms(r, raced);
    ArbitrateAllIsLater(r, raced);
  }

  lemma {:induction false} AckedPlaceIsRecorded(s: Registry, cfg: Config, req: OrderRequest, venue: string, x: string)
    requires var id := req.clientOrderId;
             id in s.orders && AsStaged(s.orders[id]) && RecordAsRequested(cfg, req, venue, s.orders[id])
    ensures PlaceAnswered(cfg, req, venue, s, PlaceFinish(s, req.clientOrderId, Ok(x)).0, Ok(x),
                          PlaceFinish(s, req.clientOrderId, Ok(x)).1)
  {
    hide Arbitrate, Later, FillOf, ApplyReports, PlaceRejected;
    var id, raced := req.clientOrderId, RacedFor(s, req.clientOrderId);
    var acked := AckedPlace(s.orders[id], x);
    ReportsKeepTerms(acked, raced);
    AckStays(acked, raced);
    assert acked.legs == if x == "" then [] else [OrderLeg(1, x)];
    assert TermsAsRequested(cfg, req, venue, TermsOf(acked));
    var logged := Logged(Put(Drained(s, id), id, acked), PlaceAcceptedEvent(acked));
    assert LogGrows(logged.log, ApplyReports(logged, id, raced).log);
  }

  lemma {:induction false} AckStays(acked: OrderRecord, raced: seq<ExecutionReport>)
    requires acked.state == Live
    ensures ArbitrateAll(acked, raced).state != Pending && acked.legs <= ArbitrateAll(acked, raced).legs
  {
    ArbitrateAllIsLater(acked, raced);
  }

  /** A place from the request to its answer, over any steps of other threads and any reports that race
      it: recorded, logged and answered as requested and as the venue says. */
  lemma {:induction false} PlaceDoesWhatWasAsked(cfg: Config, s: Sys, t: nat, req: OrderRequest, venue: string,
                                                 between: seq<Step>, answer: Result<string>)
    requires Inv(s) && t !in s.calls && NeverAnswered(between, t)
    ensures var s1 := Next(cfg, s, StagePlace(t, req, venue, None));
            var s2 := Run(cfg, s1, between);
            var s3 := Next(cfg, s2, FinishPlace(t, answer));
            t in s1.calls && t in s2.calls && s2.calls[t].PlaceCall? && s2.calls[t].sent ==>
              && t !in s3.calls
              && PlaceAnswered(cfg, req, venue, s2.reg, s3.reg, answer,
                               PlaceFinish(s2.reg, req.clientOrderId, answer).1)
  {
    hide Inv, Run, PlaceAnswered;
    var s1 := Next(cfg, s, StagePlace(t, req, venue, None));
    PlaceStaysAsRequested(cfg, s, t, req, venue, None, between);
    if t in s1.calls {
      var s2 := Run(cfg, s1, between);
      match answer {
        case Ok(x) => AckedPlaceIsRecorded(s2.reg, cfg, req, venue, x);
        case Err(e) => FailedPlaceIsRecorded(s2.reg, cfg, req, venue, e);
      }
    }
  }

  // ---- cancel ----

  /** The whole decision of a cancel: sent exactly for an order at work with a connector, a canceled one
      answers with its record, and each other case has its own error. */
  lemma {:induction false} CancelIsDecided(s: Registry, cfg: Config, id: string)
    ensures var decision := CancelStage(s, cfg, id);
            if id !in s.orders then decision.CancelRefused? && decision.error.code == "not_found"
            else
              match s.orders[id].state
              case Pending => decision.CancelRefused? && decision.error.code == "order_pending"
              case Canceled => decision == AlreadyCanceled(s.orders[id])
              case Filled => decision.CancelRefused? && decision.error.code == "order_terminal"
              case Rejected => decision.CancelRefused? && decision.error.code == "order_terminal"
              case _ => if Reachable(cfg, s.orders[id]) then decision == SendCancel
                        else decision.CancelRefused? && decision.error.code == "internal"
  {
  }

  /** The record, the answer and the log after a cancel is answered. */
  predicate CancelAnswered(id: string, before: Registry, after: Registry, answer: Result<string>,
                           result: Result<OrderRecord>)
    requires id in before.orders
  {
    var r := before.orders[id];
    match answer
    case Err(e) => after == before && result == Err(e)
    case Ok(x) =>
      && id in after.orders && after.orders == before.orders[id := after.orders[id]] && after.raced == before.raced
      && result == Ok(after.orders[id])
      && after.orders[id].state == (if AtWork(r.state) then Canceled else r.state)
      && after.orders[id].filledQuantity == r.filledQuantity && after.orders[id].quantity == r.quantity
      && after.orders[id].price == r.price && after.orders[id].rejection == r.rejection
      && (if AtWork(r.state) then
            var r' := after.orders[id];
            Appends(before.log, after.log, StateChanged(r.clientOrderId, Canceled, r.filledQuantity, r.averageFillPrice,
                                                        r'.exchangeOrderId, LegVersion(r')))
          else after.log == before.log)
  }

  lemma {:induction false} AnsweredCancelIsRecorded(s: Registry, id: string, answer: Result<string>)
    requires id in s.orders && s.orders[id].state != Pending
    ensures CancelAnswered(id, s, CancelFinish(s, id, answer).0, answer, CancelFinish(s, id, answer).1)
  {
  }

  lemma {:induction false} CancelOpens(cfg: Config, s: Sys, t: nat, id: string)
    requires t !in s.calls
    ensures var s1 := Next(cfg, s, StageCancel(t, id));
            && s1.reg == s.reg
            && (t in s1.calls
                <==> id in s.reg.orders && AtWork(s.reg.orders[id].state) && Reachable(cfg, s.reg.orders[id]))
            && (t in s1.calls ==> s1.calls[t] == CancelCall(id))
  {
    CancelIsDecided(s.reg, cfg, id);
  }

  lemma {:induction false} CancelCloses(cfg: Config, s: Sys, t: nat, id: string, answer: Result<string>)
    requires t in s.calls && s.calls[t] == CancelCall(id) && id in s.reg.orders && s.reg.orders[id].state != Pending
    ensures var s' := Next(cfg, s, FinishCancel(t, answer));
            && t !in s'.calls && id in s'.reg.orders
            && CancelAnswered(id, s.reg, s'.reg, answer, CancelFinish(s.reg, id, answer).1)
            && (answer.Ok? ==> IsTerminal(s'.reg.orders[id].state))
  {
    hide CancelFinish;
    AnsweredCancelIsRecorded(s.reg, id, answer);
  }

  /** A cancel from the caller to the venue's answer, over any steps of other threads: opened exactly for
      an order at work, and an acknowledged one ends it unless something else has ended it meanwhile. */
  lemma {:induction false} CancelDoesWhatWasAsked(cfg: Config, s: Sys, t: nat, id: string, between: seq<Step>,
                                                  answer: Result<string>)
    requires Inv(s) && t !in s.calls && NeverAnswered(between, t)
    ensures var s1 := Next(cfg, s, StageCancel(t, id));
            var s2 := Run(cfg, s1, between);
            var s3 := Next(cfg, s2, FinishCancel(t, answer));
            && s1.reg == s.reg
            && (t in s1.calls
                <==> id in s.reg.orders && AtWork(s.reg.orders[id].state) && Reachable(cfg, s.reg.orders[id]))
            && (t in s1.calls ==>
                  && id in s2.reg.orders && id in s3.reg.orders && t !in s3.calls
                  && CancelAnswered(id, s2.reg, s3.reg, answer, CancelFinish(s2.reg, id, answer).1)
                  && (answer.Ok? ==> IsTerminal(s3.reg.orders[id].state)))
  {
    hide Inv, Run, Next, CancelAnswered, CancelFinish;
    var s1 := Next(cfg, s, StageCancel(t, id));
    StepKeepsInv(cfg, s, StageCancel(t, id));
    CancelOpens(cfg, s, t, id);
    if t in s1.calls {
      var s2 := Run(cfg, s1, between);
      CallStaysOpen(cfg, s1, between, t);
      OpenCallFits(s2, t);
      CancelCloses(cfg, s2, t, id, answer);
    }
  }

  // ---- amend ----

  /** What is asked for, or else what is on record. */
  function Wanted(asked: Option<string>, recorded: string): string {
    match asked
    case Some(value) => value
    case None => recorded
  }

  /** The whole decision of an amend: sent exactly for an order at work with a connector, within the
      limits, with no other place or amend open; with the values asked for, and those on record for the
      rest. Each other case has its own error and changes nothing. */
  lemma {:induction false} AmendIsDecided(s: Registry, cfg: Config, id: string, price: Option<string>,
                                          quantity: Option<string>, verdict: Option<Error>)
    ensures var (s', decision) := AmendStage(s, cfg, id, price, quantity, verdict);
            if price.None? && quantity.None? then
              s' == s && decision.AmendRefused? && decision.error.code == "protocol"
            else if id !in s.orders then s' == s && decision.AmendRefused? && decision.error.code == "not_found"
            else if s.orders[id].state == Pending
                 then s' == s && decision.AmendRefused? && decision.error.code == "order_pending"
            else if !AtWork(s.orders[id].state)
                 then s' == s && decision.AmendRefused? && decision.error.code == "order_terminal"
            else if !Reachable(cfg, s.orders[id])
                 then s' == s && decision.AmendRefused? && decision.error.code == "internal"
            else if verdict.Some? then s' == s && decision == AmendRefused(verdict.value)
            else if id in s.raced then s' == s && decision.AmendRefused? && decision.error.code == "order_busy"
            else
              && s' == s.(raced := s.raced[id := []])
              && decision == SendAmend(Wanted(price, s.orders[id].price), Wanted(quantity, s.orders[id].quantity))
  {
  }

  /** The report is the last of the batch under an id the order does not know. */
  predicate LastUnknown(r: OrderRecord, raced: seq<ExecutionReport>, i: int) {
    && 0 <= i < |raced| && Unknown(r, raced[i].exchangeOrderId)
    && forall j :: i < j < |raced| ==> !Unknown(r, raced[j].exchangeOrderId)
  }

  predicate Unknown(r: OrderRecord, id: string) {
    id != "" && forall k :: 0 <= k < |r.legs| ==> r.legs[k].exchangeOrderId != id
  }

  /** The record, the answer and the next log event after an amend to these values is answered. A lost ack
      shows in the last unknown id among the reports that raced it: that is the next leg. */
  ghost predicate AmendAnswered(id: string, price: string, quantity: string, before: Registry, after: Registry,
                                answer: Result<string>, result: Result<OrderRecord>)
    requires id in before.orders
  {
    var r := before.orders[id];
    && id in after.orders && after.orders == before.orders[id := after.orders[id]] && id !in after.raced
    && match answer
       case Err(e) =>
         && result == Err(e)
         && after.orders[id].price == r.price && after.orders[id].quantity == r.quantity
         && (RacedFor(before, id) == [] ==> after.orders[id] == r && after.log == before.log)
         && (forall i :: r.legs != [] && LastUnknown(r, RacedFor(before, id), i)
                         && RacedFor(before, id)[i].exchangeOrderId != r.exchangeOrderId ==>
               r.legs + [OrderLeg(|r.legs| + 1, RacedFor(before, id)[i].exchangeOrderId)] <= after.orders[id].legs)
       case Ok(x) =>
         && after.orders[id].price == price && after.orders[id].quantity == quantity
         && (x != "" ==> r.legs + [OrderLeg(|r.legs| + 1, x)] <= after.orders[id].legs)
         && (if AppendSucceeds(before.log) then result == Ok(after.orders[id])
             else result.Err? && result.error.code == "persistence")
         && (before.log.enabled && AppendSucceeds(before.log) ==>
               && before.log.events < after.log.events
               && var next := after.log.events[|before.log.events|];
                  && next.Amended? && next.id == r.clientOrderId && next.price == price && next.quantity == quantity
                  && (x != "" ==> next.exchangeOrderId == x && next.version == |r.legs| + 1))
  }

  lemma {:induction false} NewestIsLast(r: OrderRecord, raced: seq<ExecutionReport>, i: int)
    requires LastUnknown(r, raced, i)
    ensures NewestUnknown(r.legs, raced) == raced[i].exchangeOrderId
    decreases |raced|
  {
    var last := |raced| - 1;
    if i < last {
      assert !Unknown(r, raced[last].exchangeOrderId);
      assert forall j :: 0 <= j < last ==> raced[..last][j] == raced[j];
      NewestIsLast(r, raced[..last], i);
    } else {
      assert Unknown(r, raced[i].exchangeOrderId);
    }
  }

  lemma {:induction false} FailedAmendIsRecorded(s: Registry, id: string, price: string, quantity: string, e: Error)
    requires id in s.orders
    ensures AmendAnswered(id, price, quantity, s, AmendFinish(s, id, price, quantity, Err(e)).0, Err(e),
                          AmendFinish(s, id, price, quantity, Err(e)).1)
  {
    hide Arbitrate, NewestUnknown, LastUnknown;
    var r, raced := s.orders[id], RacedFor(s, id);
    ReportsKeepTerms(AdoptNewest(r, raced), raced);
    LegsOnlyGrow(AdoptNewest(r, raced), raced);
    NothingUnknown(r.legs, raced);
    forall i | LastUnknown(r, raced, i)
      ensures 0 <= i < |raced| && NewestUnknown(r.legs, raced) == raced[i].exchangeOrderId != ""
    {
      NewestIsLast(r, raced, i);
      UnknownIsNamed(r, raced, i);
    }
  }

  lemma NothingUnknown(legs: seq<OrderLeg>, raced: seq<ExecutionReport>)
    ensures raced == [] ==> NewestUnknown(legs, raced) == ""
  {
  }

  lemma UnknownIsNamed(r: OrderRecord, raced: seq<ExecutionReport>, i: int)
    requires LastUnknown(r, raced, i)
    ensures 0 <= i < |raced| && raced[i].exchangeOrderId != ""
  {
  }

  lemma {:induction false} AckedAmendIsRecorded(s: Registry, id: string, price: string, quantity: string, x: string)
    requires id in s.orders
    ensures AmendAnswered(id, price, quantity, s, AmendFinish(s, id, price, quantity, Ok(x)).0, Ok(x),
                          AmendFinish(s, id, price, quantity, Ok(x)).1)
  {
    hide Arbitrate, Later, ApplyReports;
    var raced := RacedFor(s, id);
    var amended := AmendedRecord(s.orders[id], price, quantity, x);
    ReportsKeepTerms(amended, raced);
    ArbitrateAllIsLater(amended, raced);
    LegsOnlyGrow(amended, raced);
    var logged := Logged(Put(Drained(s, id), id, amended), AmendedEvent(amended));
    assert LogGrows(logged.log, ApplyReports(logged, id, raced).log);
  }

  lemma {:induction false} LegsOnlyGrow(r: OrderRecord, raced: seq<ExecutionReport>)
    ensures r.legs <= ArbitrateAll(r, raced).legs
  {
    ArbitrateAllIsLater(r, raced);
  }

  lemma {:induction false} AmendOpens(cfg: Config, s: Sys, t: nat, id: string, price: Option<string>,
                                      quantity: Option<string>, verdict: Option<Error>)
    requires t !in s.calls
    ensures var s1 := Next(cfg, s, StageAmend(t, id, price, quantity, verdict));
            && (t in s1.calls
                <==> && (price.Some? || quantity.Some?) && id in s.reg.orders && AtWork(s.reg.orders[id].state)
                                   && Reachable(cfg, s.reg.orders[id]) && verdict.None? && id !in s.reg.raced)
            && (t in s1.calls ==>
                  s1.calls[t] == AmendCall(id, Wanted(price, s.reg.orders[id].price),
                                           Wanted(quantity, s.reg.orders[id].quantity)))
  {
    hide AmendStage, AtWork, Reachable, Wanted;
    AmendIsDecided(s.reg, cfg, id, price, quantity, verdict);
    AtWorkIsNotPending(if id in s.reg.orders then s.reg.orders[id].state else Pending);
  }

  lemma AtWorkIsNotPending(state: OrderState)
    ensures AtWork(state) ==> state != Pending
  {
  }

  lemma {:induction false} AmendCloses(cfg: Config, s: Sys, t: nat, id: string, price: string, quantity: string,
                                       answer: Result<string>)
    requires t in s.calls && s.calls[t] == AmendCall(id, price, quantity) && id in s.reg.orders
    ensures var s' := Next(cfg, s, FinishAmend(t, answer));
            && t !in s'.calls
            && AmendAnswered(id, price, quantity, s.reg, s'.reg, answer,
                             AmendFinish(s.reg, id, price, quantity, answer).1)
  {
    hide AmendAnswered, AmendFinish;
    match answer
    case Ok(x) => AckedAmendIsRecorded(s.reg, id, price, quantity, x);
    case Err(e) => FailedAmendIsRecorded(s.reg, id, price, quantity, e);
  }

  /** An amend from the caller's arguments to the venue's answer, over any steps of other threads and any
      reports that race it: opened exactly for an order at work that the limits let pass and nobody else
      is changing; what was asked for is what is sent, recorded and logged, and a value not asked for is
      the one on record when it was sent. */
  lemma {:induction false} AmendDoesWhatWasAsked(cfg: Config, s: Sys, t: nat, id: string, price: Option<string>,
                                                 quantity: Option<string>, verdict: Option<Error>, between: seq<Step>,
                                                 answer: Result<string>)
    requires Inv(s) && t !in s.calls && NeverAnswered(between, t)
    ensures var s1 := Next(cfg, s, StageAmend(t, id, price, quantity, verdict));
            var s2 := Run(cfg, s1, between);
            var s3 := Next(cfg, s2, FinishAmend(t, answer));
            && (t in s1.calls
                <==> && (price.Some? || quantity.Some?) && id in s.reg.orders && AtWork(s.reg.orders[id].state)
                                   && Reachable(cfg, s.reg.orders[id]) && verdict.None? && id !in s.reg.raced)
            && (t in s1.calls ==>
                  var p, q := Wanted(price, s.reg.orders[id].price), Wanted(quantity, s.reg.orders[id].quantity);
                  && t in s2.calls && s2.calls[t] == AmendCall(id, p, q) && id in s2.reg.orders && t !in s3.calls
                  && AmendAnswered(id, p, q, s2.reg, s3.reg, answer, AmendFinish(s2.reg, id, p, q, answer).1))
  {
    hide Inv, Run, Next, AmendAnswered, AmendFinish;
    var step := StageAmend(t, id, price, quantity, verdict);
    var s1 := Next(cfg, s, step);
    StepKeepsInv(cfg, s, step);
    AmendOpens(cfg, s, t, id, price, quantity, verdict);
    if t in s1.calls {
      var s2 := Run(cfg, s1, between);
      CallStaysOpen(cfg, s1, between, t);
      OpenCallFits(s2, t);
      AmendCloses(cfg, s2, t, id, Wanted(price, s.reg.orders[id].price), Wanted(quantity, s.reg.orders[id].quantity),
                  answer);
    }
  }
}
