/** The order-management system as a step machine: each locked region is one step, venue calls are
    open between steps, and steps of different threads interleave freely. */
module OmsMachine {
  import opened Wrappers
  import opened OrderLifecycle
  import opened OrderRecords
  import opened OmsRegistry

  /** A venue call a thread has open. A place is staged first and handed to the connector later. */
  datatype Call =
    | PlaceCall(staged: OrderRecord, sent: bool)
    | CancelCall(cancelId: string)
    | AmendCall(amendId: string, price: string, quantity: string)

  function CallId(c: Call): string {
    match c
    case PlaceCall(staged, _) => staged.clientOrderId
    case CancelCall(id) => id
    case AmendCall(id, _, _) => id
  }

  predicate Mutates(c: Call, id: string) {
    !c.CancelCall? && CallId(c) == id
  }

  /** `holder` names the thread whose place or amend opened each buffer; `work` collects what
      reconcile passes have decided to look up; `sent` is the history of ids handed to a
      connector's place; `delivered` and `dropped` count execution reports. */
  datatype Sys = Sys(reg: Registry, calls: map<nat, Call>, holder: map<string, nat>, work: set<string>,
                     sent: seq<string>, delivered: nat, dropped: nat)

  datatype Step =
    | StagePlace(t: nat, req: OrderRequest, venue: string, verdict: Option<Error>)
    | SendPlace(t: nat)
    | FinishPlace(t: nat, answer: Result<string>)
    | StageCancel(t: nat, id: string)
    | FinishCancel(t: nat, answer: Result<string>)
    | StageAmend(t: nat, id: string, newPrice: Option<string>, newQuantity: Option<string>, verdict: Option<Error>)
    | FinishAmend(t: nat, answer: Result<string>)
    | Report(report: ExecutionReport)
    | ListOpenOrders(venue: string, snaps: seq<OrderSnapshot>)
    | TakeWorklist
    | LookUp(id: string, found: Result<Option<OrderSnapshot>>)
    | DrainNotes

  const NO_STATS := Stats(0, 0, 0, 0, 0, 0)

  function Boot(orders: map<string, OrderRecord>, log: Journal): Registry {
    Registry(orders, map[], [], NO_STATS, log)
  }

  /** A gateway started on an empty log. */
  function Init(logging: bool, disk: seq<bool>): Sys {
    Sys(Boot(map[], Journal(logging, [], disk)), map[], map[], {}, [], 0, 0)
  }

  /** How many buffered reports an outcome throws away. */
  function DroppedByPlace(s: Registry, id: string, answer: Result<string>): nat {
    if (answer.Err? && answer.error.code != "transport") || (answer.Ok? && !AppendSucceeds(s.log))
    then |RacedFor(s, id)|
    else 0
  }

  function DroppedByAmend(s: Registry, id: string, answer: Result<string>): nat {
    if answer.Ok? && !AppendSucceeds(s.log) then |RacedFor(s, id)| else 0
  }

  function Opened(s: Sys, reg: Registry, t: nat, c: Call): Sys {
    s.(reg := reg, calls := s.calls[t := c], holder := s.holder[CallId(c) := t])
  }

  function Closed(s: Sys, reg: Registry, t: nat, id: string, dropped: nat): Sys {
    s.(reg := reg, calls := s.calls - {t}, holder := s.holder - {id}, dropped := s.dropped + dropped)
  }

  function NextStagePlace(cfg: Config, s: Sys, step: Step): Sys
    requires step.StagePlace?
  {
    if step.t in s.calls then s
    else
      var (reg, decision) := PlaceStage(s.reg, cfg, step.req, step.venue, step.verdict);
      if decision.Send? then Opened(s, reg, step.t, PlaceCall(reg.orders[step.req.clientOrderId], false))
      else s.(reg := reg)
  }

  function NextSendPlace(s: Sys, step: Step): Sys
    requires step.SendPlace?
  {
    if step.t in s.calls && s.calls[step.t].PlaceCall? && !s.calls[step.t].sent then
      s.(calls := s.calls[step.t := s.calls[step.t].(sent := true)], sent := s.sent + [CallId(s.calls[step.t])])
    else s
  }

  function NextFinishPlace(s: Sys, step: Step): Sys
    requires step.FinishPlace?
  {
    if step.t in s.calls && s.calls[step.t].PlaceCall? && s.calls[step.t].sent then
      var id := CallId(s.calls[step.t]);
      Closed(s, PlaceFinish(s.reg, id, step.answer).0, step.t, id, DroppedByPlace(s.reg, id, step.answer))
    else s
  }

  function NextStageCancel(cfg: Config, s: Sys, step: Step): Sys
    requires step.StageCancel?
  {
    if step.t !in s.calls && CancelStage(s.reg, cfg, step.id).SendCancel?
    then s.(calls := s.calls[step.t := CancelCall(step.id)])
    else s
  }

  function NextFinishCancel(s: Sys, step: Step): Sys
    requires step.FinishCancel?
  {
    if step.t in s.calls && s.calls[step.t].CancelCall? then
      s.(reg := CancelFinish(s.reg, s.calls[step.t].cancelId, step.answer).0, calls := s.calls - {step.t})
    else s
  }

  function NextStageAmend(cfg: Config, s: Sys, step: Step): Sys
    requires step.StageAmend?
  {
    if step.t in s.calls then s
    else
      var (reg, decision) := AmendStage(s.reg, cfg, step.id, step.newPrice, step.newQuantity, step.verdict);
      if decision.SendAmend? then Opened(s, reg, step.t, AmendCall(step.id, decision.price, decision.quantity))
      else s.(reg := reg)
  }

  function NextFinishAmend(s: Sys, step: Step): Sys
    requires step.FinishAmend?
  {
    if step.t in s.calls && s.calls[step.t].AmendCall? then
      var c := s.calls[step.t];
      Closed(s, AmendFinish(s.reg, c.amendId, c.price, c.quantity, step.answer).0, step.t, c.amendId,
             DroppedByAmend(s.reg, c.amendId, step.answer))
    else s
  }

  function NextReport(s: Sys, step: Step): Sys
    requires step.Report?
  {
    s.(reg := Deliver(s.reg, step.report), delivered := s.delivered + 1)
  }

  function NextReconcile(s: Sys, step: Step): Sys
    requires step.ListOpenOrders? || step.TakeWorklist? || step.LookUp?
  {
    match step
    case ListOpenOrders(venue, snaps) => s.(reg := ListAll(s.reg, venue, snaps))
    case TakeWorklist => s.(work := s.work + Worklist(s.reg))
    case LookUp(id, found) => if id in s.work then s.(reg := Resolve(s.reg, id, found)) else s
  }

  /** One step; a step its thread is not ready for does nothing. */
  function Next(cfg: Config, s: Sys, step: Step): Sys {
    match step
    case StagePlace(_, _, _, _) => NextStagePlace(cfg, s, step)
    case SendPlace(_) => NextSendPlace(s, step)
    case FinishPlace(_, _) => NextFinishPlace(s, step)
    case StageCancel(_, _) => NextStageCancel(cfg, s, step)
    case FinishCancel(_, _) => NextFinishCancel(s, step)
    case StageAmend(_, _, _, _, _) => NextStageAmend(cfg, s, step)
    case FinishAmend(_, _) => NextFinishAmend(s, step)
    case Report(_) => NextReport(s, step)
    case DrainNotes => s.(reg := s.reg.(notes := []))
    case _ => NextReconcile(s, step)
  }

  function Run(cfg: Config, s: Sys, steps: seq<Step>): Sys
    decreases |steps|
  {
    if steps == [] then s else Run(cfg, Next(cfg, s, steps[0]), steps[1..])
  }

  // ---- the invariant: who owns which order ----

  /** A buffer exists exactly for the orders with an open place or amend, and its holder is that
      call; an open place's record is exactly as staged and out of reach of reconcile; an order
      being canceled or amended has left Pending. */
  ghost predicate Ownership(s: Sys) {
    && s.holder.Keys == s.reg.raced.Keys
    && (forall id :: id in s.holder ==> s.holder[id] in s.calls && Mutates(s.calls[s.holder[id]], id))
    && (forall t :: t in s.calls ==> CallFits(s, t, s.calls[t]))
    && s.work <= s.reg.orders.Keys
  }

  predicate CallFits(s: Sys, t: nat, c: Call) {
    && CallId(c) in s.reg.orders
    && (!c.CancelCall? ==> CallId(c) in s.holder && s.holder[CallId(c)] == t)
    && (c.PlaceCall? ==> s.reg.orders[CallId(c)] == c.staged && CallId(c) !in s.work && AsStaged(c.staged))
    && (!c.PlaceCall? ==> s.reg.orders[CallId(c)].state != Pending)
  }

  /** Pending, nothing filled, no venue id, no legs, no rejection. */
  predicate AsStaged(r: OrderRecord) {
    && r.state == Pending && r.filledQuantity == "0" && r.averageFillPrice == ""
    && r.exchangeOrderId == "" && r.legs == [] && r.rejection.None? && !r.adopted
  }

  predicate WellFormedRecord(id: string, r: OrderRecord) {
    r.clientOrderId == id && (r.rejection.Some? ==> r.state == Rejected)
  }

  ghost predicate WellFiled(orders: map<string, OrderRecord>) {
    forall id :: id in orders ==> WellFormedRecord(id, orders[id])
  }

  ghost predicate Inv(s: Sys) {
    match s.reg
    case Registry(orders, _, _, _, _) => Ownership(s) && WellFiled(orders)
  }

  /** Nothing is forgotten, what happens to each order is `Later`, and new orders are sound. */
  ghost predicate Progress(before: map<string, OrderRecord>, after: map<string, OrderRecord>) {
    && (forall id :: id in before ==> id in after && Later(before[id], after[id]))
    && (forall id :: id in after && id !in before ==> Sound(after[id]))
  }

  /** A whole leg chain, and a fill that parses unless the order was adopted from a venue. */
  ghost predicate Sound(r: OrderRecord) {
    Chained(r) && (r.adopted || FillOf(r.filledQuantity).Some?)
  }

  lemma {:induction false} SoundStaysSound(r: OrderRecord, r': OrderRecord)
    requires Sound(r) && Later(r, r')
    ensures Sound(r')
  {
  }

  lemma {:induction false} ProgressIsTransitive(a: map<string, OrderRecord>, b: map<string, OrderRecord>,
                                                c: map<string, OrderRecord>)
    requires Progress(a, b) && Progress(b, c)
    ensures Progress(a, c)
  {
    forall id | id in a ensures id in c && Later(a[id], c[id]) {
      LaterIsTransitive(a[id], b[id], c[id]);
    }
    forall id | id in c && id !in a ensures Sound(c[id]) {
      if id in b {
        SoundStaysSound(b[id], c[id]);
      }
    }
  }

  lemma {:induction false} ArbitrateAllIsLater(r: OrderRecord, reports: seq<ExecutionReport>)
    ensures Later(r, ArbitrateAll(r, reports))
    ensures ArbitrateAll(r, reports).rejection == r.rejection
    decreases |reports|
  {
    if reports != [] {
      ArbitrateIsLater(r, reports[0]);
      ArbitrateAllIsLater(Arbitrate(r, reports[0]), reports[1..]);
      LaterIsTransitive(r, Arbitrate(r, reports[0]), ArbitrateAll(r, reports));
    }
  }

  // ---- what each critical section does to its record ----

  /** A step from one well-formed record to a later one. */
  ghost predicate GoodStep(r: OrderRecord, r': OrderRecord) {
    Later(r, r') && (r'.rejection.Some? ==> r'.state == Rejected)
  }

  lemma {:induction false} ArbitrateAllIsGood(r: OrderRecord, r1: OrderRecord, reports: seq<ExecutionReport>)
    requires GoodStep(r, r1) && (r1.rejection == r.rejection || reports == [])
    ensures GoodStep(r, ArbitrateAll(r1, reports))
  {
    ArbitrateAllIsLater(r1, reports);
    LaterIsTransitive(r, r1, ArbitrateAll(r1, reports));
  }

  lemma {:induction false} AckedIsGood(r: OrderRecord, x: string, price: string, quantity: string)
    requires r.rejection.Some? ==> r.state == Rejected
    ensures GoodStep(r, AckedPlace(r, x)) && GoodStep(r, AmendedRecord(r, price, quantity, x))
  {
    hide OrderRecords.FillOf;
    NoteIsLater(r, x);
  }

  lemma {:induction false} FailedIsGood(r: OrderRecord, e: Error, raced: seq<ExecutionReport>)
    requires r.rejection.Some? ==> r.state == Rejected
    ensures GoodStep(r, r) && GoodStep(r, RejectedRecord(r, e)) && GoodStep(r, AdoptNewest(r, raced))
  {
    NoteIsLater(r, NewestUnknown(r.legs, raced));
  }

  lemma {:induction false} PlaceOutcomeIsGood(s: Registry, id: string, answer: Result<string>)
    requires id in s.orders && WellFormedRecord(id, s.orders[id])
    ensures var s' := PlaceFinish(s, id, answer).0;
            && id in s'.orders && s'.orders == s.orders[id := s'.orders[id]] && s'.raced == s.raced - {id}
            && GoodStep(s.orders[id], s'.orders[id])
  {
    var r, raced := s.orders[id], RacedFor(s, id);
    hide GoodStep, OrderRecords.ArbitrateAll;
    match answer
    case Err(e) =>
      FailedIsGood(r, e, raced);
      ArbitrateAllIsGood(r, r, raced);
    case Ok(x) =>
      AckedIsGood(r, x, "", "");
      ArbitrateAllIsGood(r, AckedPlace(r, x), if AppendSucceeds(s.log) then raced else []);
  }

  lemma {:induction false} AmendOutcomeIsGood(s: Registry, id: string, price: string, quantity: string,
                                              answer: Result<string>)
    requires id in s.orders && WellFormedRecord(id, s.orders[id])
    ensures var s' := AmendFinish(s, id, price, quantity, answer).0;
            && id in s'.orders && s'.orders == s.orders[id := s'.orders[id]] && s'.raced == s.raced - {id}
            && GoodStep(s.orders[id], s'.orders[id])
  {
    var r, raced := s.orders[id], RacedFor(s, id);
    hide GoodStep, OrderRecords.ArbitrateAll;
    match answer
    case Err(e) =>
      FailedIsGood(r, e, raced);
      ArbitrateAllIsGood(r, AdoptNewest(r, raced), raced);
    case Ok(x) =>
      AckedIsGood(r, x, price, quantity);
      ArbitrateAllIsGood(r, AmendedRecord(r, price, quantity, x), if AppendSucceeds(s.log) then raced else []);
  }

  lemma {:induction false} CancelOutcomeIsGood(s: Registry, id: string, answer: Result<string>)
    requires id in s.orders && WellFormedRecord(id, s.orders[id])
    ensures var s' := CancelFinish(s, id, answer).0;
            && id in s'.orders && s'.orders == s.orders[id := s'.orders[id]] && s'.raced == s.raced
            && GoodStep(s.orders[id], s'.orders[id])
  {
  }

  lemma {:induction false} ResolveOutcomeIsGood(r: OrderRecord, found: Result<Option<OrderSnapshot>>)
    requires r.rejection.Some? ==> r.state == Rejected
    ensures GoodStep(r, ResolvedRecord(r, found))
  {
    if found.Ok? && found.value.Some? {
      SnapshotIsGood(r, LearnedFromSnapshot(r, found.value.value.exchangeOrderId), found.value.value);
    }
  }

  lemma {:induction false} SnapshotIsGood(r: OrderRecord, r1: OrderRecord, snap: OrderSnapshot)
    requires GoodStep(r, r1) && r1.rejection == r.rejection
    ensures GoodStep(r, ObserveSnapshot(r1, snap))
  {
    ObserveIsLater(r1, snap.state, snap.filledQuantity, snap.averageFillPrice, snap.price, snap.quantity, true);
    LaterIsTransitive(r, r1, ObserveSnapshot(r1, snap));
  }

  /** A listing changes only orders without an open place or amend. */
  ghost predicate SparesOpen(s: Registry, s': Registry) {
    && s'.raced == s.raced && Progress(s.orders, s'.orders) && WellFiled(s'.orders)
    && forall id :: id in s.raced && id in s.orders ==> s'.orders[id] == s.orders[id]
  }

  lemma {:induction false} UpdateIsProgress(orders: map<string, OrderRecord>, id: string, r: OrderRecord)
    requires id in orders && Later(orders[id], r)
    ensures Progress(orders, orders[id := r])
  {
  }

  lemma {:induction false} GoodStepKeepsForm(id: string, r: OrderRecord, r': OrderRecord)
    requires WellFormedRecord(id, r) && GoodStep(r, r')
    ensures WellFormedRecord(id, r') && (r.state != Pending ==> r'.state != Pending)
  {
  }

  lemma {:induction false} ArrivalIsProgress(orders: map<string, OrderRecord>, id: string, r: OrderRecord)
    requires id !in orders && Sound(r)
    ensures Progress(orders, orders[id := r])
  {
  }

  lemma {:induction false} NothingIsProgress(orders: map<string, OrderRecord>)
    ensures Progress(orders, orders)
  {
  }

  lemma {:induction false} AdoptedIsSound(snap: OrderSnapshot, venue: string)
    ensures Sound(AdoptedRecord(snap, venue)) && WellFormedRecord(snap.clientOrderId, AdoptedRecord(snap, venue))
  {
  }

  lemma {:induction false} ListedIsGood(r: OrderRecord, snap: OrderSnapshot)
    requires r.rejection.Some? ==> r.state == Rejected
    ensures GoodStep(r, ObserveSnapshot(Backfilled(r, snap.exchangeOrderId), snap))
  {
    SnapshotIsGood(r, Backfilled(r, snap.exchangeOrderId), snap);
  }

  lemma {:induction false} ListOneSparesOpen(s: Registry, venue: string, snap: OrderSnapshot)
    requires WellFiled(s.orders)
    ensures SparesOpen(s, ListOne(s, venue, snap))
  {
    hide Progress, OrderRecords.Later, Sound, OrderRecords.Observe;
    var id, r' := snap.clientOrderId, ListedRecord(s.orders, venue, snap);
    NothingIsProgress(s.orders);
    if id in s.orders {
      assert WellFormedRecord(id, s.orders[id]);
      ListedIsGood(s.orders[id], snap);
      GoodStepKeepsForm(id, s.orders[id], r');
      UpdateIsProgress(s.orders, id, r');
    } else {
      AdoptedIsSound(snap, venue);
      ArrivalIsProgress(s.orders, id, r');
    }
  }

  lemma {:induction false} ListAllSparesOpen(s: Registry, venue: string, snaps: seq<OrderSnapshot>)
    requires WellFiled(s.orders)
    ensures SparesOpen(s, ListAll(s, venue, snaps))
    decreases |snaps|
  {
    if snaps != [] {
      var s1 := ListOne(s, venue, snaps[0]);
      ListOneSparesOpen(s, venue, snaps[0]);
      ListAllSparesOpen(s1, venue, snaps[1..]);
      ProgressIsTransitive(s.orders, s1.orders, ListAll(s, venue, snaps).orders);
    }
  }

  // ---- every step keeps the invariant and only moves forward ----

  /** A good update of one order that no open place holds keeps the invariant. */
  lemma {:induction false} UpdateKeepsInv(s: Sys, s': Sys, id: string, r: OrderRecord)
    requires Inv(s) && id in s.reg.orders && GoodStep(s.reg.orders[id], r)
    requires s'.reg.orders == s.reg.orders[id := r] && s'.reg.raced == s.reg.raced
    requires s'.calls == s.calls && s'.holder == s.holder && s'.work == s.work
    requires forall t :: t in s.calls && s.calls[t].PlaceCall? ==> CallId(s.calls[t]) != id
    ensures Inv(s') && Progress(s.reg.orders, s'.reg.orders)
  {
    hide Progress, OrderRecords.Later;
    assert WellFormedRecord(id, s.reg.orders[id]);
    GoodStepKeepsForm(id, s.reg.orders[id], r);
    UpdateIsProgress(s.reg.orders, id, r);
    forall t | t in s'.calls ensures CallFits(s', t, s'.calls[t]) {
      assert CallFits(s, t, s.calls[t]);
    }
  }

  /** Closing a place or amend call after a good update of its order keeps the invariant. */
  lemma {:induction false} CloseKeepsInv(s: Sys, reg: Registry, t: nat, dropped: nat)
    requires Inv(s) && t in s.calls && !s.calls[t].CancelCall?
    requires var id := CallId(s.calls[t]);
             && id in s.reg.orders && id in reg.orders && GoodStep(s.reg.orders[id], reg.orders[id])
             && reg.orders == s.reg.orders[id := reg.orders[id]] && reg.raced == s.reg.raced - {id}
    ensures var s' := Closed(s, reg, t, CallId(s.calls[t]), dropped);
            Inv(s') && Progress(s.reg.orders, reg.orders)
  {
    hide Progress, OrderRecords.Later;
    var id := CallId(s.calls[t]);
    var s' := Closed(s, reg, t, id, dropped);
    assert CallFits(s, t, s.calls[t]) && WellFormedRecord(id, s.reg.orders[id]);
    GoodStepKeepsForm(id, s.reg.orders[id], reg.orders[id]);
    UpdateIsProgress(s.reg.orders, id, reg.orders[id]);
    forall u | u in s'.calls ensures CallFits(s', u, s'.calls[u]) {
      assert CallFits(s, u, s.calls[u]);
    }
    forall k | k in s'.holder ensures s'.holder[k] in s'.calls && Mutates(s'.calls[s'.holder[k]], k) {
      assert s.holder[k] != t;
    }
  }

  /** Opening a call on a free buffer keeps the invariant. */
  lemma {:induction false} OpenKeepsInv(s: Sys, reg: Registry, t: nat, c: Call)
    requires Inv(s) && t !in s.calls && !c.CancelCall? && CallId(c) !in s.holder
    requires reg.orders.Keys == s.reg.orders.Keys + {CallId(c)} && WellFiled(reg.orders)
    requires forall id :: id in s.reg.orders ==> reg.orders[id] == s.reg.orders[id]
    requires reg.raced.Keys == s.reg.raced.Keys + {CallId(c)}
    requires if c.PlaceCall? then CallId(c) !in s.reg.orders && reg.orders[CallId(c)] == c.staged && AsStaged(c.staged)
             else reg.orders[CallId(c)].state != Pending
    ensures Inv(Opened(s, reg, t, c))
  {
    var s' := Opened(s, reg, t, c);
    forall u | u in s'.calls ensures CallFits(s', u, s'.calls[u]) {
      assert u != t ==> CallFits(s, u, s.calls[u]);
    }
    assert s'.holder.Keys == s.holder.Keys + {CallId(c)};
  }

  /** Recording a new, already final order keeps the invariant. */
  lemma {:induction false} NewRecordKeepsInv(s: Sys, s': Sys, id: string, r: OrderRecord)
    requires Inv(s) && id !in s.reg.orders && WellFormedRecord(id, r) && Sound(r)
    requires s'.reg.orders == s.reg.orders[id := r] && s'.reg.raced == s.reg.raced
    requires s'.calls == s.calls && s'.holder == s.holder && s'.work == s.work
    ensures Inv(s') && Progress(s.reg.orders, s'.reg.orders)
  {
    forall u | u in s'.calls ensures CallFits(s', u, s'.calls[u]) {
      assert CallFits(s, u, s.calls[u]);
    }
  }

  lemma {:induction false} StageSendKeepsInv(s: Sys, reg: Registry, t: nat, r: OrderRecord)
    requires Inv(s) && t !in s.calls && r.clientOrderId !in s.reg.orders && AsStaged(r)
    requires reg.orders == s.reg.orders[r.clientOrderId := r] && reg.raced.Keys == s.reg.raced.Keys + {r.clientOrderId}
    ensures Inv(Opened(s, reg, t, PlaceCall(r, false))) && Progress(s.reg.orders, reg.orders)
  {
    var id := r.clientOrderId;
    assert id !in s.holder by {
      assert id in s.holder ==> CallFits(s, s.holder[id], s.calls[s.holder[id]]);
    }
    UnfilledParses(r);
    OpenKeepsInv(s, reg, t, PlaceCall(r, false));
  }

  lemma {:induction false} StagePlaceKeepsInv(cfg: Config, s: Sys, step: Step)
    requires Inv(s) && step.StagePlace?
    ensures Inv(NextStagePlace(cfg, s, step)) && Progress(s.reg.orders, NextStagePlace(cfg, s, step).reg.orders)
  {
    if step.t !in s.calls {
      var (reg, decision) := PlaceStage(s.reg, cfg, step.req, step.venue, step.verdict);
      var id := step.req.clientOrderId;
      if decision.Send? {
        StageSendKeepsInv(s, reg, step.t, reg.orders[id]);
      } else if reg.orders == s.reg.orders {
        CallsKeepInv(s, s.(reg := reg));
      } else {
        UnfilledParses(reg.orders[id]);
        NewRecordKeepsInv(s, s.(reg := reg), id, reg.orders[id]);
      }
    }
  }

  lemma {:induction false} StageAmendKeepsInv(cfg: Config, s: Sys, step: Step)
    requires Inv(s) && step.StageAmend?
    ensures Inv(NextStageAmend(cfg, s, step)) && NextStageAmend(cfg, s, step).reg.orders == s.reg.orders
  {
    var (reg, decision) := AmendStage(s.reg, cfg, step.id, step.newPrice, step.newQuantity, step.verdict);
    if step.t !in s.calls && decision.SendAmend? {
      OpenKeepsInv(s, reg, step.t, AmendCall(step.id, decision.price, decision.quantity));
    }
  }

  /** Calls that differ only in a place being sent, or by new or finished cancels, own the same. */
  lemma {:induction false} CallsKeepInv(s: Sys, s': Sys)
    requires Inv(s) && s'.reg.orders == s.reg.orders && s'.reg.raced == s.reg.raced && s'.holder == s.holder
             && s'.work == s.work
    requires forall t :: t in s'.calls ==> (t in s.calls && s'.calls[t] == s.calls[t])
                                           || (t in s.calls && s.calls[t].PlaceCall?
                                               && s'.calls[t] == s.calls[t].(sent := true))
                                           || (t !in s.calls && s'.calls[t].CancelCall? && CallFits(s, t, s'.calls[t]))
    requires forall t :: t in s.calls && !s.calls[t].CancelCall? ==> t in s'.calls
    ensures Inv(s')
  {
  }

  lemma {:induction false} FinishCancelKeepsInv(s: Sys, step: Step)
    requires Inv(s) && step.FinishCancel?
    ensures Inv(NextFinishCancel(s, step)) && Progress(s.reg.orders, NextFinishCancel(s, step).reg.orders)
  {
    var t := step.t;
    if t in s.calls && s.calls[t].CancelCall? {
      var id := s.calls[t].cancelId;
      assert CallFits(s, t, s.calls[t]) && WellFormedRecord(id, s.reg.orders[id]);
      var s1 := s.(calls := s.calls - {t});
      CallsKeepInv(s, s1);
      CancelOutcomeIsGood(s.reg, id, step.answer);
      var reg := CancelFinish(s.reg, id, step.answer).0;
      forall u | u in s1.calls && s1.calls[u].PlaceCall? ensures CallId(s1.calls[u]) != id {
        assert CallFits(s, u, s.calls[u]);
      }
      UpdateKeepsInv(s1, s1.(reg := reg), id, reg.orders[id]);
    }
  }

  lemma {:induction false} FinishPlaceKeepsInv(s: Sys, step: Step)
    requires Inv(s) && step.FinishPlace?
    ensures Inv(NextFinishPlace(s, step)) && Progress(s.reg.orders, NextFinishPlace(s, step).reg.orders)
  {
    var t := step.t;
    if t in s.calls && s.calls[t].PlaceCall? && s.calls[t].sent {
      var id := CallId(s.calls[t]);
      assert CallFits(s, t, s.calls[t]) && WellFormedRecord(id, s.reg.orders[id]);
      PlaceOutcomeIsGood(s.reg, id, step.answer);
      CloseKeepsInv(s, PlaceFinish(s.reg, id, step.answer).0, t, DroppedByPlace(s.reg, id, step.answer));
    }
  }

  lemma {:induction false} FinishAmendKeepsInv(s: Sys, step: Step)
    requires Inv(s) && step.FinishAmend?
    ensures Inv(NextFinishAmend(s, step)) && Progress(s.reg.orders, NextFinishAmend(s, step).reg.orders)
  {
    var t := step.t;
    if t in s.calls && s.calls[t].AmendCall? {
      var c := s.calls[t];
      assert CallFits(s, t, c) && WellFormedRecord(c.amendId, s.reg.orders[c.amendId]);
      AmendOutcomeIsGood(s.reg, c.amendId, c.price, c.quantity, step.answer);
      CloseKeepsInv(s, AmendFinish(s.reg, c.amendId, c.price, c.quantity, step.answer).0, t,
                    DroppedByAmend(s.reg, c.amendId, step.answer));
    }
  }

  lemma {:induction false} ReportKeepsInv(s: Sys, step: Step)
    requires Inv(s) && step.Report?
    ensures Inv(NextReport(s, step)) && Progress(s.reg.orders, NextReport(s, step).reg.orders)
  {
    var s', id := NextReport(s, step), step.report.clientOrderId;
    if id !in s.reg.raced && id in s.reg.orders {
      assert WellFormedRecord(id, s.reg.orders[id]);
      ArbitrateIsLater(s.reg.orders[id], step.report);
      forall t | t in s.calls && s.calls[t].PlaceCall? ensures CallId(s.calls[t]) != id {
        assert CallFits(s, t, s.calls[t]);
      }
      UpdateKeepsInv(s, s', id, Arbitrate(s.reg.orders[id], step.report));
    } else {
      assert s'.reg.orders == s.reg.orders && s'.reg.raced.Keys == s.reg.raced.Keys;
      forall t | t in s'.calls ensures CallFits(s', t, s'.calls[t]) {
        assert CallFits(s, t, s.calls[t]);
      }
    }
  }

  lemma {:induction false} ListKeepsInv(s: Sys, venue: string, snaps: seq<OrderSnapshot>)
    requires Inv(s)
    ensures var s' := s.(reg := ListAll(s.reg, venue, snaps));
            Inv(s') && Progress(s.reg.orders, s'.reg.orders)
  {
    var s' := s.(reg := ListAll(s.reg, venue, snaps));
    ListAllSparesOpen(s.reg, venue, snaps);
    forall t | t in s'.calls ensures CallFits(s', t, s'.calls[t]) {
      var c := s.calls[t];
      assert CallFits(s, t, c);
      assert Later(s.reg.orders[CallId(c)], s'.reg.orders[CallId(c)]);
    }
  }

  lemma {:induction false} LookUpKeepsInv(s: Sys, id: string, found: Result<Option<OrderSnapshot>>)
    requires Inv(s) && id in s.work
    ensures var s' := s.(reg := Resolve(s.reg, id, found));
            Inv(s') && Progress(s.reg.orders, s'.reg.orders)
  {
    assert WellFormedRecord(id, s.reg.orders[id]);
    ResolveOutcomeIsGood(s.reg.orders[id], found);
    forall t | t in s.calls && s.calls[t].PlaceCall? ensures CallId(s.calls[t]) != id {
      assert CallFits(s, t, s.calls[t]);
    }
    UpdateKeepsInv(s, s.(reg := Resolve(s.reg, id, found)), id, ResolvedRecord(s.reg.orders[id], found));
  }

  lemma {:induction false} WorklistKeepsInv(s: Sys)
    requires Inv(s)
    ensures Inv(s.(work := s.work + Worklist(s.reg)))
  {
  }

  lemma {:induction false} ReconcileKeepsInv(s: Sys, step: Step)
    requires Inv(s) && (step.ListOpenOrders? || step.TakeWorklist? || step.LookUp?)
    ensures Inv(NextReconcile(s, step)) && Progress(s.reg.orders, NextReconcile(s, step).reg.orders)
  {
    match step
    case ListOpenOrders(venue, snaps) => ListKeepsInv(s, venue, snaps);
    case TakeWorklist => WorklistKeepsInv(s);
    case LookUp(id, found) => if id in s.work { LookUpKeepsInv(s, id, found); }
  }

  predicate OfPlace(step: Step) {
    step.StagePlace? || step.SendPlace? || step.FinishPlace?
  }

  predicate OfReconcile(step: Step) {
    step.ListOpenOrders? || step.TakeWorklist? || step.LookUp?
  }

  lemma {:induction false} PlaceKeepsInv(cfg: Config, s: Sys, step: Step)
    requires Inv(s) && OfPlace(step)
    ensures Inv(Next(cfg, s, step)) && Progress(s.reg.orders, Next(cfg, s, step).reg.orders)
  {
    hide Inv, Progress;
    NothingIsProgress(s.reg.orders);
    match step
    case StagePlace(_, _, _, _) => StagePlaceKeepsInv(cfg, s, step);
    case SendPlace(_) => CallsKeepInv(s, NextSendPlace(s, step));
    case FinishPlace(_, _) => FinishPlaceKeepsInv(s, step);
  }

  lemma {:induction false} CancelKeepsInv(cfg: Config, s: Sys, step: Step)
    requires Inv(s) && (step.StageCancel? || step.FinishCancel?)
    ensures Inv(Next(cfg, s, step)) && Progress(s.reg.orders, Next(cfg, s, step).reg.orders)
  {
    hide Inv, Progress;
    NothingIsProgress(s.reg.orders);
    match step
    case StageCancel(_, _) => CallsKeepInv(s, NextStageCancel(cfg, s, step));
    case FinishCancel(_, _) => FinishCancelKeepsInv(s, step);
  }

  lemma {:induction false} AmendKeepsInv(cfg: Config, s: Sys, step: Step)
    requires Inv(s) && (step.StageAmend? || step.FinishAmend?)
    ensures Inv(Next(cfg, s, step)) && Progress(s.reg.orders, Next(cfg, s, step).reg.orders)
  {
    hide Inv, Progress;
    NothingIsProgress(s.reg.orders);
    match step
    case StageAmend(_, _, _, _, _) => StageAmendKeepsInv(cfg, s, step);
    case FinishAmend(_, _) => FinishAmendKeepsInv(s, step);
  }

  lemma {:induction false} FeedKeepsInv(cfg: Config, s: Sys, step: Step)
    requires Inv(s) && (OfReconcile(step) || step.Report? || step.DrainNotes?)
    ensures Inv(Next(cfg, s, step)) && Progress(s.reg.orders, Next(cfg, s, step).reg.orders)
  {
    hide Inv, Progress;
    NothingIsProgress(s.reg.orders);
    match step
    case Report(_) => ReportKeepsInv(s, step);
    case DrainNotes => CallsKeepInv(s, s.(reg := s.reg.(notes := [])));
    case _ => ReconcileKeepsInv(s, step);
  }

  /** One step of any thread keeps the invariant and only moves orders forward. */
  lemma {:induction false} StepKeepsInv(cfg: Config, s: Sys, step: Step)
    requires Inv(s)
    ensures Inv(Next(cfg, s, step)) && Progress(s.reg.orders, Next(cfg, s, step).reg.orders)
  {
    hide Inv, Progress;
    if OfPlace(step) {
      PlaceKeepsInv(cfg, s, step);
    } else if OfReconcile(step) || step.Report? || step.DrainNotes? {
      FeedKeepsInv(cfg, s, step);
    } else if step.StageCancel? || step.FinishCancel? {
      CancelKeepsInv(cfg, s, step);
    } else {
      AmendKeepsInv(cfg, s, step);
    }
  }

  /** Monotone lifecycle over whole runs: no interleaving forgets an order, leaves a terminal state,
      moves a state backwards, lowers a fill, drops a leg or changes a recorded rejection. */
  lemma {:induction false} RunsOnlyMoveForward(cfg: Config, s: Sys, steps: seq<Step>)
    requires Inv(s)
    ensures Inv(Run(cfg, s, steps)) && Progress(s.reg.orders, Run(cfg, s, steps).reg.orders)
    decreases |steps|
  {
    if steps != [] {
      var s1 := Next(cfg, s, steps[0]);
      StepKeepsInv(cfg, s, steps[0]);
      RunsOnlyMoveForward(cfg, s1, steps[1..]);
      ProgressIsTransitive(s.reg.orders, s1.reg.orders, Run(cfg, s, steps).reg.orders);
    }
  }
}
