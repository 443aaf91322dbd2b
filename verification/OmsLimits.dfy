/** Where isolation ends: an open place owns its order, an open amend does not. */
module OmsLimits {
  import opened Wrappers
  import opened OrderLifecycle
  import opened OrderRecords
  import opened OmsRegistry
  import opened OmsMachine

  /** Place and ack, a reconcile pass that takes its worklist, an amend, and the pass's lookup. */
  function LookUpUnderAmend(req: OrderRequest, venue: string, x: string, price: string): seq<Step> {
    [StagePlace(0, req, venue, None), SendPlace(0), FinishPlace(0, Ok(x)), TakeWorklist,
     StageAmend(0, req.clientOrderId, Some(price), None, None), LookUp(req.clientOrderId, Ok(None))]
  }

  lemma {:induction false} RunComposes(cfg: Config, s: Sys, a: seq<Step>, b: seq<Step>)
    ensures Run(cfg, s, a + b) == Run(cfg, Run(cfg, s, a), b)
    decreases |a|
  {
    if a == [] {
      assert a + b == b;
    } else {
      assert (a + b)[1..] == a[1..] + b;
      RunComposes(cfg, Next(cfg, s, a[0]), a[1..], b);
    }
  }

  lemma {:induction false} PairIsNextOfNext(cfg: Config, s: Sys, a: Step, b: Step)
    ensures Run(cfg, s, [a, b]) == Next(cfg, Next(cfg, s, a), b)
  {
    assert [a, b][1..] == [b] && [b][1..] == [];
    assert Run(cfg, Next(cfg, s, a), [b]) == Run(cfg, Next(cfg, Next(cfg, s, a), b), []);
  }

  lemma {:induction false} StagedAndSent(cfg: Config, req: OrderRequest, venue: string)
    requires venue != "" && venue in cfg.venues
    ensures var s := Next(cfg, Next(cfg, Init(false, []), StagePlace(0, req, venue, None)), SendPlace(0));
            && s.calls == map[0 := PlaceCall(StagedRecord(req, venue), true)] && s.work == {} && !s.reg.log.enabled
            && s.reg.orders == map[req.clientOrderId := StagedRecord(req, venue)]
            && s.reg.raced == map[req.clientOrderId := []]
  {
  }

  lemma {:induction false} AckedThenListed(cfg: Config, s: Sys, r: OrderRecord, x: string)
    requires s.calls == map[0 := PlaceCall(r, true)] && s.work == {} && !s.reg.log.enabled && x != "" && AsStaged(r)
    requires s.reg.orders == map[r.clientOrderId := r] && s.reg.raced == map[r.clientOrderId := []]
    ensures var s' := Next(cfg, Next(cfg, s, FinishPlace(0, Ok(x))), TakeWorklist);
            && s'.calls == map[] && s'.work == {r.clientOrderId} && s'.reg.raced == map[]
            && s'.reg.orders == map[r.clientOrderId := AckedPlace(r, x)]
  {
  }

  lemma {:induction false} LookedUpUnderAmend(cfg: Config, s: Sys, id: string, r: OrderRecord, price: string)
    requires s.calls == map[] && s.work == {id} && s.reg.raced == map[] && s.reg.orders == map[id := r]
    requires r.state == Live && r.venue != "" && r.venue in cfg.venues
    ensures var s' := Next(cfg, Next(cfg, s, StageAmend(0, id, Some(price), None, None)), LookUp(id, Ok(None)));
            && s'.calls == map[0 := AmendCall(id, price, r.quantity)]
            && id in s'.reg.orders && s'.reg.orders[id].state == Rejected
            && s'.reg.orders[id].rejection == Some(VENUE_ABSENT)
  {
  }

  lemma {:induction false} BothStaged(cfg: Config, s: Sys, id: string, r: OrderRecord, price: string)
    requires s.calls == map[] && s.reg.raced == map[] && s.reg.orders == map[id := r]
    requires r.state == Live && r.venue != "" && r.venue in cfg.venues
    ensures var s' := Next(cfg, Next(cfg, s, StageCancel(1, id)), StageAmend(0, id, Some(price), None, None));
            s'.calls == map[1 := CancelCall(id), 0 := AmendCall(id, price, r.quantity)] && s'.reg.orders == map[id := r]
  {
  }

  lemma {:induction false} CancelAnswered(cfg: Config, s: Sys, id: string, r: OrderRecord, amend: Call)
    requires s.calls == map[1 := CancelCall(id), 0 := amend] && s.reg.orders == map[id := r] && r.state == Live
    ensures var s' := Next(cfg, Next(cfg, s, FinishCancel(1, Ok(""))), DrainNotes);
            s'.calls == map[0 := amend] && id in s'.reg.orders && s'.reg.orders[id].state == Canceled
  {
  }

  lemma {:induction false} RunSplitsIntoPairs(cfg: Config, s: Sys, a: Step, b: Step, c: Step, d: Step, e: Step, f: Step)
    ensures Run(cfg, s, [a, b, c, d, e, f]) == Run(cfg, Run(cfg, Run(cfg, s, [a, b]), [c, d]), [e, f])
  {
    RunComposes(cfg, s, [a, b], [c, d]);
    RunComposes(cfg, s, [a, b] + [c, d], [e, f]);
    assert [a, b] + [c, d] + [e, f] == [a, b, c, d, e, f];
  }

  lemma {:induction false} AckedAndListed(cfg: Config, req: OrderRequest, venue: string, x: string)
    requires venue != "" && venue in cfg.venues && x != ""
    ensures var s :=
      Run(cfg, Run(cfg, Init(false, []), [StagePlace(0, req, venue, None), SendPlace(0)]),
          [FinishPlace(0, Ok(x)), TakeWorklist]);
            && s.calls == map[] && s.work == {req.clientOrderId} && s.reg.raced == map[]
            && s.reg.orders == map[req.clientOrderId := AckedPlace(StagedRecord(req, venue), x)]
  {
    var s0 := Init(false, []);
    PairIsNextOfNext(cfg, s0, StagePlace(0, req, venue, None), SendPlace(0));
    StagedAndSent(cfg, req, venue);
    var s1 := Run(cfg, s0, [StagePlace(0, req, venue, None), SendPlace(0)]);
    PairIsNextOfNext(cfg, s1, FinishPlace(0, Ok(x)), TakeWorklist);
    AckedThenListed(cfg, s1, StagedRecord(req, venue), x);
  }

  /** The record an amend comes back to is not the one it left: a reconcile pass that took its
      worklist before the amend can reject the order while the amend is open at the venue. */
  lemma {:induction false} OpenAmendIsNotIsolated(cfg: Config, req: OrderRequest, venue: string, x: string,
                                                  price: string)
    requires venue != "" && venue in cfg.venues && x != ""
    ensures var s := Run(cfg, Init(false, []), LookUpUnderAmend(req, venue, x, price));
            && s.calls == map[0 := AmendCall(req.clientOrderId, price, req.quantity)]
            && req.clientOrderId in s.reg.orders && s.reg.orders[req.clientOrderId].state == Rejected
  {
    var id, s0 := req.clientOrderId, Init(false, []);
    var a, b, c, d := StagePlace(0, req, venue, None), SendPlace(0), FinishPlace(0, Ok(x)), TakeWorklist;
    var e, f := StageAmend(0, id, Some(price), None, None), LookUp(id, Ok(None));
    var s2 := Run(cfg, Run(cfg, s0, [a, b]), [c, d]);
    AckedAndListed(cfg, req, venue, x);
    PairIsNextOfNext(cfg, s2, e, f);
    LookedUpUnderAmend(cfg, s2, id, AckedPlace(StagedRecord(req, venue), x), price);
    RunSplitsIntoPairs(cfg, s0, a, b, c, d, e, f);
  }

  /** Place and ack, a cancel and an amend of the order both at the venue, and the cancel's answer. */
  function CancelUnderAmend(req: OrderRequest, venue: string, x: string, price: string): seq<Step> {
    [StagePlace(0, req, venue, None), SendPlace(0), FinishPlace(0, Ok(x)), TakeWorklist,
     StageCancel(1, req.clientOrderId), StageAmend(0, req.clientOrderId, Some(price), None, None)]
    + [FinishCancel(1, Ok("")), DrainNotes]
  }

  /** So can a cancel that was sent before the amend. */
  lemma {:induction false} CancelReachesOpenAmend(cfg: Config, req: OrderRequest, venue: string, x: string,
                                                  price: string)
    requires venue != "" && venue in cfg.venues && x != ""
    ensures var s := Run(cfg, Init(false, []), CancelUnderAmend(req, venue, x, price));
            && s.calls == map[0 := AmendCall(req.clientOrderId, price, req.quantity)]
            && req.clientOrderId in s.reg.orders && s.reg.orders[req.clientOrderId].state == Canceled
  {
    var id, s0, r := req.clientOrderId, Init(false, []), AckedPlace(StagedRecord(req, venue), x);
    var a, b, c, d := StagePlace(0, req, venue, None), SendPlace(0), FinishPlace(0, Ok(x)), TakeWorklist;
    var e, f := StageCancel(1, id), StageAmend(0, id, Some(price), None, None);
    var s2 := Run(cfg, Run(cfg, s0, [a, b]), [c, d]);
    AckedAndListed(cfg, req, venue, x);
    PairIsNextOfNext(cfg, s2, e, f);
    BothStaged(cfg, s2, id, r, price);
    RunSplitsIntoPairs(cfg, s0, a, b, c, d, e, f);
    var s3 := Run(cfg, s2, [e, f]);
    PairIsNextOfNext(cfg, s3, FinishCancel(1, Ok("")), DrainNotes);
    CancelAnswered(cfg, s3, id, r, AmendCall(id, price, r.quantity));
    RunComposes(cfg, s0, [a, b, c, d, e, f], [FinishCancel(1, Ok("")), DrainNotes]);
  }

  // ---- exactly what can change an order under its open amend ----

  predicate AmendOpen(s: Sys, t: nat, id: string) {
    t in s.calls && s.calls[t].AmendCall? && s.calls[t].amendId == id
  }

  /** The snapshot teaches an id, a fill, a legal step, or other terms. */
  predicate SnapshotIsNews(r: OrderRecord, snap: OrderSnapshot) {
    || (snap.exchangeOrderId != "" && snap.exchangeOrderId != r.exchangeOrderId
        && (r.exchangeOrderId == "" || !Knows(r.legs, snap.exchangeOrderId)))
    || FillAdvances(r.filledQuantity, snap.filledQuantity)
    || (snap.state != r.state && Legal(r.state, snap.state))
    || (snap.price != "" && snap.price != r.price)
    || (snap.quantity != "" && snap.quantity != r.quantity)
  }

  predicate LookUpIsNews(r: OrderRecord, found: Result<Option<OrderSnapshot>>) {
    if found.Ok? && found.value.Some? then SnapshotIsNews(r, found.value.value)
    else ConclusivelyAbsent(found) && Legal(r.state, Rejected)
  }

  predicate CancelIsNews(r: OrderRecord, answer: Result<string>) {
    answer.Ok? && (Legal(r.state, Canceled) || (answer.value != "" && answer.value != r.exchangeOrderId))
  }

  /** A lookup of a worklist the order is on, or the acknowledgement of a cancel of it. */
  predicate NewsUnderAmend(s: Sys, step: Step, id: string) {
    && id in s.reg.orders
    && match step
       case LookUp(k, found) => k == id && id in s.work && LookUpIsNews(s.reg.orders[id], found)
       case FinishCancel(u, answer) =>
         u in s.calls && s.calls[u] == CancelCall(id) && CancelIsNews(s.reg.orders[id], answer)
       case _ => false
  }

  lemma {:induction false} SnapshotChangesIffNews(r: OrderRecord, snap: OrderSnapshot)
    ensures ResolvedRecord(r, Ok(Some(snap))) != r <==> SnapshotIsNews(r, snap)
  {
    hide FillAdvances;
    AdvanceIsNews(r.filledQuantity, snap.filledQuantity);
  }

  lemma {:induction false} AnswersChangeIffNews(r: OrderRecord, found: Result<Option<OrderSnapshot>>,
                                                answer: Result<string>)
    ensures ResolvedRecord(r, found) != r <==> LookUpIsNews(r, found)
    ensures if answer.Ok? then CanceledRecord(r, answer.value) != r <==> CancelIsNews(r, answer)
            else !CancelIsNews(r, answer)
  {
    hide SnapshotIsNews, FillAdvances, OrderRecords.Observe;
    if found.Ok? && found.value.Some? {
      SnapshotChangesIffNews(r, found.value.value);
    }
  }

  lemma {:induction false} OtherCallsLeaveIt(cfg: Config, s: Sys, step: Step, t: nat, id: string)
    requires Inv(s) && AmendOpen(s, t, id) && (step.FinishPlace? || step.FinishAmend?) && step.t != t
    ensures id in Next(cfg, s, step).reg.orders && Next(cfg, s, step).reg.orders[id] == s.reg.orders[id]
  {
    hide GoodStep, OrderRecords.ArbitrateAll;
    assert CallFits(s, t, s.calls[t]);
    if step.t in s.calls {
      var c := s.calls[step.t];
      assert CallFits(s, step.t, c) && WellFormedRecord(CallId(c), s.reg.orders[CallId(c)]);
      if c.PlaceCall? {
        PlaceOutcomeIsGood(s.reg, CallId(c), step.answer);
      } else if c.AmendCall? {
        AmendOutcomeIsGood(s.reg, c.amendId, c.price, c.quantity, step.answer);
      }
    }
  }

  lemma {:induction false} FeedsLeaveIt(cfg: Config, s: Sys, step: Step, t: nat, id: string)
    requires Inv(s) && AmendOpen(s, t, id) && (step.Report? || step.StagePlace? || step.TakeWorklist?)
    ensures id in Next(cfg, s, step).reg.orders && Next(cfg, s, step).reg.orders[id] == s.reg.orders[id]
  {
    hide Progress, OrderRecords.Arbitrate;
    assert CallFits(s, t, s.calls[t]);
  }

  lemma {:induction false} ListingLeavesIt(s: Sys, venue: string, snaps: seq<OrderSnapshot>, t: nat, id: string)
    requires Inv(s) && AmendOpen(s, t, id)
    ensures id in s.reg.orders && id in ListAll(s.reg, venue, snaps).orders
    ensures ListAll(s.reg, venue, snaps).orders[id] == s.reg.orders[id]
  {
    hide OrderRecords.Later, ListAll;
    assert CallFits(s, t, s.calls[t]);
    ListAllSparesOpen(s.reg, venue, snaps);
  }

  lemma {:induction false} AnswersReachIt(cfg: Config, s: Sys, step: Step, t: nat, id: string)
    requires Inv(s) && AmendOpen(s, t, id) && (step.LookUp? || step.FinishCancel?)
    ensures id in Next(cfg, s, step).reg.orders
    ensures Next(cfg, s, step).reg.orders[id] != s.reg.orders[id] <==> NewsUnderAmend(s, step, id)
  {
    hide LookUpIsNews, CancelIsNews, OmsRegistry.CanceledRecord, OmsRegistry.ResolvedRecord;
    assert CallFits(s, t, s.calls[t]);
    if step.FinishCancel? && step.t in s.calls {
      assert CallFits(s, step.t, s.calls[step.t]);
    }
    AnswersChangeIffNews(s.reg.orders[id], if step.LookUp? then step.found else Ok(None),
                         if step.FinishCancel? then step.answer else Ok(""));
  }

  /** While an amend stays open its order changes in exactly two ways: a reconcile pass that had the
      order on its worklist gets a lookup answer with news, or a cancel of it is acknowledged with
      news. No other step of any thread touches it. */
  lemma {:induction false} OpenAmendChangesIff(cfg: Config, s: Sys, step: Step, t: nat, id: string)
    requires Inv(s) && AmendOpen(s, t, id)
    ensures AmendOpen(Next(cfg, s, step), t, id) ==>
              && id in s.reg.orders && id in Next(cfg, s, step).reg.orders
              && (Next(cfg, s, step).reg.orders[id] != s.reg.orders[id] <==> NewsUnderAmend(s, step, id))
  {
    assert CallFits(s, t, s.calls[t]);
    if step.LookUp? || step.FinishCancel? {
      AnswersReachIt(cfg, s, step, t, id);
    } else if step.ListOpenOrders? {
      ListingLeavesIt(s, step.venue, step.snaps, t, id);
    } else if step.Report? || step.StagePlace? || step.TakeWorklist? {
      FeedsLeaveIt(cfg, s, step, t, id);
    } else if (step.FinishPlace? || step.FinishAmend?) && step.t != t {
      OtherCallsLeaveIt(cfg, s, step, t, id);
    }
  }

  /** The call is open after every step of the run. */
  predicate StaysOpen(cfg: Config, s: Sys, steps: seq<Step>, t: nat, id: string)
    decreases |steps|
  {
    AmendOpen(s, t, id) && (steps == [] || StaysOpen(cfg, Next(cfg, s, steps[0]), steps[1..], t, id))
  }

  predicate NeverNews(cfg: Config, s: Sys, steps: seq<Step>, id: string)
    decreases |steps|
  {
    steps == [] || (!NewsUnderAmend(s, steps[0], id) && NeverNews(cfg, Next(cfg, s, steps[0]), steps[1..], id))
  }

  /** The record is `r` after every step of the run. */
  predicate RecordStays(cfg: Config, s: Sys, steps: seq<Step>, id: string, r: OrderRecord)
    decreases |steps|
  {
    id in s.reg.orders && s.reg.orders[id] == r
    && (steps == [] || RecordStays(cfg, Next(cfg, s, steps[0]), steps[1..], id, r))
  }

  /** Over any run an amend stays open, its record stays as it was if and only if no lookup and no
      cancel of it brings news. */
  lemma {:induction false} AmendIsolatedIffNoNews(cfg: Config, s: Sys, steps: seq<Step>, t: nat, id: string)
    requires Inv(s) && StaysOpen(cfg, s, steps, t, id)
    ensures id in s.reg.orders
    ensures RecordStays(cfg, s, steps, id, s.reg.orders[id]) <==> NeverNews(cfg, s, steps, id)
    decreases |steps|
  {
    assert CallFits(s, t, s.calls[t]);
    if steps != [] {
      hide NewsUnderAmend, Next, Inv;
      StepKeepsInv(cfg, s, steps[0]);
      OpenAmendChangesIff(cfg, s, steps[0], t, id);
      AmendIsolatedIffNoNews(cfg, Next(cfg, s, steps[0]), steps[1..], t, id);
    }
  }
}
