/** When the projection can throw: only for fills adopted from a venue listing that do not parse. */
module AdoptedFills {
  import opened Wrappers
  import opened OrderLifecycle
  import opened Decimals
  import opened DecimalText
  import opened OrderRecords
  import opened OmsRegistry
  import opened OmsMachine
  import opened Exposure
  import opened PositionLimit

  ghost predicate AllFillsParse(orders: map<string, OrderRecord>) {
    forall id :: id in orders ==> FillOf(orders[id].filledQuantity).Some?
  }

  /** The listing adopts an order whose fill does not parse. */
  predicate AdoptsUnparsed(s: Registry, venue: string, snaps: seq<OrderSnapshot>)
    decreases |snaps|
  {
    snaps != [] && (OneUnparsed(s, snaps[0]) || AdoptsUnparsed(ListOne(s, venue, snaps[0]), venue, snaps[1..]))
  }

  predicate OneUnparsed(s: Registry, snap: OrderSnapshot) {
    var id := snap.clientOrderId;
    id != "" && id !in s.raced && id !in s.orders && FillOf(snap.filledQuantity).None?
  }

  predicate StepAdoptsUnparsed(s: Sys, step: Step) {
    step.ListOpenOrders? && AdoptsUnparsed(s.reg, step.venue, step.snaps)
  }

  predicate RunAdoptsUnparsed(cfg: Config, s: Sys, steps: seq<Step>)
    decreases |steps|
  {
    steps != [] && (StepAdoptsUnparsed(s, steps[0]) || RunAdoptsUnparsed(cfg, Next(cfg, s, steps[0]), steps[1..]))
  }

  // ---- fills that parse stay so, fills that do not stay so too ----

  lemma {:induction false} ParsingIsKept(before: map<string, OrderRecord>, after: map<string, OrderRecord>)
    requires Progress(before, after)
    ensures forall id ::
      id in before ==> (FillOf(after[id].filledQuantity).Some? <==> FillOf(before[id].filledQuantity).Some?)
  {
    hide FillOf;
    forall id | id in before
      ensures FillOf(after[id].filledQuantity).Some? <==> FillOf(before[id].filledQuantity).Some?
    {
      assert FillGrows(before[id].filledQuantity, after[id].filledQuantity);
    }
  }

  lemma {:induction false} SameOrdersParseAlike(before: map<string, OrderRecord>, after: map<string, OrderRecord>)
    requires Progress(before, after) && after.Keys == before.Keys
    ensures AllFillsParse(after) <==> AllFillsParse(before)
  {
    hide FillOf, Progress;
    ParsingIsKept(before, after);
    assert forall id :: id in before <==> id in after;
  }

  lemma {:induction false} AdoptedFillParsesIff(snap: OrderSnapshot, venue: string)
    ensures FillOf(AdoptedRecord(snap, venue).filledQuantity).Some? <==> FillOf(snap.filledQuantity).Some?
  {
    hide DecimalText.ParseDecimal;
    NothingFilled();
  }

  lemma {:induction false} OneListedFill(s: Registry, venue: string, snap: OrderSnapshot)
    requires WellFiled(s.orders)
    ensures AllFillsParse(ListOne(s, venue, snap).orders) <==> AllFillsParse(s.orders) && !OneUnparsed(s, snap)
  {
    hide FillOf, Progress, AdoptedRecord, OrderRecords.Observe;
    var id, s' := snap.clientOrderId, ListOne(s, venue, snap);
    ListOneSparesOpen(s, venue, snap);
    if id != "" && id !in s.raced && id !in s.orders {
      AdoptedFillParsesIff(snap, venue);
      assert forall k :: k in s.orders ==> k in s'.orders && s'.orders[k] == s.orders[k];
      assert id in s'.orders && s'.orders[id] == AdoptedRecord(snap, venue);
    } else {
      SameOrdersParseAlike(s.orders, s'.orders);
    }
  }

  lemma {:induction false} ListedFills(s: Registry, venue: string, snaps: seq<OrderSnapshot>)
    requires WellFiled(s.orders)
    ensures AllFillsParse(ListAll(s, venue, snaps).orders)
            <==> AllFillsParse(s.orders) && !AdoptsUnparsed(s, venue, snaps)
    decreases |snaps|
  {
    hide AllFillsParse, OneUnparsed, ListOne;
    if snaps != [] {
      OneListedFill(s, venue, snaps[0]);
      ListOneSparesOpen(s, venue, snaps[0]);
      ListedFills(ListOne(s, venue, snaps[0]), venue, snaps[1..]);
    }
  }

  lemma {:induction false} StagedFill(cfg: Config, s: Sys, step: Step)
    requires Inv(s) && step.StagePlace?
    ensures AllFillsParse(NextStagePlace(cfg, s, step).reg.orders) <==> AllFillsParse(s.reg.orders)
  {
    hide FillOf, Inv;
    var s', id := NextStagePlace(cfg, s, step), step.req.clientOrderId;
    if id in s'.reg.orders && id !in s.reg.orders {
      UnfilledParses(s'.reg.orders[id]);
      assert s'.reg.orders == s.reg.orders[id := s'.reg.orders[id]];
      assert forall k :: k in s.reg.orders ==> k in s'.reg.orders && s'.reg.orders[k] == s.reg.orders[k];
    } else {
      assert s'.reg.orders == s.reg.orders;
    }
  }

  /** No step but a place and a listing adds an order. */
  lemma {:induction false} OthersAddNothing(cfg: Config, s: Sys, step: Step)
    requires Inv(s) && !step.StagePlace? && !step.ListOpenOrders?
    ensures Next(cfg, s, step).reg.orders.Keys == s.reg.orders.Keys
  {
    if (step.FinishPlace? || step.FinishAmend? || step.FinishCancel?) && step.t in s.calls {
      assert CallFits(s, step.t, s.calls[step.t]);
    }
  }

  /** The fills of a registry all parse after a step exactly when they did before and the step adopted
      none that does not. */
  lemma {:induction false} StepFills(cfg: Config, s: Sys, step: Step)
    requires Inv(s)
    ensures AllFillsParse(Next(cfg, s, step).reg.orders)
            <==> AllFillsParse(s.reg.orders) && !StepAdoptsUnparsed(s, step)
  {
    hide AllFillsParse, AdoptsUnparsed, Progress;
    if step.StagePlace? {
      StagedFill(cfg, s, step);
    } else if step.ListOpenOrders? {
      ListedFills(s.reg, step.venue, step.snaps);
    } else {
      OthersAddNothing(cfg, s, step);
      StepKeepsInv(cfg, s, step);
      SameOrdersParseAlike(s.reg.orders, Next(cfg, s, step).reg.orders);
    }
  }

  /** Over whole runs: every fill parses exactly when every one did at the start and no listing of the
      run adopted one that does not. */
  lemma {:induction false} RunFills(cfg: Config, s: Sys, steps: seq<Step>)
    requires Inv(s)
    ensures AllFillsParse(Run(cfg, s, steps).reg.orders)
            <==> AllFillsParse(s.reg.orders) && !RunAdoptsUnparsed(cfg, s, steps)
    decreases |steps|
  {
    hide AllFillsParse, StepAdoptsUnparsed, Inv, Progress, Next;
    if steps != [] {
      StepFills(cfg, s, steps[0]);
      StepKeepsInv(cfg, s, steps[0]);
      RunFills(cfg, Next(cfg, s, steps[0]), steps[1..]);
    }
  }

  // ---- the projection ----

  lemma {:induction false} ParsedFillsProject(orders: map<string, OrderRecord>, symbol: string,
                                              replaced: Option<OrderRecord>)
    requires AllFillsParse(orders)
    ensures Projectable(orders, symbol, replaced)
  {
    hide DecimalText.ParseDecimal;
    forall id | id in orders ensures FillReadable(orders[id]) {
      assert FillOf(orders[id].filledQuantity).Some?;
    }
  }

  /** A gateway whose listings never hand it a fill that does not parse never throws in a place or an
      amend, at any point of any run. */
  lemma {:induction false} ProjectionNeverThrows(cfg: Config, logging: bool, disk: seq<bool>, steps: seq<Step>,
                                                 symbol: string, replaced: Option<OrderRecord>)
    ensures !RunAdoptsUnparsed(cfg, Init(logging, disk), steps)
        ==> Projectable(Run(cfg, Init(logging, disk), steps).reg.orders, symbol, replaced)
  {
    hide RunAdoptsUnparsed, Projectable, Run;
    RunFills(cfg, Init(logging, disk), steps);
    if !RunAdoptsUnparsed(cfg, Init(logging, disk), steps) {
      ParsedFillsProject(Run(cfg, Init(logging, disk), steps).reg.orders, symbol, replaced);
    }
  }

  /** A live order of quantity one whose fill does not parse. */
  function BadSnapshot(one: string): OrderSnapshot {
    OrderSnapshot("a", "1", "S", Live, Buy, Limit, "", one, "x", "")
  }

  lemma {:induction false} LetterIsNoNumber()
    ensures ParseDecimal(OrZero("x")).Err? && FillOf("x").None?
  {
    assert "x"[0] == 'x' && Dot("x") == 1;
    assert !WellFormed("x");
  }

  /** The input that throws: one listing, from nothing, and the projection of its symbol reads a fill
      that did not parse. */
  lemma {:induction false} AdoptedFillThrows(cfg: Config, one: string)
    requires ParseDecimal(one).Ok?
    ensures var s := Next(cfg, Init(false, []), ListOpenOrders("v", [BadSnapshot(one)]));
            StepAdoptsUnparsed(Init(false, []), ListOpenOrders("v", [BadSnapshot(one)]))
            && !Projectable(s.reg.orders, "S", None)
  {
    hide DecimalText.ParseDecimal;
    LetterIsNoNumber();
    var s0, snap := Init(false, []).reg, BadSnapshot(one);
    var s1 := ListOne(s0, "v", snap);
    assert ListAll(s0, "v", [snap]) == ListAll(s1, "v", [snap][1..]) && [snap][1..] == [];
    assert ListAll(s1, "v", []) == s1;
    assert s1.orders == map["a" := AdoptedRecord(snap, "v")];
    assert !FillReadable(s1.orders["a"]);
  }
}
