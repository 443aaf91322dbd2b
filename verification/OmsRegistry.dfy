/** The registry behind the order-management lock, as a value: one function per critical section,
    saying what it leaves behind, and the log events and their replay. */
module OmsRegistry {
  import opened Wrappers
  import opened OrderLifecycle
  import opened OrderRecords

  datatype OrderRequest = OrderRequest(
    clientOrderId: string, instrumentId: string, side: Side, orderType: OrderType,
    price: string, quantity: string, timeInForce: string)

  datatype OrderSnapshot = OrderSnapshot(
    clientOrderId: string, exchangeOrderId: string, instrumentId: string, state: OrderState,
    side: Side, orderType: OrderType, price: string, quantity: string,
    filledQuantity: string, averageFillPrice: string)

  // ---- log events ----

  datatype OrderTerms = OrderTerms(
    symbol: string, venue: string, side: Side, orderType: OrderType,
    price: string, quantity: string, timeInForce: string)

  datatype Event =
    | PlaceSubmitted(id: string, terms: OrderTerms)
    | PlaceAccepted(id: string, terms: OrderTerms, exchangeOrderId: string, version: nat)
    | Adopted(id: string, terms: OrderTerms, exchangeOrderId: string, version: nat,
              state: OrderState, filledQuantity: string, averageFillPrice: string)
    | RejectionRecorded(id: string, symbol: string, venue: string, code: string, reason: string)
    | Amended(id: string, price: string, quantity: string, state: OrderState, exchangeOrderId: string, version: nat)
    | StateChanged(id: string, state: OrderState, filledQuantity: string, averageFillPrice: string,
                   exchangeOrderId: string, version: nat)

  function TermsOf(r: OrderRecord): OrderTerms {
    OrderTerms(r.symbol, r.venue, r.side, r.orderType, r.price, r.quantity, r.timeInForce)
  }

  function LegVersion(r: OrderRecord): nat {
    if r.legs == [] then 1 else r.legs[|r.legs| - 1].version
  }

  function PlaceSubmittedEvent(r: OrderRecord): Event {
    PlaceSubmitted(r.clientOrderId, TermsOf(r))
  }

  function PlaceAcceptedEvent(r: OrderRecord): Event {
    PlaceAccepted(r.clientOrderId, TermsOf(r), r.exchangeOrderId, LegVersion(r))
  }

  function AdoptedEvent(r: OrderRecord): Event {
    Adopted(r.clientOrderId, TermsOf(r), r.exchangeOrderId, LegVersion(r), r.state, r.filledQuantity,
            r.averageFillPrice)
  }

  function RejectedEvent(r: OrderRecord): Event {
    var e := if r.rejection.Some? then r.rejection.value else Error("", "");
    RejectionRecorded(r.clientOrderId, r.symbol, r.venue, e.code, e.message)
  }

  function AmendedEvent(r: OrderRecord): Event {
    Amended(r.clientOrderId, r.price, r.quantity, r.state, r.exchangeOrderId, LegVersion(r))
  }

  function StateEvent(r: OrderRecord): Event {
    StateChanged(r.clientOrderId, r.state, r.filledQuantity, r.averageFillPrice, r.exchangeOrderId, LegVersion(r))
  }

  // ---- replay ----

  function FreshRecord(id: string, terms: OrderTerms, state: OrderState): OrderRecord {
    OrderRecord(id, terms.symbol, terms.venue, "", terms.side, terms.orderType, terms.timeInForce, terms.price,
                terms.quantity, state, "0", "", [], false, None)
  }

  function WithFirstLeg(r: OrderRecord, id: string, version: nat): OrderRecord {
    if id == "" then r else r.(exchangeOrderId := id, legs := [OrderLeg(if version == 0 then 1 else version, id)])
  }

  /** A known version is updated, a higher one appended, as read from the log. */
  function ReplayedLegs(legs: seq<OrderLeg>, version: nat, id: string): seq<OrderLeg>
    requires version > 0
  {
    if version > |legs| then legs + [OrderLeg(version, id)]
    else if id == "" then legs
    else legs[version - 1 := legs[version - 1].(exchangeOrderId := id)]
  }

  /** One event applied to the registry at startup. Events without a leg version (older logs) are
      not part of this model; an amended event that carries none is ignored. */
  function ApplyLogEvent(orders: map<string, OrderRecord>, e: Event): map<string, OrderRecord> {
    match e
    case PlaceSubmitted(id, terms) => orders[id := FreshRecord(id, terms, Pending)]
    case PlaceAccepted(id, terms, x, version) => orders[id := WithFirstLeg(FreshRecord(id, terms, Live), x, version)]
    case Adopted(id, terms, x, version, state, filled, average) =>
      orders[id := WithFirstLeg(FreshRecord(id, terms, state), x, version)
                   .(filledQuantity := filled, averageFillPrice := average, adopted := true)]
    case RejectionRecorded(id, symbol, venue, code, reason) =>
      var blank := FreshRecord(id, OrderTerms("", "", Buy, Limit, "", "", "GTC"), Pending);
      var r := if id in orders then orders[id] else blank;
      orders[id := r.(clientOrderId := id, state := Rejected, symbol := symbol, venue := venue,
                      rejection := Some(Error(code, reason)))]
    case Amended(id, price, quantity, state, x, version) =>
      if id !in orders || version == 0 then orders
      else
        var r := orders[id];
        orders[id := r.(price := if price != "" then price else r.price,
                        quantity := if quantity != "" then quantity else r.quantity,
                        legs := ReplayedLegs(r.legs, version, x),
                        exchangeOrderId := if x != "" then x else r.exchangeOrderId)]
    case StateChanged(id, state, filled, average, x, version) =>
      if id !in orders then orders
      else
        var r := Observe(orders[id], state, filled, average, "", "", true);
        orders[id := if r.exchangeOrderId == "" then NoteExchangeId(r, x) else r]
  }

  /** The registry after replaying a log into an empty one. */
  function Replay(events: seq<Event>): map<string, OrderRecord> {
    if events == [] then map[] else ApplyLogEvent(Replay(events[..|events| - 1]), events[|events| - 1])
  }

  // ---- the registry ----

  datatype Stats = Stats(applied: nat, stale: nat, unknown: nat, buffered: nat, legsDiscovered: nat,
                         logWriteFailures: nat)

  /** The log as the registry sees it: whether there is one, its events, and the outcomes the disk
      will report for the coming appends (appends past the end of that list succeed). */
  datatype Journal = Journal(enabled: bool, events: seq<Event>, disk: seq<bool>)

  datatype Registry = Registry(
    orders: map<string, OrderRecord>,
    raced: map<string, seq<ExecutionReport>>,
    notes: seq<(string, string)>,
    stats: Stats,
    log: Journal)

  datatype Config = Config(venues: set<string>, defaultVenue: string)

  const MAX_DISCOVERED_LEG_NOTES := 256

  function Put(s: Registry, id: string, r: OrderRecord): Registry {
    s.(orders := s.orders[id := r])
  }

  predicate AppendSucceeds(j: Journal) {
    !j.enabled || j.disk == [] || j.disk[0]
  }

  function Appended(j: Journal, e: Event): Journal {
    if !j.enabled then j
    else j.(events := if AppendSucceeds(j) then j.events + [e] else j.events,
            disk := if j.disk == [] then [] else j.disk[1..])
  }

  /** The log is append-only, and without a log nothing is written. */
  predicate LogGrows(j: Journal, j': Journal) {
    j'.enabled == j.enabled && j.events <= j'.events && (!j.enabled ==> j'.events == j.events)
  }

  /** Append one event; a failure is counted and leaves the log as it was. */
  function Logged(s: Registry, e: Event): (s': Registry)
    ensures LogGrows(s.log, s'.log)
  {
    s.(log := Appended(s.log, e),
       stats := if AppendSucceeds(s.log) then s.stats else s.stats.(logWriteFailures := s.stats.logWriteFailures + 1))
  }

  /** The newest discoveries survive. */
  function PushNote(notes: seq<(string, string)>, note: (string, string)): seq<(string, string)> {
    var all := notes + [note];
    if |all| > MAX_DISCOVERED_LEG_NOTES then all[|all| - MAX_DISCOVERED_LEG_NOTES..] else all
  }

  function NoteDiscovery(s: Registry, id: string, exchangeOrderId: string): (s': Registry)
    ensures s'.orders == s.orders && s'.raced == s.raced && s'.log == s.log
  {
    s.(notes := PushNote(s.notes, (id, exchangeOrderId)),
       stats := s.stats.(legsDiscovered := s.stats.legsDiscovered + 1))
  }

  /** One report applied to the record it names. */
  function ApplyReport(s: Registry, id: string, report: ExecutionReport): (s': Registry)
    requires id in s.orders
    ensures s'.orders == s.orders[id := Arbitrate(s.orders[id], report)] && s'.raced == s.raced
    ensures LogGrows(s.log, s'.log)
  {
    var r := s.orders[id];
    var r' := Arbitrate(r, report);
    var s1 := Put(if Adopts(r, report) then NoteDiscovery(s, id, report.exchangeOrderId) else s, id, r');
    if r' != Learned(r, report)
    then Logged(s1.(stats := s1.stats.(applied := s1.stats.applied + 1)), StateEvent(r'))
    else s1.(stats := s1.stats.(stale := s1.stats.stale + 1))
  }

  /** One order is this record now; the others are as they were. */
  predicate Updates(orders: map<string, OrderRecord>, id: string, r: OrderRecord, orders': map<string, OrderRecord>) {
    orders' == orders[id := r]
  }

  lemma {:induction false} UpdatedTwice(orders: map<string, OrderRecord>, id: string, orders1: map<string, OrderRecord>,
                                        orders2: map<string, OrderRecord>, r1: OrderRecord, r2: OrderRecord)
    requires Updates(orders, id, r1, orders1) && Updates(orders1, id, r2, orders2)
    ensures Updates(orders, id, r2, orders2)
  {
  }

  /** A buffered batch, in arrival order. */
  function ApplyReports(s: Registry, id: string, reports: seq<ExecutionReport>): (s': Registry)
    requires id in s.orders
    ensures Updates(s.orders, id, ArbitrateAll(s.orders[id], reports), s'.orders) && s'.raced == s.raced
    ensures LogGrows(s.log, s'.log)
    decreases |reports|
  {
    if reports == [] then s
    else
      var s1 := ApplyReport(s, id, reports[0]);
      var s2 := ApplyReports(s1, id, reports[1..]);
      assert Updates(s.orders, id, s1.orders[id], s1.orders);
      hide Updates, Arbitrate, ApplyReport;
      UpdatedTwice(s.orders, id, s1.orders, s2.orders, s1.orders[id], ArbitrateAll(s1.orders[id], reports[1..]));
      s2
  }

  function RacedFor(s: Registry, id: string): seq<ExecutionReport> {
    if id in s.raced then s.raced[id] else []
  }

  function Drained(s: Registry, id: string): Registry {
    s.(raced := s.raced - {id})
  }

  predicate HasConnector(cfg: Config, venue: string) {
    (if venue == "" then cfg.defaultVenue else venue) in cfg.venues
  }

  // ---- place ----

  function StagedRecord(req: OrderRequest, venue: string): OrderRecord {
    FreshRecord(req.clientOrderId,
                OrderTerms(req.instrumentId, venue, req.side, req.orderType, req.price, req.quantity,
                           if req.timeInForce == "" then "GTC" else req.timeInForce), Pending)
  }

  datatype PlaceDecision =
    | Replayed(record: OrderRecord)
    | Refused(error: Error)
    | Send

  /** Dedup, venue, risk verdict, and the intent persisted before anything is sent. */
  function PlaceStage(s: Registry, cfg: Config, req: OrderRequest, venue: string,
                      verdict: Option<Error>): (r: (Registry, PlaceDecision))
    ensures r.1.Send? ==>
              var id, v := req.clientOrderId, if venue == "" then cfg.defaultVenue else venue;
              && id !in s.orders && r.0.orders == s.orders[id := StagedRecord(req, v)]
              && r.0.raced.Keys == s.raced.Keys + {id}
              && r.0.raced == (if id in s.raced then s.raced else s.raced[id := []])
    ensures r.0.stats == s.stats.(logWriteFailures := r.0.stats.logWriteFailures) && LogGrows(s.log, r.0.log)
    ensures !r.1.Send? ==>
              var id, v := req.clientOrderId, if venue == "" then cfg.defaultVenue else venue;
              var refused := StagedRecord(req, v).(state := Rejected, rejection := verdict);
              && r.0.raced == s.raced
              && (r.0.orders == s.orders || (id !in s.orders && r.0.orders == s.orders[id := refused]))
  {
    var id := req.clientOrderId;
    var v := if venue == "" then cfg.defaultVenue else venue;
    if id in s.orders then
      (s, if s.orders[id].rejection.Some? then Refused(s.orders[id].rejection.value) else Replayed(s.orders[id]))
    else if v !in cfg.venues then (s, Refused(Error("invalid_request", "unsupported venue")))
    else if verdict.Some? then
      var r := StagedRecord(req, v).(state := Rejected, rejection := verdict);
      (Put(Logged(s, RejectedEvent(r)), id, r),
       Refused(if AppendSucceeds(s.log) then verdict.value else Error("io", "failed to append to event log")))
    else if !AppendSucceeds(s.log) then
      (Logged(s, PlaceSubmittedEvent(StagedRecord(req, v))),
       Refused(Error("persistence", "order was not sent to the venue")))
    else
      var s1 := Put(Logged(s, PlaceSubmittedEvent(StagedRecord(req, v))), id, StagedRecord(req, v));
      (s1.(raced := if id in s1.raced then s1.raced else s1.raced[id := []]), Send)
  }

  function AckedPlace(r: OrderRecord, exchangeOrderId: string): OrderRecord {
    NoteExchangeId(r, exchangeOrderId).(state := Advance(r.state, Live))
  }

  function RejectedRecord(r: OrderRecord, e: Error): OrderRecord {
    if Legal(r.state, Rejected) then r.(state := Rejected, rejection := Some(e)) else r
  }

  function PlaceRejected(s: Registry, id: string, e: Error): (s': Registry)
    requires id in s.orders
    ensures s'.orders == s.orders[id := RejectedRecord(s.orders[id], e)] && s'.raced == s.raced
    ensures LogGrows(s.log, s'.log)
  {
    var r := s.orders[id];
    var r1 := r.(state := Rejected, rejection := Some(e));
    if Legal(r.state, Rejected) then Logged(Put(s, id, r1), RejectedEvent(r1)) else s
  }

  /** The ack is logged before the reports that raced it; a failed append ends the call there. */
  function PlaceAcked(s: Registry, id: string, exchangeOrderId: string, raced: seq<ExecutionReport>): (s': Registry)
    requires id in s.orders
    ensures s'.orders == s.orders[id := ArbitrateAll(AckedPlace(s.orders[id], exchangeOrderId),
                                                     if AppendSucceeds(s.log) then raced else [])]
    ensures s'.raced == s.raced && LogGrows(s.log, s'.log)
  {
    var r := AckedPlace(s.orders[id], exchangeOrderId);
    var s1 := Logged(Put(s, id, r), PlaceAcceptedEvent(r));
    if AppendSucceeds(s.log) then ApplyReports(s1, id, raced) else s1
  }

  /** The venue's answer to a place, then the reports that raced it. */
  function PlaceFinish(s: Registry, id: string, answer: Result<string>): (r: (Registry, Result<OrderRecord>))
    ensures LogGrows(s.log, r.0.log)
  {
    var raced, s0 := RacedFor(s, id), Drained(s, id);
    if id !in s.orders then (s0, Err(Error("internal", "pending place vanished")))
    else
      match answer
      case Err(e) => (if e.code == "transport" then ApplyReports(s0, id, raced) else PlaceRejected(s0, id, e), Err(e))
      case Ok(x) =>
        var s1 := PlaceAcked(s0, id, x, raced);
        (s1, if AppendSucceeds(s.log) then Ok(s1.orders[id])
             else Err(Error("persistence", "order was accepted by the venue; retry replays it")))
  }

  // ---- cancel ----

  datatype CancelDecision = CancelRefused(error: Error) | AlreadyCanceled(record: OrderRecord) | SendCancel

  function CancelStage(s: Registry, cfg: Config, id: string): CancelDecision {
    if id !in s.orders then CancelRefused(Error("not_found", "unknown clientOrderId"))
    else
      var r := s.orders[id];
      if r.state == Pending then CancelRefused(Error("order_pending", "order is pending venue acknowledgement"))
      else if r.state == Canceled then AlreadyCanceled(r)
      else if IsTerminal(r.state) then CancelRefused(Error("order_terminal", "order is terminal"))
      else if !HasConnector(cfg, r.venue) then CancelRefused(Error("internal", "no connector for venue"))
      else SendCancel
  }

  function CanceledRecord(r: OrderRecord, exchangeOrderId: string): OrderRecord {
    NoteExchangeId(r, exchangeOrderId).(state := Advance(r.state, Canceled))
  }

  function CancelFinish(s: Registry, id: string, answer: Result<string>): (r: (Registry, Result<OrderRecord>))
    ensures id in s.orders ==>
              r.0.orders == if answer.Ok? then s.orders[id := CanceledRecord(s.orders[id], answer.value)] else s.orders
    ensures r.0.raced == s.raced && LogGrows(s.log, r.0.log)
  {
    if id !in s.orders then (s, Err(Error("not_found", "unknown clientOrderId")))
    else
      match answer
      case Err(e) => (s, Err(e))
      case Ok(x) =>
        var r := CanceledRecord(s.orders[id], x);
        var s1 := Put(s, id, r);
        (if Legal(s.orders[id].state, Canceled) then Logged(s1, StateEvent(r)) else s1, Ok(r))
  }

  // ---- amend ----

  datatype AmendDecision = AmendRefused(error: Error) | SendAmend(price: string, quantity: string)

  function AmendStage(s: Registry, cfg: Config, id: string, price: Option<string>, quantity: Option<string>,
                      verdict: Option<Error>): (r: (Registry, AmendDecision))
    ensures !r.1.SendAmend? ==> r.0 == s
    ensures r.1.SendAmend?
            ==> id in s.orders && s.orders[id].state != Pending && id !in s.raced
                && r.0 == s.(raced := s.raced[id := []])
  {
    if price.None? && quantity.None?
    then (s, AmendRefused(Error("protocol", "amend requires a new price and/or quantity")))
    else if id !in s.orders then (s, AmendRefused(Error("not_found", "unknown clientOrderId")))
    else
      var r := s.orders[id];
      if r.state == Pending then (s, AmendRefused(Error("order_pending", "order is pending venue acknowledgement")))
      else if IsTerminal(r.state) then (s, AmendRefused(Error("order_terminal", "order is terminal")))
      else if !HasConnector(cfg, r.venue) then (s, AmendRefused(Error("internal", "no connector for venue")))
      else if verdict.Some? then (s, AmendRefused(verdict.value))
      else if id in s.raced then (s, AmendRefused(Error("order_busy", "a place/amend is still in flight")))
      else (s.(raced := s.raced[id := []]),
            SendAmend(if price.Some? then price.value else r.price,
                      if quantity.Some? then quantity.value else r.quantity))
  }

  function AmendedRecord(r: OrderRecord, price: string, quantity: string, exchangeOrderId: string): OrderRecord {
    AppendAmendLeg(r.(price := price, quantity := quantity), exchangeOrderId)
  }

  /** No leg is installed, unless the buffered reports show one the ack was lost for. */
  function AmendFailed(s: Registry, id: string, raced: seq<ExecutionReport>): (s': Registry)
    requires id in s.orders
    ensures Updates(s.orders, id, ArbitrateAll(AdoptNewest(s.orders[id], raced), raced), s'.orders)
            && s'.raced == s.raced
    ensures LogGrows(s.log, s'.log)
  {
    var r := s.orders[id];
    var newest := NewestUnknown(r.legs, raced);
    var s1 := if r.legs != [] && newest != "" then NoteDiscovery(s, id, newest) else s;
    var adopted := AdoptNewest(r, raced);
    var s2 := Put(s1, id, adopted);
    var s3 := ApplyReports(s2, id, raced);
    assert Updates(s.orders, id, adopted, s2.orders);
    hide Updates, AdoptNewest, NewestUnknown, Arbitrate, ArbitrateAll, NoteDiscovery;
    UpdatedTwice(s.orders, id, s2.orders, s3.orders, adopted, ArbitrateAll(adopted, raced));
    s3
  }

  /** The ack is logged before the reports that raced it; a failed append ends the call there. */
  function AmendAcked(s: Registry, id: string, price: string, quantity: string, exchangeOrderId: string,
                      raced: seq<ExecutionReport>): (s': Registry)
    requires id in s.orders
    ensures s'.orders == s.orders[id := ArbitrateAll(AmendedRecord(s.orders[id], price, quantity, exchangeOrderId),
                                                     if AppendSucceeds(s.log) then raced else [])]
    ensures s'.raced == s.raced && LogGrows(s.log, s'.log)
  {
    var r := AmendedRecord(s.orders[id], price, quantity, exchangeOrderId);
    var s1 := Logged(Put(s, id, r), AmendedEvent(r));
    if AppendSucceeds(s.log) then ApplyReports(s1, id, raced) else s1
  }

  /** The venue's answer to an amend, then the reports that raced it. */
  function AmendFinish(s: Registry, id: string, price: string, quantity: string,
                       answer: Result<string>): (r: (Registry, Result<OrderRecord>))
    ensures LogGrows(s.log, r.0.log)
  {
    var raced, s0 := RacedFor(s, id), Drained(s, id);
    if id !in s.orders then (s0, Err(Error("not_found", "unknown clientOrderId")))
    else
      match answer
      case Err(e) => (AmendFailed(s0, id, raced), Err(e))
      case Ok(x) =>
        var s1 := AmendAcked(s0, id, price, quantity, x, raced);
        (s1, if AppendSucceeds(s.log) then Ok(s1.orders[id])
             else Err(Error("persistence", "the amend was accepted by the venue")))
  }

  // ---- execution reports ----

  /** Buffered while a place or amend call is open for its order, else applied at once. */
  function Deliver(s: Registry, report: ExecutionReport): (s': Registry)
    ensures LogGrows(s.log, s'.log)
  {
    var id := report.clientOrderId;
    if id in s.raced then
      s.(raced := s.raced[id := s.raced[id] + [report]], stats := s.stats.(buffered := s.stats.buffered + 1))
    else if id !in s.orders then s.(stats := s.stats.(unknown := s.stats.unknown + 1))
    else ApplyReport(s, id, report)
  }

  // ---- reconcile ----

  function AdoptedRecord(snap: OrderSnapshot, venue: string): OrderRecord {
    WithFirstLeg(FreshRecord(snap.clientOrderId,
                             OrderTerms(snap.instrumentId, venue, snap.side, snap.orderType, snap.price, snap.quantity,
                                        "GTC"),
                             snap.state), snap.exchangeOrderId, 1)
    .(filledQuantity := if snap.filledQuantity == "" then "0" else snap.filledQuantity,
      averageFillPrice := snap.averageFillPrice, adopted := true)
  }

  function ObserveSnapshot(r: OrderRecord, snap: OrderSnapshot): OrderRecord {
    Observe(r, snap.state, snap.filledQuantity, snap.averageFillPrice, snap.price, snap.quantity, true)
  }

  function Backfilled(r: OrderRecord, exchangeOrderId: string): OrderRecord {
    if r.exchangeOrderId == "" then NoteExchangeId(r, exchangeOrderId) else r
  }

  function ListedRecord(orders: map<string, OrderRecord>, venue: string, snap: OrderSnapshot): OrderRecord {
    var id := snap.clientOrderId;
    if id in orders then ObserveSnapshot(Backfilled(orders[id], snap.exchangeOrderId), snap)
    else AdoptedRecord(snap, venue)
  }

  /** One order of a venue's open-order listing. */
  function ListOne(s: Registry, venue: string, snap: OrderSnapshot): (s': Registry)
    ensures snap.clientOrderId == "" || snap.clientOrderId in s.raced ==> s' == s
    ensures !(snap.clientOrderId == "" || snap.clientOrderId in s.raced) ==>
              s'.orders == s.orders[snap.clientOrderId := ListedRecord(s.orders, venue, snap)]
    ensures s'.raced == s.raced && LogGrows(s.log, s'.log)
  {
    var id := snap.clientOrderId;
    var r' := ListedRecord(s.orders, venue, snap);
    if id == "" || id in s.raced then s
    else if id !in s.orders then Put(Logged(s, AdoptedEvent(r')), id, r')
    else if r' != s.orders[id] then Logged(Put(s, id, r'), StateEvent(r'))
    else s
  }

  function ListAll(s: Registry, venue: string, snaps: seq<OrderSnapshot>): (s': Registry)
    ensures LogGrows(s.log, s'.log)
    decreases |snaps|
  {
    if snaps == [] then s else ListAll(ListOne(s, venue, snaps[0]), venue, snaps[1..])
  }

  /** The ids a reconcile pass decides to look up. */
  function Worklist(s: Registry): set<string> {
    set id | id in s.orders && !IsTerminal(s.orders[id].state) && id !in s.raced
  }

  /** What a lookup teaches about the leg table: a first id, or one no leg knows. */
  function LearnedFromSnapshot(r: OrderRecord, exchangeOrderId: string): OrderRecord {
    if r.exchangeOrderId == "" || IsUnknown(r.legs, exchangeOrderId) then NoteExchangeId(r, exchangeOrderId) else r
  }

  predicate ConclusivelyAbsent(answer: Result<Option<OrderSnapshot>>) {
    match answer
    case Ok(found) => found.None?
    case Err(e) => e.code == "venue:51603" || e.code == "venue:51016"
  }

  const VENUE_ABSENT := Error("venue_absent", "order is unknown to the venue after reconciliation")

  function ResolvedRecord(r: OrderRecord, found: Result<Option<OrderSnapshot>>): OrderRecord {
    if found.Ok? && found.value.Some? then
      ObserveSnapshot(LearnedFromSnapshot(r, found.value.value.exchangeOrderId), found.value.value)
    else if ConclusivelyAbsent(found) then RejectedRecord(r, VENUE_ABSENT)
    else r
  }

  function ResolveFound(s: Registry, id: string, snap: OrderSnapshot): (s': Registry)
    requires id in s.orders
    ensures s'.orders == s.orders[id := ResolvedRecord(s.orders[id], Ok(Some(snap)))] && s'.raced == s.raced
    ensures LogGrows(s.log, s'.log)
  {
    var r := s.orders[id];
    var adopts := r.exchangeOrderId != "" && IsUnknown(r.legs, snap.exchangeOrderId);
    var learns := adopts || (r.exchangeOrderId == "" && snap.exchangeOrderId != "");
    var r1 := LearnedFromSnapshot(r, snap.exchangeOrderId);
    var r' := ObserveSnapshot(r1, snap);
    var s1 := Put(if adopts then NoteDiscovery(s, id, snap.exchangeOrderId) else s, id, r');
    if learns || r' != r1 then Logged(s1, StateEvent(r')) else s1
  }

  /** The answer to one lookup; the buffer is not consulted again. */
  function Resolve(s: Registry, id: string, found: Result<Option<OrderSnapshot>>): (s': Registry)
    ensures id in s.orders ==> s'.orders == s.orders[id := ResolvedRecord(s.orders[id], found)]
    ensures id !in s.orders ==> s' == s
    ensures s'.raced == s.raced && LogGrows(s.log, s'.log)
  {
    if id !in s.orders then s
    else if found.Ok? && found.value.Some? then ResolveFound(s, id, found.value.value)
    else if ConclusivelyAbsent(found) && Legal(s.orders[id].state, Rejected) then
      var r' := RejectedRecord(s.orders[id], VENUE_ABSENT);
      Logged(Logged(Put(s, id, r'), StateEvent(r')), RejectedEvent(r'))
    else s
  }
}
