/** Resolve-then-retry: when a place, cancel or amend ends without a verdict, look the order up before
    doing anything else. One engine serves both venues; they differ in how an error is read. The
    network and the venue are functions of a world they pass on, so an adversary may decide them. */
module Resilient {
  import opened Wrappers
  import opened Decimals
  import opened DecimalText
  import opened Retry

  datatype Venue = Okx | Binance

  /** What an order lookup shows. */
  datatype Info = Info(orderId: string, clientOrderId: string, status: string, price: string, quantity: string)
  datatype Ack = Ack(orderId: string, clientOrderId: string)
  datatype Lookup = Found(info: Info) | Absent | Inconclusive(error: Error)

  datatype Verb = Place | Cancel | Amend(newPrice: Option<string>, newQuantity: Option<string>)

  // ---- how the venues' answers are read ----

  function Lower(c: char): char {
    if 'A' <= c <= 'Z' then c + ('a' - 'A') else c
  }

  predicate ReadsAt(message: string, i: nat, word: string) {
    i + |word| <= |message| && forall k :: 0 <= k < |word| ==> Lower(message[i + k]) == word[k]
  }

  predicate Mentions(message: string, word: string) {
    exists i :: 0 <= i <= |message| && ReadsAt(message, i, word)
  }

  /** The rejection means the client order id already has an order. */
  predicate IsDuplicate(venue: Venue, e: Error) {
    match venue
    case Okx => e.code == "venue:51000"
    case Binance =>
      e.code == "venue:-4116" || e.code == "venue:-2010" || Mentions(e.message, "duplicat")
      || Mentions(e.message, "already exist")
  }

  function CanceledStatus(venue: Venue): string {
    if venue == Okx then "canceled" else "CANCELED"
  }

  /** A status a lookup can show for an order a re-sent cancel or amend may still reach. OKX takes any
      status but canceled. */
  predicate StillWorking(venue: Venue, status: string) {
    venue == Okx || status == "NEW" || status == "PARTIALLY_FILLED" || status == "PENDING_CANCEL"
  }

  /** Binance compares numbers: "23416.1" is "23416.10000000". */
  predicate ValueMatches(requested: string, reported: string) {
    || requested == "" || requested == reported
    || (ParseDecimal(requested).Ok? && ParseDecimal(reported).Ok?
        && Compare(ParseDecimal(requested).value, ParseDecimal(reported).value) == 0)
  }

  predicate FieldMatches(venue: Venue, requested: Option<string>, reported: string) {
    match venue
    case Okx => requested.Some? ==> requested.value == reported
    case Binance => ValueMatches(if requested.Some? then requested.value else "", reported)
  }

  /** The order carries every requested new value. */
  predicate Matches(venue: Venue, verb: Verb, info: Info) {
    verb.Amend?
    ==> FieldMatches(venue, verb.newPrice, info.price) && FieldMatches(venue, verb.newQuantity, info.quantity)
  }

  predicate NeedsLookup(venue: Venue, verb: Verb, e: Error) {
    match verb
    case Place => e.code == "transport" || IsDuplicate(venue, e)
    case Cancel => e.code == "transport" || e.code == (if venue == Okx then "venue:51017" else "venue:-2011")
    case Amend(_, _) => e.code == "transport"
  }

  datatype Decision = Succeed(ack: Ack) | Resend | Fail(error: Error)

  const UNRESOLVED := Error("transport", "outcome unresolved")

  function NotFound(venue: Venue): Error {
    Error(if venue == Okx then "venue:51603" else "venue:-2013", "target not found on the venue")
  }

  function AckOf(info: Info): Ack {
    Ack(info.orderId, info.clientOrderId)
  }

  function DecidePlace(venue: Venue, e: Error, l: Lookup): Decision {
    if l.Found? then Succeed(AckOf(l.info))
    else if IsDuplicate(venue, e) then Fail(e)
    else if l.Absent? then Resend
    else Fail(UNRESOLVED)
  }

  function DecideCancel(venue: Venue, e: Error, l: Lookup): Decision {
    if l.Found? && l.info.status == CanceledStatus(venue) then Succeed(AckOf(l.info))
    else if e.code != "transport" then Fail(e)
    else
      match l
      case Found(info) =>
        if StillWorking(venue, info.status) then Resend else Fail(Error("venue:-2011", "order is already done"))
      case Absent => Fail(NotFound(venue))
      case Inconclusive(_) => Fail(UNRESOLVED)
  }

  function DecideAmend(venue: Venue, verb: Verb, l: Lookup): Decision {
    match l
    case Found(info) =>
      if Matches(venue, verb, info) then Succeed(AckOf(info))
      else if StillWorking(venue, info.status) then Resend
      else Fail(Error("venue:-2011", "amend outcome partially unknown"))
    case Absent => Fail(NotFound(venue))
    case Inconclusive(_) => Fail(UNRESOLVED)
  }

  function Decide(venue: Venue, verb: Verb, e: Error, l: Lookup): Decision {
    match verb
    case Place => DecidePlace(venue, e, l)
    case Cancel => DecideCancel(venue, e, l)
    case Amend(_, _) => DecideAmend(venue, verb, l)
  }

  // ---- the engine ----

  /** The venue call of the verb, the order lookup, and the retry clock. */
  datatype Net<!W> = Net(
    send: W -> (W, Result<Ack>),
    look: W -> (W, Result<Option<Info>>),
    now: W -> (W, int),
    random: W -> (W, real),
    sleep: (W, int) -> W)

  /** What went over the wire, in order. */
  datatype Act = Sent(outcome: Result<Ack>) | Looked(shown: Result<Option<Info>>)
  datatype Traced<W> = Traced(world: W, trace: seq<Act>)

  function ReadClock<W>(net: Net<W>, t: Traced<W>): (Traced<W>, int) {
    (Traced(net.now(t.world).0, t.trace), net.now(t.world).1)
  }

  function DrawRandom<W>(net: Net<W>, t: Traced<W>): (Traced<W>, real) {
    (Traced(net.random(t.world).0, t.trace), net.random(t.world).1)
  }

  function Sleep<W>(net: Net<W>, t: Traced<W>, millis: int): Traced<W> {
    Traced(net.sleep(t.world, millis), t.trace)
  }

  /** The answer says the venue does not know the order. */
  predicate SaysAbsent(venue: Venue, answer: Result<Option<Info>>) {
    match answer
    case Ok(found) => found.None?
    case Err(e) => venue == Okx && e.code == "venue:51603"
  }

  function ReadLookup(venue: Venue, answer: Result<Option<Info>>): Result<Lookup> {
    if SaysAbsent(venue, answer) then Ok(Absent)
    else
      match answer
      case Ok(found) => Ok(Found(found.value))
      case Err(e) => if e.code == "transport" then Err(e) else Ok(Inconclusive(e))
  }

  function LookOnce<W>(venue: Venue, net: Net<W>, t: Traced<W>): (Traced<W>, Result<Lookup>, bool) {
    var (w, answer) := net.look(t.world);
    (Traced(w, t.trace + [Looked(answer)]), ReadLookup(venue, answer), ReadLookup(venue, answer).Err?)
  }

  function LookEnv<W>(venue: Venue, net: Net<W>): Env<Traced<W>, Lookup> {
    Env((t: Traced<W>) => LookOnce(venue, net, t), (t: Traced<W>) => ReadClock(net, t),
        (t: Traced<W>) => DrawRandom(net, t),
        (t: Traced<W>, millis: int) => Sleep(net, t, millis))
  }

  function AsLookup(r: Result<Lookup>): Lookup {
    match r
    case Ok(l) => l
    case Err(e) => Inconclusive(e)
  }

  /** Look the order up until the answer is conclusive. */
  function LookedUp<W>(venue: Venue, net: Net<W>, p: Policy, t: Traced<W>): (Traced<W>, Lookup) {
    var r := Retried(p, LookEnv(venue, net), t);
    (r.world, AsLookup(r.result))
  }

  method LookUp<W>(venue: Venue, net: Net<W>, p: Policy, t: Traced<W>) returns (t': Traced<W>, l: Lookup)
    requires ValidPolicy(p)
    ensures (t', l) == LookedUp(venue, net, p, t)
  {
    var result: Result<Lookup>;
    ghost var attempts, slept;
    t', result, attempts, slept := WithRetries(p, LookEnv(venue, net), t);
    l := AsLookup(result);
  }

  /** One attempt of the verb: send; if the outcome is open, resolve it. */
  function SendOnce<W>(venue: Venue, verb: Verb, net: Net<W>, p: Policy, t: Traced<W>): (Traced<W>, Result<Ack>, bool) {
    var (w, answer) := net.send(t.world);
    var t1 := Traced(w, t.trace + [Sent(answer)]);
    if answer.Ok? || !NeedsLookup(venue, verb, answer.error) then (t1, answer, false)
    else
      var (t2, l) := LookedUp(venue, net, p, t1);
      match Decide(venue, verb, answer.error, l)
      case Succeed(ack) => (t2, Ok(ack), false)
      case Resend => (t2, answer, true)
      case Fail(e) => (t2, Err(e), false)
  }

  function SendEnv<W>(venue: Venue, verb: Verb, net: Net<W>, p: Policy): Env<Traced<W>, Ack> {
    Env((t: Traced<W>) => SendOnce(venue, verb, net, p, t), (t: Traced<W>) => ReadClock(net, t),
        (t: Traced<W>) => DrawRandom(net, t),
        (t: Traced<W>, millis: int) => Sleep(net, t, millis))
  }

  function Resolved<W>(venue: Venue, verb: Verb, net: Net<W>, p: Policy, w: W): Outcome<Traced<W>, Ack> {
    Retried(p, SendEnv(venue, verb, net, p), Traced(w, []))
  }

  method ResilientCall<W>(venue: Venue, verb: Verb, net: Net<W>, p: Policy, w: W)
    returns (t: Traced<W>, result: Result<Ack>)
    requires ValidPolicy(p)
    ensures t == Resolved(venue, verb, net, p, w).world && result == Resolved(venue, verb, net, p, w).result
  {
    ghost var attempts, slept;
    t, result, attempts, slept := WithRetries(p, SendEnv(venue, verb, net, p), Traced(w, []));
  }

  /** Binance's match is numeric equality: exact values, or the same text. */
  lemma {:induction false} ValueMatchesIffEqual(requested: string, reported: string, n: nat)
    requires n >= MAX_DECIMAL_SCALE && ParseDecimal(requested).Ok? && ParseDecimal(reported).Ok? && requested != ""
    ensures ValueMatches(requested, reported)
            <==> At(ParseDecimal(requested).value, n) == At(ParseDecimal(reported).value, n)
  {
    CompareIsExact(ParseDecimal(requested).value, ParseDecimal(reported).value, n);
  }
}
