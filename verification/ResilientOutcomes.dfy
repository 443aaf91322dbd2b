/** What a resilient verb answers, read off the raw answers of the venue: for each verb, which answers
    to a send and to the lookups after it end the call with what, and which lead to a re-send. */
module ResilientOutcomes {
  import opened Wrappers
  import opened Decimals
  import opened DecimalText
  import opened Retry
  import opened Resilient
  import opened ResilientTheorems

  // ---- the tables ----

  /** A verb's attempt ends the call, or is repeated. */
  datatype Ending = Ends(result: Result<Ack>) | Resends

  function LowerCase(s: string): (r: string)
    ensures |r| == |s|
    ensures forall i :: 0 <= i < |s| ==> r[i] == if 'A' <= s[i] <= 'Z' then s[i] + ('a' - 'A') else s[i]
  {
    seq(|s|, i requires 0 <= i < |s| => if 'A' <= s[i] <= 'Z' then s[i] + ('a' - 'A') else s[i])
  }

  predicate Contains(s: string, word: string) {
    exists i :: 0 <= i <= |s| && word <= s[i..]
  }

  /** The venue refuses a place because the id has an order. */
  predicate RefusesDuplicate(venue: Venue, e: Error) {
    match venue
    case Okx => e.code == "venue:51000"
    case Binance =>
      || e.code == "venue:-4116" || e.code == "venue:-2010"
      || Contains(LowerCase(e.message), "duplicat") || Contains(LowerCase(e.message), "already exist")
  }

  /** The venue answers that it does not know the order. */
  predicate ShowsNone(venue: Venue, looked: Result<Option<Info>>) {
    looked == Ok(None) || (venue == Okx && looked.Err? && looked.error.code == "venue:51603")
  }

  function Acknowledges(info: Info): Result<Ack> {
    Ok(Ack(info.orderId, info.clientOrderId))
  }

  /** Place: an ack, or an error that is neither transport nor a duplicate, is the answer. Otherwise the
      order is looked up: found, its ids are the answer; a duplicate not found stays refused; absent, it
      is sent again; else the outcome is unresolved. */
  predicate PlaceEnds(venue: Venue, sent: Result<Ack>, looked: Option<Result<Option<Info>>>, end: Ending) {
    match sent
    case Ok(_) => looked.None? && end == Ends(sent)
    case Err(e) =>
      if e.code != "transport" && !RefusesDuplicate(venue, e) then looked.None? && end == Ends(sent)
      else
        match looked
        case None => false
        case Some(Ok(Some(info))) => end == Ends(Acknowledges(info))
        case Some(other) =>
          if RefusesDuplicate(venue, e) then end == Ends(sent)
          else if ShowsNone(venue, other) then end == Resends
          else end == Ends(Err(Error("transport", "outcome unresolved")))
  }

  /** Cancel: looked up after transport and after the venue's word that the order is done. Found
      canceled is success. After transport any other order is canceled again, but on Binance only one
      that works or is being canceled; an absent one is not found. */
  predicate CancelEnds(venue: Venue, sent: Result<Ack>, looked: Option<Result<Option<Info>>>, end: Ending) {
    match sent
    case Ok(_) => looked.None? && end == Ends(sent)
    case Err(e) =>
      if e.code != "transport" && e.code != (if venue == Okx then "venue:51017" else "venue:-2011")
      then looked.None? && end == Ends(sent)
      else
        match looked
        case None => false
        case Some(Ok(Some(info))) =>
          if info.status == (if venue == Okx then "canceled" else "CANCELED") then end == Ends(Acknowledges(info))
          else if e.code != "transport" then end == Ends(sent)
          else if venue == Okx || info.status in ["NEW", "PARTIALLY_FILLED", "PENDING_CANCEL"] then end == Resends
          else end == Ends(Err(Error("venue:-2011", "order is already done")))
        case Some(other) =>
          if e.code != "transport" then end == Ends(sent)
          else if ShowsNone(venue, other)
          then end == Ends(Err(Error(if venue == Okx then "venue:51603" else "venue:-2013",
                                     "target not found on the venue")))
          else end == Ends(Err(Error("transport", "outcome unresolved")))
  }

  /** The same number at eight digits. */
  predicate SameNumber(a: string, b: string) {
    FillOf8(a).Some? && FillOf8(a) == FillOf8(b)
  }

  function FillOf8(text: string): Option<int> {
    match ParseDecimal(text)
    case Ok(d) => Some(At(d, 8))
    case Err(_) => None
  }

  /** OKX compares texts, Binance numbers; what was not asked for matches. */
  predicate ShowsRequested(venue: Venue, requested: Option<string>, shown: string) {
    match requested
    case None => true
    case Some(value) => value == shown || (venue == Binance && (value == "" || SameNumber(value, shown)))
  }

  /** Amend: looked up after transport only. Found with every requested value is success; any other order
      is amended again, but on Binance only one that works or is being canceled. */
  predicate AmendEnds(venue: Venue, price: Option<string>, quantity: Option<string>, sent: Result<Ack>,
                      looked: Option<Result<Option<Info>>>, end: Ending)
  {
    match sent
    case Ok(_) => looked.None? && end == Ends(sent)
    case Err(e) =>
      if e.code != "transport" then looked.None? && end == Ends(sent)
      else
        match looked
        case None => false
        case Some(Ok(Some(info))) =>
          if ShowsRequested(venue, price, info.price) && ShowsRequested(venue, quantity, info.quantity)
          then end == Ends(Acknowledges(info))
          else if venue == Okx || info.status in ["NEW", "PARTIALLY_FILLED", "PENDING_CANCEL"] then end == Resends
          else end == Ends(Err(Error("venue:-2011", "amend outcome partially unknown")))
        case Some(other) =>
          if ShowsNone(venue, other)
          then end == Ends(Err(Error(if venue == Okx then "venue:51603" else "venue:-2013",
                                     "target not found on the venue")))
          else end == Ends(Err(Error("transport", "outcome unresolved")))
  }

  predicate VerbEnds(venue: Venue, verb: Verb, sent: Result<Ack>, looked: Option<Result<Option<Info>>>, end: Ending) {
    match verb
    case Place => PlaceEnds(venue, sent, looked, end)
    case Cancel => CancelEnds(venue, sent, looked, end)
    case Amend(price, quantity) => AmendEnds(venue, price, quantity, sent, looked, end)
  }

  // ---- one attempt ----

  predicate IsTransport(looked: Result<Option<Info>>) {
    looked.Err? && looked.error.code == "transport"
  }

  /** The clock of the network can show the whole budget spent. */
  ghost predicate BudgetEnds<W(!new)>(net: Net<W>, p: Policy, start: int) {
    exists v {:trigger net.now(v)} :: net.now(v).1 >= start + p.budget * NANOS_PER_MILLI
  }

  /** A lookup asks again after transport, and after nothing else, until its attempts or its budget are
      used up; its last answer decides. */
  ghost predicate Asks<W(!new)>(net: Net<W>, p: Policy, looks: seq<Act>) {
    && (forall j :: 0 <= j < |looks| ==> looks[j].Looked?)
    && (forall j :: 0 <= j < |looks| - 1 ==> IsTransport(looks[j].shown))
    && (looks != [] && IsTransport(looks[|looks| - 1].shown) ==>
          |looks| == p.maxAttempts || exists start :: BudgetEnds(net, p, start))
  }

  /** Everything on the wire is an answer of the network. */
  ghost predicate Answered<W(!new)>(net: Net<W>, trace: seq<Act>) {
    && (forall j ::
          0 <= j < |trace| && trace[j].Sent? ==> exists v {:trigger net.send(v)} :: net.send(v).1 == trace[j].outcome)
    && (forall j ::
          0 <= j < |trace| && trace[j].Looked? ==> exists v {:trigger net.look(v)} :: net.look(v).1 == trace[j].shown)
  }

  function LastShown(looks: seq<Act>): Option<Result<Option<Info>>> {
    if looks != [] && looks[|looks| - 1].Looked? then Some(looks[|looks| - 1].shown) else None
  }

  /** One attempt on the wire, and how it ends. */
  ghost predicate Attempt<W(!new)>(venue: Venue, verb: Verb, net: Net<W>, p: Policy, acts: seq<Act>, end: Ending) {
    && acts != [] && acts[0].Sent? && Asks(net, p, acts[1..]) && Answered(net, acts)
    && VerbEnds(venue, verb, acts[0].outcome, LastShown(acts[1..]), end)
  }

  // ---- the lookup ----

  /** What the last answer of a lookup means. */
  function Read(venue: Venue, looked: Result<Option<Info>>): Lookup {
    match looked
    case Ok(Some(info)) => Found(info)
    case Ok(None) => Absent
    case Err(e) => if venue == Okx && e.code == "venue:51603" then Absent else Inconclusive(e)
  }

  /** Lookups that have only met transport errors. */
  predicate Unsettled(looks: seq<Act>) {
    forall j :: 0 <= j < |looks| ==> looks[j].Looked? && IsTransport(looks[j].shown)
  }

  lemma {:induction false} AnotherLook<W(!new)>(net: Net<W>, p: Policy, before: seq<Act>, w: W, start: int)
    requires Unsettled(before) && Answered(net, before)
    ensures var answer := net.look(w).1;
            var looks := before + [Looked(answer)];
            && Answered(net, looks)
            && (IsTransport(answer) ==> Unsettled(looks))
            && (!IsTransport(answer) || |looks| == p.maxAttempts || BudgetEnds(net, p, start) ==> Asks(net, p, looks))
  {
    hide IsTransport, BudgetEnds;
    assert net.look(w).1 == net.look(w).1;
  }

  lemma {:induction false} LookupIsRead(venue: Venue, answer: Result<Option<Info>>)
    ensures ReadLookup(venue, answer).Err? <==> IsTransport(answer)
    ensures AsLookup(ReadLookup(venue, answer)) == Read(venue, answer)
  {
    assert |"transport"| != |"venue:51603"|;
  }

  /** A look is repeated exactly after transport, while attempts and budget last. */
  lemma {:induction false} LookAgainIff<W(!new)>(venue: Venue, net: Net<W>, p: Policy, t: Traced<W>, deadline: int,
                                                 index: nat)
    returns (more: bool, millis: int)
    requires index < p.maxAttempts
    ensures var (w1, answer) := net.look(t.world);
            var t1 := Traced(w1, t.trace + [Looked(answer)]);
            var r := RetryFrom(p, LookEnv(venue, net), t, deadline, index);
            && (more <==> IsTransport(answer) && index + 1 < p.maxAttempts && net.now(w1).1 < deadline)
            && (more ==> var rest := RetryFrom(p, LookEnv(venue, net), Waited(net, t1, millis), deadline, index + 1);
                         r.world == rest.world && r.result == rest.result)
            && (!more ==> r.world.trace == t1.trace && AsLookup(r.result) == Read(venue, answer)
                          && (!IsTransport(answer) ==> r.world == t1))
  {
    hide ReadLookup, IsTransport, Read, LookEnv, Retry.RetryFrom;
    LookupIsRead(venue, net.look(t.world).1);
    more, millis := LookTurn(venue, net, p, t, deadline, index);
  }

  lemma {:induction false} LooksAsk<W(!new)>(venue: Venue, net: Net<W>, p: Policy, t: Traced<W>, start: int, index: nat,
                                             before: seq<Act>)
    returns (looks: seq<Act>)
    requires index < p.maxAttempts && |before| == index && Unsettled(before) && Answered(net, before)
    ensures var r := RetryFrom(p, LookEnv(venue, net), t, start + p.budget * NANOS_PER_MILLI, index);
            && r.world.trace == t.trace + looks && Asks(net, p, before + looks) && Answered(net, before + looks)
            && looks != [] && looks[|looks| - 1].Looked?
            && AsLookup(r.result) == Read(venue, looks[|looks| - 1].shown)
    decreases p.maxAttempts - index
  {
    hide Asks, Answered, Unsettled, IsTransport, Read, LookEnv, Retry.RetryFrom;
    var (w1, answer) := net.look(t.world);
    var t1 := Traced(w1, t.trace + [Looked(answer)]);
    var more, millis := LookAgainIff(venue, net, p, t, start + p.budget * NANOS_PER_MILLI, index);
    AnotherLook(net, p, before, t.world, start);
    if more {
      var rest := LooksAsk(venue, net, p, Waited(net, t1, millis), start, index + 1, before + [Looked(answer)]);
      looks := [Looked(answer)] + rest;
      assert before + [Looked(answer)] + rest == before + looks;
      assert t1.trace + rest == t.trace + looks;
    } else {
      looks := [Looked(answer)];
    }
  }

  lemma {:induction false} LookUpAsks<W(!new)>(venue: Venue, net: Net<W>, p: Policy, t: Traced<W>)
    returns (looks: seq<Act>)
    requires p.maxAttempts >= 1
    ensures var (t', l) := LookedUp(venue, net, p, t);
            && t'.trace == t.trace + looks && Asks(net, p, looks) && Answered(net, looks)
            && looks != [] && looks[|looks| - 1].Looked? && l == Read(venue, looks[|looks| - 1].shown)
  {
    hide Asks, Read, LookEnv, Retry.RetryFrom, Answered, Unsettled, LookedUp;
    NothingAsked(net);
    var t1, deadline := LookUpStarts(venue, net, p, t);
    looks := LooksAsk(venue, net, p, t1, net.now(t.world).1, 0, []);
    assert [] + looks == looks;
  }

  lemma {:induction false} NothingAsked<W(!new)>(net: Net<W>)
    ensures Unsettled([]) && Answered(net, [])
  {
  }

  // ---- the decision ----

  lemma {:induction false} MentionsIsContains(message: string, word: string)
    ensures Mentions(message, word) <==> Contains(LowerCase(message), word)
  {
    var lower := LowerCase(message);
    if i :| 0 <= i <= |message| && ReadsAt(message, i, word) {
      assert forall k :: 0 <= k < |word| ==> lower[i..][k] == lower[i + k];
      assert word <= lower[i..];
    }
    if i :| 0 <= i <= |lower| && word <= lower[i..] {
      assert forall k :: 0 <= k < |word| ==> lower[i + k] == lower[i..][k] == word[k];
      assert ReadsAt(message, i, word);
    }
  }

  lemma {:induction false} DuplicateIsRefused(venue: Venue, e: Error)
    ensures IsDuplicate(venue, e) <==> RefusesDuplicate(venue, e)
  {
    hide Mentions, Contains;
    MentionsIsContains(e.message, "duplicat");
    MentionsIsContains(e.message, "already exist");
  }

  lemma {:induction false} MatchIsShown(venue: Venue, requested: Option<string>, shown: string)
    ensures FieldMatches(venue, requested, shown) <==> ShowsRequested(venue, requested, shown)
  {
    hide DecimalText.ParseDecimal, Compare;
    if requested.Some? && ParseDecimal(requested.value).Ok? && ParseDecimal(shown).Ok? {
      CompareIsExact(ParseDecimal(requested.value).value, ParseDecimal(shown).value, 8);
    }
  }

  function EndOf(d: Decision): Ending {
    match d
    case Succeed(ack) => Ends(Ok(ack))
    case Resend => Resends
    case Fail(e) => Ends(Err(e))
  }

  lemma {:induction false} DecisionIsRead(venue: Venue, verb: Verb, e: Error, looked: Result<Option<Info>>)
    ensures if NeedsLookup(venue, verb, e)
            then VerbEnds(venue, verb, Err(e), Some(looked), EndOf(Decide(venue, verb, e, Read(venue, looked))))
            else VerbEnds(venue, verb, Err(e), None, Ends(Err(e)))
  {
    hide IsDuplicate, RefusesDuplicate, FieldMatches, ShowsRequested;
    DuplicateIsRefused(venue, e);
    if verb.Amend? && looked.Ok? && looked.value.Some? {
      MatchIsShown(venue, verb.newPrice, looked.value.value.price);
      MatchIsShown(venue, verb.newQuantity, looked.value.value.quantity);
    }
  }

  lemma {:induction false} AttemptEnds<W(!new)>(venue: Venue, verb: Verb, net: Net<W>, p: Policy, t: Traced<W>)
    returns (acts: seq<Act>)
    requires p.maxAttempts >= 1
    ensures var (t1, result, again) := SendOnce(venue, verb, net, p, t);
            && t1.trace == t.trace + acts && Attempt(venue, verb, net, p, acts, if again then Resends else Ends(result))
            && (again ==> result == acts[0].outcome)
  {
    hide NeedsLookup, Decide, VerbEnds, Asks, Answered, Read, LookedUp;
    var (w, answer) := net.send(t.world);
    if answer.Ok? {
      acts := [Sent(answer)];
      AckEnds(venue, verb, answer);
      OneSend(net, p, t.world, []);
    } else if !NeedsLookup(venue, verb, answer.error) {
      acts := [Sent(answer)];
      DecisionIsRead(venue, verb, answer.error, Ok(None));
      OneSend(net, p, t.world, []);
    } else {
      var looks := LookUpAsks(venue, net, p, Traced(w, t.trace + [Sent(answer)]));
      acts := [Sent(answer)] + looks;
      assert t.trace + [Sent(answer)] + looks == t.trace + acts && acts[1..] == looks;
      DecisionIsRead(venue, verb, answer.error, looks[|looks| - 1].shown);
      AskedLooks(net, p, looks);
      OneSend(net, p, t.world, looks);
    }
  }

  lemma {:induction false} AskedLooks<W(!new)>(net: Net<W>, p: Policy, looks: seq<Act>)
    requires Asks(net, p, looks)
    ensures forall j :: 0 <= j < |looks| ==> looks[j].Looked?
  {
  }

  lemma {:induction false} AckEnds(venue: Venue, verb: Verb, answer: Result<Ack>)
    requires answer.Ok?
    ensures VerbEnds(venue, verb, answer, None, Ends(answer))
  {
  }

  lemma {:induction false} OneSend<W(!new)>(net: Net<W>, p: Policy, w: W, looks: seq<Act>)
    ensures Asks(net, p, []) && [Sent(net.send(w).1)][1..] == []
    ensures (forall j :: 0 <= j < |looks| ==> looks[j].Looked?) && Answered(net, looks)
            ==> Answered(net, [Sent(net.send(w).1)] + looks)
    ensures Answered(net, [Sent(net.send(w).1)])
  {
    assert net.send(w).1 == net.send(w).1;
    var acts := [Sent(net.send(w).1)] + looks;
    assert forall j :: 0 < j < |acts| ==> acts[j] == looks[j - 1];
  }

  // ---- the whole call ----

  function LastSend(trace: seq<Act>): (n: int)
    ensures -1 <= n < |trace| && (n >= 0 ==> trace[n].Sent?)
    ensures forall j :: n < j < |trace| ==> !trace[j].Sent?
  {
    if trace == [] then -1
    else if trace[|trace| - 1].Sent? then |trace| - 1
    else LastSend(trace[..|trace| - 1])
  }

  /** The wire of a call, attempt by attempt: each but the last led to a re-send. */
  ghost predicate Played<W(!new)>(venue: Venue, verb: Verb, net: Net<W>, p: Policy, trace: seq<Act>, end: Ending)
    decreases |trace|
  {
    var n := LastSend(trace);
    && n >= 0 && Attempt(venue, verb, net, p, trace[n..], end)
    && (n == 0 || Played(venue, verb, net, p, trace[..n], Resends))
  }

  lemma {:induction false} AttemptSends<W(!new)>(venue: Venue, verb: Verb, net: Net<W>, p: Policy, before: seq<Act>,
                                                 acts: seq<Act>, end: Ending)
    requires Attempt(venue, verb, net, p, acts, end)
    ensures var trace := before + acts;
            && |before| < |trace| && trace[|before|] == acts[0] && LastSend(trace) == |before|
            && Sends(trace) == Sends(before) + 1
  {
    hide VerbEnds, Answered, BudgetEnds;
    var trace := before + acts;
    assert forall j :: |before| < j < |trace| ==> trace[j] == acts[1..][j - |before| - 1];
    TraceAfterOneSend(before, trace);
    LastSendAt(trace, |before|);
  }

  lemma {:induction false} LastSendAt(trace: seq<Act>, n: nat)
    requires n < |trace| && trace[n].Sent? && forall j :: n < j < |trace| ==> trace[j].Looked?
    ensures LastSend(trace) == n
  {
  }

  lemma {:induction false} PlaysOn<W(!new)>(venue: Venue, verb: Verb, net: Net<W>, p: Policy, before: seq<Act>,
                                            acts: seq<Act>, end: Ending)
    requires before == [] || Played(venue, verb, net, p, before, Resends)
    requires Attempt(venue, verb, net, p, acts, end)
    ensures Played(venue, verb, net, p, before + acts, end)
  {
    hide Attempt, LastSend;
    AttemptSends(venue, verb, net, p, before, acts, end);
    var trace := before + acts;
    assert trace[|before|..] == acts && trace[..|before|] == before;
  }

  /** The call ends as its last attempt says, or on a re-send that attempts or budget no longer allow,
      with the answer to the last send. */
  ghost predicate EndsAsPlayed<W(!new)>(venue: Venue, verb: Verb, net: Net<W>, p: Policy, start: int, trace: seq<Act>,
                                        result: Result<Ack>)
  {
    || Played(venue, verb, net, p, trace, Ends(result))
    || (&& Played(venue, verb, net, p, trace, Resends) && result == trace[LastSend(trace)].outcome
        && (Sends(trace) == p.maxAttempts || BudgetEnds(net, p, start)))
  }

  lemma {:induction false} PlaysFrom<W(!new)>(venue: Venue, verb: Verb, net: Net<W>, p: Policy, t: Traced<W>,
                                              start: int, index: nat)
    requires index < p.maxAttempts && Sends(t.trace) == index
    requires t.trace == [] || Played(venue, verb, net, p, t.trace, Resends)
    ensures var r := RetryFrom(p, SendEnv(venue, verb, net, p), t, start + p.budget * NANOS_PER_MILLI, index);
            EndsAsPlayed(venue, verb, net, p, start, r.world.trace, r.result)
    decreases p.maxAttempts - index
  {
    hide Played, Attempt, Resilient.SendOnce, SendEnv, Retry.RetryFrom, BudgetEnds, LastSend;
    var deadline := start + p.budget * NANOS_PER_MILLI;
    var (t1, result, again) := SendOnce(venue, verb, net, p, t);
    var acts := AttemptEnds(venue, verb, net, p, t);
    var more, millis := SendTurn(venue, verb, net, p, t, deadline, index);
    PlaysOn(venue, verb, net, p, t.trace, acts, if again then Resends else Ends(result));
    AttemptSends(venue, verb, net, p, t.trace, acts, if again then Resends else Ends(result));
    if more {
      PlaysFrom(venue, verb, net, p, Waited(net, t1, millis), start, index + 1);
    } else if again && index + 1 < p.maxAttempts && result.Err? {
      ClockEndsBudget(net, p, t1.world, start);
    } else if again {
      ResendsAfterError(venue, verb, net, p, acts);
    }
  }

  lemma {:induction false} ClockEndsBudget<W(!new)>(net: Net<W>, p: Policy, w: W, start: int)
    requires net.now(w).1 >= start + p.budget * NANOS_PER_MILLI
    ensures BudgetEnds(net, p, start)
  {
  }

  lemma {:induction false} ResendsAfterError<W(!new)>(venue: Venue, verb: Verb, net: Net<W>, p: Policy, acts: seq<Act>)
    requires Attempt(venue, verb, net, p, acts, Resends)
    ensures acts[0].outcome.Err?
  {
  }

  /** Against any network and venue, and for every verb: what goes over the wire is a sequence of
      attempts, each ended as the tables say of the raw answers, and the call's answer is that of the
      last; a re-send is left undone only when attempts or budget are used up. */
  lemma {:induction false} CallsFollowTheTables<W(!new)>(venue: Venue, verb: Verb, net: Net<W>, p: Policy, w: W)
    requires p.maxAttempts >= 1
    ensures var r := Resolved(venue, verb, net, p, w);
            EndsAsPlayed(venue, verb, net, p, net.now(w).1, r.world.trace, r.result)
  {
    hide EndsAsPlayed, SendEnv, Retry.RetryFrom, Resolved;
    var t, deadline := CallStarts(venue, verb, net, p, w);
    PlaysFrom(venue, verb, net, p, t, net.now(w).1, 0);
  }

  /** The tables leave no choice: whether there is a lookup, and how its answer ends. */
  lemma {:induction false} TablesDecide(venue: Venue, verb: Verb, sent: Result<Ack>,
                                        looked: Option<Result<Option<Info>>>, end: Ending,
                                        other: Option<Result<Option<Info>>>, otherEnd: Ending)
    requires VerbEnds(venue, verb, sent, looked, end) && VerbEnds(venue, verb, sent, other, otherEnd)
    ensures looked.None? <==> other.None?
    ensures looked == other ==> end == otherEnd
  {
    hide RefusesDuplicate, ShowsRequested;
  }

  /** Asked of the network alone: the first send ends the call where the tables say so, and so does the
      first lookup after it unless it meets transport, with nothing more on the wire. */
  lemma {:induction false} FirstAnswersDecide<W(!new)>(venue: Venue, verb: Verb, net: Net<W>, p: Policy, w: W,
                                                       result: Result<Ack>)
    requires p.maxAttempts >= 1
    ensures var (w1, sent) := net.send(net.now(w).0);
            var (w2, looked) := net.look(net.now(w1).0);
            var r := Resolved(venue, verb, net, p, w);
            && (VerbEnds(venue, verb, sent, None, Ends(result))
                ==> r.result == result && r.world == Traced(w1, [Sent(sent)]))
            && (VerbEnds(venue, verb, sent, Some(looked), Ends(result)) && !IsTransport(looked)
                ==> r.result == result && r.world == Traced(w2, [Sent(sent), Looked(looked)]))
  {
    hide VerbEnds, NeedsLookup, Decide, Read, IsTransport, LookEnv, SendEnv, Retry.RetryFrom;
    var t, deadline := CallStarts(venue, verb, net, p, w);
    var (w1, sent) := net.send(t.world);
    var t1 := Traced(w1, [Sent(sent)]);
    var t2, lookDeadline := LookUpStarts(venue, net, p, t1);
    var lookMore, lookMillis := LookAgainIff(venue, net, p, t2, lookDeadline, 0);
    var more, millis := SendTurn(venue, verb, net, p, t, deadline, 0);
    assert [] + [Sent(sent)] == [Sent(sent)]
           && [Sent(sent)] + [Looked(net.look(t2.world).1)] == [Sent(sent), Looked(net.look(t2.world).1)];
    var looked := net.look(t2.world).1;
    if sent.Ok? {
      AckEnds(venue, verb, sent);
      OnlyEnd(venue, verb, sent, None, Ends(sent), looked, result);
    } else {
      DecisionIsRead(venue, verb, sent.error, looked);
      if NeedsLookup(venue, verb, sent.error) {
        OnlyEnd(venue, verb, sent, Some(looked), EndOf(Decide(venue, verb, sent.error, Read(venue, looked))), looked,
                result);
      } else {
        OnlyEnd(venue, verb, sent, None, Ends(sent), looked, result);
      }
    }
  }

  lemma {:induction false} OnlyEnd(venue: Venue, verb: Verb, sent: Result<Ack>, looked: Option<Result<Option<Info>>>,
                                   end: Ending, answer: Result<Option<Info>>, result: Result<Ack>)
    requires VerbEnds(venue, verb, sent, looked, end) && (looked == None || looked == Some(answer))
    ensures VerbEnds(venue, verb, sent, None, Ends(result)) ==> looked.None? && end == Ends(result)
    ensures VerbEnds(venue, verb, sent, Some(answer), Ends(result)) ==> looked.Some? && end == Ends(result)
  {
    hide VerbEnds;
    if VerbEnds(venue, verb, sent, None, Ends(result)) {
      TablesDecide(venue, verb, sent, looked, end, None, Ends(result));
    }
    if VerbEnds(venue, verb, sent, Some(answer), Ends(result)) {
      TablesDecide(venue, verb, sent, looked, end, Some(answer), Ends(result));
    }
  }

  // ---- success ----

  /** The act that makes the verb a success: an ack, or a lookup that shows the order placed, canceled,
      or carrying every requested value. */
  predicate Settles(venue: Venue, verb: Verb, act: Act) {
    match act
    case Sent(outcome) => outcome.Ok?
    case Looked(Ok(Some(info))) =>
      (match verb
       case Place => true
       case Cancel => info.status == (if venue == Okx then "canceled" else "CANCELED")
       case Amend(price, quantity) =>
         ShowsRequested(venue, price, info.price) && ShowsRequested(venue, quantity, info.quantity))
    case Looked(_) => false
  }

  /** The ids the act carries. */
  function IdsOf(act: Act): Ack
    requires act.Sent? ==> act.outcome.Ok?
    requires act.Looked? ==> act.shown.Ok? && act.shown.value.Some?
  {
    match act
    case Sent(outcome) => outcome.value
    case Looked(shown) => Ack(shown.value.value.orderId, shown.value.value.clientOrderId)
  }

  /** Only the last act settles the verb, and then its ids are the answer. */
  ghost predicate SettledByLast(venue: Venue, verb: Verb, trace: seq<Act>, end: Ending) {
    && (forall j :: 0 <= j < |trace| - 1 ==> !Settles(venue, verb, trace[j]))
    && trace != []
    && var last := trace[|trace| - 1];
       if Settles(venue, verb, last) then end == Ends(Ok(IdsOf(last))) else end.Ends? ==> end.result.Err?
  }

  lemma {:induction false} AttemptSettles<W(!new)>(venue: Venue, verb: Verb, net: Net<W>, p: Policy, acts: seq<Act>,
                                                   end: Ending)
    requires Attempt(venue, verb, net, p, acts, end)
    ensures SettledByLast(venue, verb, acts, end)
  {
    hide ShowsRequested, RefusesDuplicate, Answered, BudgetEnds;
    assert forall j :: 0 < j < |acts| ==> acts[j] == acts[1..][j - 1];
    if |acts| > 1 {
      assert LastShown(acts[1..]) == Some(acts[|acts| - 1].shown);
    }
  }

  lemma {:induction false} SettlesOn(venue: Venue, verb: Verb, before: seq<Act>, acts: seq<Act>, end: Ending)
    requires before == [] || SettledByLast(venue, verb, before, Resends)
    requires SettledByLast(venue, verb, acts, end)
    ensures SettledByLast(venue, verb, before + acts, end)
  {
    hide Settles, IdsOf;
    var trace := before + acts;
    forall j | 0 <= j < |trace| - 1 ensures !Settles(venue, verb, trace[j]) {
      if j < |before| {
        assert trace[j] == before[j];
      } else {
        assert trace[j] == acts[j - |before|];
      }
    }
    assert trace[|trace| - 1] == acts[|acts| - 1];
  }

  lemma {:induction false} PlayedSettles<W(!new)>(venue: Venue, verb: Verb, net: Net<W>, p: Policy, trace: seq<Act>,
                                                  end: Ending)
    requires Played(venue, verb, net, p, trace, end)
    ensures SettledByLast(venue, verb, trace, end)
    decreases |trace|
  {
    hide Attempt, SettledByLast, LastSend;
    var n := LastSend(trace);
    AttemptSettles(venue, verb, net, p, trace[n..], end);
    if n > 0 {
      PlayedSettles(venue, verb, net, p, trace[..n], Resends);
    }
    SettlesOn(venue, verb, trace[..n], trace[n..], end);
    assert trace[..n] + trace[n..] == trace;
  }

  /** Against any network and venue: the call succeeds if and only if the last act on the wire is an ack
      or a convincing lookup, and answers with its ids; no such act is ever followed by another. */
  lemma {:induction false} SucceedsIff<W(!new)>(venue: Venue, verb: Verb, net: Net<W>, p: Policy, w: W)
    requires p.maxAttempts >= 1
    ensures var r := Resolved(venue, verb, net, p, w);
            var trace := r.world.trace;
            && trace != [] && (forall j :: 0 <= j < |trace| - 1 ==> !Settles(venue, verb, trace[j]))
            && var last := trace[|trace| - 1];
               if Settles(venue, verb, last) then r.result == Ok(IdsOf(last)) else r.result.Err?
  {
    hide Settles, IdsOf, Played, Resolved;
    CallsFollowTheTables(venue, verb, net, p, w);
    var r := Resolved(venue, verb, net, p, w);
    if Played(venue, verb, net, p, r.world.trace, Ends(r.result)) {
      PlayedSettles(venue, verb, net, p, r.world.trace, Ends(r.result));
    } else {
      PlayedSettles(venue, verb, net, p, r.world.trace, Resends);
      LastSendFailed(venue, verb, net, p, r.world.trace);
    }
  }

  lemma {:induction false} LastSendFailed<W(!new)>(venue: Venue, verb: Verb, net: Net<W>, p: Policy, trace: seq<Act>)
    requires Played(venue, verb, net, p, trace, Resends)
    ensures trace[LastSend(trace)].outcome.Err?
  {
    hide Attempt;
    ResendsAfterError(venue, verb, net, p, trace[LastSend(trace)..]);
  }
}
