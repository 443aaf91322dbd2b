/** What resolve-then-retry guarantees, over every schedule of losses, answers and delays. */
module ResilientTheorems {
  import opened Wrappers
  import opened Retry
  import opened Resilient

  // ---- one turn of the loop ----

  /** Clock readings, draws and sleeps between two attempts. */
  function Waited<W>(net: Net<W>, t: Traced<W>, millis: int): Traced<W> {
    Sleep(net, DrawRandom(net, ReadClock(net, t).0).0, millis)
  }

  lemma {:induction false} SendTurn<W>(venue: Venue, verb: Verb, net: Net<W>, p: Policy, t: Traced<W>, deadline: int,
                                       index: nat)
    returns (more: bool, millis: int)
    requires index < p.maxAttempts
    ensures var (t1, result, again) := SendOnce(venue, verb, net, p, t);
            more <==> result.Err? && again && index + 1 < p.maxAttempts && ReadClock(net, t1).1 < deadline
    ensures var r := RetryFrom(p, SendEnv(venue, verb, net, p), t, deadline, index);
            var (t1, result, again) := SendOnce(venue, verb, net, p, t);
            if more then
              var rest := RetryFrom(p, SendEnv(venue, verb, net, p), Waited(net, t1, millis), deadline, index + 1);
              again && result.Err? && r.world == rest.world && r.result == rest.result
              && r.attempts == 1 + rest.attempts
            else
              r.result == result && r.attempts == 1
              && (r.world == t1 || (result.Err? && again && r.world == ReadClock(net, t1).0))
  {
    more, millis := Turn(p, SendEnv(venue, verb, net, p), t, deadline, index);
  }

  lemma {:induction false} LookTurn<W>(venue: Venue, net: Net<W>, p: Policy, t: Traced<W>, deadline: int, index: nat)
    returns (more: bool, millis: int)
    requires index < p.maxAttempts
    ensures var (t1, result, again) := LookOnce(venue, net, t);
            more <==> result.Err? && again && index + 1 < p.maxAttempts && ReadClock(net, t1).1 < deadline
    ensures var r := RetryFrom(p, LookEnv(venue, net), t, deadline, index);
            var (t1, result, again) := LookOnce(venue, net, t);
            if more then
              var rest := RetryFrom(p, LookEnv(venue, net), Waited(net, t1, millis), deadline, index + 1);
              again && result.Err? && r.world == rest.world && r.result == rest.result
              && r.attempts == 1 + rest.attempts
            else
              r.result == result && r.attempts == 1
              && (r.world == t1 || (result.Err? && again && r.world == ReadClock(net, t1).0))
  {
    more, millis := Turn(p, LookEnv(venue, net), t, deadline, index);
  }

  /** A call starts by reading the clock for its deadline. */
  lemma {:induction false} CallStarts<W>(venue: Venue, verb: Verb, net: Net<W>, p: Policy, w: W)
    returns (t: Traced<W>, deadline: int)
    ensures deadline == net.now(w).1 + p.budget * NANOS_PER_MILLI
    ensures t == Traced(net.now(w).0, [])
    ensures Resolved(venue, verb, net, p, w) == RetryFrom(p, SendEnv(venue, verb, net, p), t, deadline, 0)
  {
    t := ReadClock(net, Traced(w, [])).0;
    deadline := ReadClock(net, Traced(w, [])).1 + p.budget * NANOS_PER_MILLI;
  }

  lemma {:induction false} LookUpStarts<W>(venue: Venue, net: Net<W>, p: Policy, t: Traced<W>)
    returns (t1: Traced<W>, deadline: int)
    ensures t1 == Traced(net.now(t.world).0, t.trace)
    ensures deadline == net.now(t.world).1 + p.budget * NANOS_PER_MILLI
    ensures var r := RetryFrom(p, LookEnv(venue, net), t1, deadline, 0);
            LookedUp(venue, net, p, t) == (r.world, AsLookup(r.result))
  {
    t1 := ReadClock(net, t).0;
    deadline := ReadClock(net, t).1 + p.budget * NANOS_PER_MILLI;
  }

  // ---- what goes over the wire ----

  function Sends(trace: seq<Act>): nat {
    if trace == [] then 0 else Sends(trace[..|trace| - 1]) + if trace[|trace| - 1].Sent? then 1 else 0
  }

  /** `after` is `before` and then lookups only. */
  predicate OnlyLooksSince(before: seq<Act>, after: seq<Act>) {
    before <= after && forall j :: |before| <= j < |after| ==> after[j].Looked?
  }

  predicate EndsAbsent(venue: Venue, trace: seq<Act>) {
    trace != [] && trace[|trace| - 1].Looked? && SaysAbsent(venue, trace[|trace| - 1].shown)
  }

  /** Every send but the first comes straight after a lookup that said the order is absent. */
  predicate Careful(venue: Venue, trace: seq<Act>) {
    forall j :: 0 < j < |trace| && trace[j].Sent? ==> trace[j - 1].Looked? && SaysAbsent(venue, trace[j - 1].shown)
  }

  lemma {:induction false} SendsOverLooks(before: seq<Act>, after: seq<Act>)
    requires OnlyLooksSince(before, after)
    ensures Sends(after) == Sends(before)
    decreases |after|
  {
    if |before| < |after| {
      SendsOverLooks(before, after[..|after| - 1]);
    } else {
      assert before == after;
    }
  }

  lemma {:induction false} LookTrace<W>(venue: Venue, net: Net<W>, p: Policy, t: Traced<W>, deadline: int, index: nat)
    ensures var r := RetryFrom(p, LookEnv(venue, net), t, deadline, index);
            && OnlyLooksSince(t.trace, r.world.trace)
            && |r.world.trace| == |t.trace| + r.attempts
            && r.attempts <= (if index < p.maxAttempts then p.maxAttempts - index else 0)
            && (AsLookup(r.result).Absent? ==> EndsAbsent(venue, r.world.trace))
    decreases p.maxAttempts - index
  {
    if index < p.maxAttempts {
      var more, millis := LookTurn(venue, net, p, t, deadline, index);
      if more {
        LookTrace(venue, net, p, Waited(net, LookOnce(venue, net, t).0, millis), deadline, index + 1);
      }
    }
  }

  lemma {:induction false} LookUpTrace<W>(venue: Venue, net: Net<W>, p: Policy, t: Traced<W>)
    ensures var (t', l) := LookedUp(venue, net, p, t);
            && OnlyLooksSince(t.trace, t'.trace)
            && |t'.trace| - |t.trace| <= (if p.maxAttempts > 0 then p.maxAttempts else 0)
            && (l.Absent? ==> EndsAbsent(venue, t'.trace))
  {
    var t1, deadline := LookUpStarts(venue, net, p, t);
    LookTrace(venue, net, p, t1, deadline, 0);
  }

  /** One attempt: one send, then at most `maxAttempts` lookups; a place is repeated only after an
      absent answer. */
  lemma {:induction false} SendOnceTrace<W>(venue: Venue, verb: Verb, net: Net<W>, p: Policy, t: Traced<W>)
    requires p.maxAttempts >= 1
    ensures var (t1, result, again) := SendOnce(venue, verb, net, p, t);
            && |t.trace| < |t1.trace| <= |t.trace| + 1 + p.maxAttempts
            && t.trace <= t1.trace && t1.trace[|t.trace|].Sent?
            && (forall j :: |t.trace| < j < |t1.trace| ==> t1.trace[j].Looked?)
            && (again && verb.Place? ==> EndsAbsent(venue, t1.trace))
  {
    var (w, answer) := net.send(t.world);
    LookUpTrace(venue, net, p, Traced(w, t.trace + [Sent(answer)]));
  }

  lemma {:induction false} TraceAfterOneSend(before: seq<Act>, after: seq<Act>)
    requires before < after && after[|before|].Sent? && forall j :: |before| < j < |after| ==> after[j].Looked?
    ensures Sends(after) == Sends(before) + 1
  {
    var sent := after[..|before| + 1];
    SendsOverLooks(sent, after);
    assert sent[..|before|] == before;
  }

  /** Every attempt sends exactly once and looks at most `maxAttempts` times. */
  lemma {:induction false} AttemptsSendOnce<W(!new)>(venue: Venue, verb: Verb, net: Net<W>, p: Policy)
    requires p.maxAttempts >= 1
    ensures GrowsPerAttempt(SendEnv(venue, verb, net, p), (t: Traced<W>) => Sends(t.trace), 1)
    ensures GrowsPerAttempt(SendEnv(venue, verb, net, p), (t: Traced<W>) => -(Sends(t.trace) as int), -1)
    ensures GrowsPerAttempt(SendEnv(venue, verb, net, p), (t: Traced<W>) => |t.trace|, 1 + p.maxAttempts)
  {
    forall t: Traced<W>
      ensures var t1 := SendOnce(venue, verb, net, p, t).0;
              Sends(t1.trace) == Sends(t.trace) + 1 && |t1.trace| <= |t.trace| + 1 + p.maxAttempts
    {
      SendOnceTrace(venue, verb, net, p, t);
      TraceAfterOneSend(t.trace, SendOnce(venue, verb, net, p, t).0.trace);
    }
  }

  lemma {:induction false} CallAttempts<W(!new)>(venue: Venue, verb: Verb, net: Net<W>, p: Policy, w: W)
    requires p.maxAttempts >= 1
    ensures 1 <= Resolved(venue, verb, net, p, w).attempts <= p.maxAttempts
  {
    hide SendEnv;
    var t, deadline := CallStarts(venue, verb, net, p, w);
    AttemptsAreBounded(p, SendEnv(venue, verb, net, p), t, deadline, 0);
  }

  lemma {:induction false} CallSends<W(!new)>(venue: Venue, verb: Verb, net: Net<W>, p: Policy, w: W)
    requires p.maxAttempts >= 1
    ensures Sends(Resolved(venue, verb, net, p, w).world.trace) == Resolved(venue, verb, net, p, w).attempts
  {
    hide SendEnv, Retry.RetryFrom;
    var t, deadline := CallStarts(venue, verb, net, p, w);
    var env := SendEnv(venue, verb, net, p);
    AttemptsSendOnce(venue, verb, net, p);
    GrowthIsPerAttempt(p, env, t, deadline, 0, (t: Traced<W>) => Sends(t.trace), 1);
    GrowthIsPerAttempt(p, env, t, deadline, 0, (t: Traced<W>) => -(Sends(t.trace) as int), -1);
  }

  lemma {:induction false} CallLooks<W(!new)>(venue: Venue, verb: Verb, net: Net<W>, p: Policy, w: W)
    requires p.maxAttempts >= 1
    ensures |Resolved(venue, verb, net, p, w).world.trace|
            <= Resolved(venue, verb, net, p, w).attempts * (1 + p.maxAttempts)
  {
    hide SendEnv, Retry.RetryFrom;
    var t, deadline := CallStarts(venue, verb, net, p, w);
    AttemptsSendOnce(venue, verb, net, p);
    GrowthIsPerAttempt(p, SendEnv(venue, verb, net, p), t, deadline, 0, (t: Traced<W>) => |t.trace|, 1 + p.maxAttempts);
  }

  /** A resilient verb makes between one and `maxAttempts` sends and at most `maxAttempts` squared
      lookups. */
  lemma {:induction false} CallsAreBounded<W(!new)>(venue: Venue, verb: Verb, net: Net<W>, p: Policy, w: W)
    requires p.maxAttempts >= 1
    ensures var trace := Resolved(venue, verb, net, p, w).world.trace;
            && 1 <= Sends(trace) <= p.maxAttempts
            && |trace| - Sends(trace) <= p.maxAttempts * p.maxAttempts
  {
    CallAttempts(venue, verb, net, p, w);
    CallSends(venue, verb, net, p, w);
    CallLooks(venue, verb, net, p, w);
    LookupBudget(Resolved(venue, verb, net, p, w).attempts, p.maxAttempts);
  }

  lemma LookupBudget(attempts: nat, most: nat)
    requires attempts <= most
    ensures attempts * (1 + most) - attempts <= most * most
  {
    assert (most - attempts) * most >= 0;
    assert attempts * (1 + most) == attempts + attempts * most;
    assert (most - attempts) * most == most * most - attempts * most;
  }

  // ---- no blind re-send ----

  lemma {:induction false} CarefulTurn(venue: Venue, before: seq<Act>, after: seq<Act>)
    requires Careful(venue, before) && (before == [] || EndsAbsent(venue, before))
    requires before < after && after[|before|].Sent? && forall j :: |before| < j < |after| ==> after[j].Looked?
    ensures Careful(venue, after)
  {
  }

  lemma {:induction false} PlaceTrace<W>(venue: Venue, net: Net<W>, p: Policy, t: Traced<W>, deadline: int, index: nat)
    requires p.maxAttempts >= 1 && Careful(venue, t.trace) && (t.trace == [] || EndsAbsent(venue, t.trace))
    ensures Careful(venue, RetryFrom(p, SendEnv(venue, Place, net, p), t, deadline, index).world.trace)
    decreases p.maxAttempts - index
  {
    hide Resilient.SendOnce, Careful, EndsAbsent;
    if index < p.maxAttempts {
      var more, millis := SendTurn(venue, Place, net, p, t, deadline, index);
      var t1 := SendOnce(venue, Place, net, p, t).0;
      SendOnceTrace(venue, Place, net, p, t);
      CarefulTurn(venue, t.trace, t1.trace);
      if more {
        PlaceTrace(venue, net, p, Waited(net, t1, millis), deadline, index + 1);
      }
    }
  }

  /** A place is never re-sent blindly: whatever the network and the venue do, each send after the
      first directly follows a lookup that answered that the order is absent. */
  lemma {:induction false} ResendsFollowAbsence<W>(venue: Venue, net: Net<W>, p: Policy, w: W)
    requires p.maxAttempts >= 1
    ensures Careful(venue, Resolved(venue, Place, net, p, w).world.trace)
  {
    var t, deadline := CallStarts(venue, Place, net, p, w);
    PlaceTrace(venue, net, p, t, deadline, 0);
  }

  // ---- at most one order ----

  /** Waiting neither creates nor removes orders. */
  ghost predicate Settled<W(!new)>(net: Net<W>, orders: W -> int) {
    && (forall w {:trigger net.now(w)} :: orders(net.now(w).0) == orders(w))
    && (forall w {:trigger net.random(w)} :: orders(net.random(w).0) == orders(w))
    && (forall w, d {:trigger net.sleep(w, d)} :: orders(net.sleep(w, d)) == orders(w))
    && (forall w {:trigger net.look(w)} :: orders(net.look(w).0) == orders(w))
  }

  /** `orders` counts the venue's orders with this client order id. A send creates at most one, at the
      latest when its answer or error arrives; an acknowledged one exists; lookups tell the truth of
      the moment they are asked. */
  ghost predicate TruthfulPlacing<W(!new)>(venue: Venue, net: Net<W>, orders: W -> int) {
    Settled(net, orders) && TruthfulAnswers(venue, net, orders)
  }

  ghost predicate TruthfulAnswers<W(!new)>(venue: Venue, net: Net<W>, orders: W -> int) {
    && (forall w :: orders(w) >= 0)
    && (forall w {:trigger net.send(w)} :: orders(w) <= orders(net.send(w).0) <= orders(w) + 1)
    && (forall w {:trigger net.send(w)} :: net.send(w).1.Ok? ==> orders(net.send(w).0) >= 1)
    && (forall w {:trigger net.look(w)} :: net.look(w).1.Ok? && net.look(w).1.value.Some? ==> orders(w) >= 1)
    && (forall w {:trigger net.look(w)} :: SaysAbsent(venue, net.look(w).1) ==> orders(w) == 0)
  }

  lemma {:induction false} LookKeepsOrders<W(!new)>(venue: Venue, net: Net<W>, p: Policy, t: Traced<W>, deadline: int,
                                                    index: nat, orders: W -> int)
    requires TruthfulPlacing(venue, net, orders)
    ensures var r := RetryFrom(p, LookEnv(venue, net), t, deadline, index);
            && orders(r.world.world) == orders(t.world)
            && (AsLookup(r.result).Absent? ==> orders(t.world) == 0)
            && (AsLookup(r.result).Found? ==> orders(t.world) >= 1)
    decreases p.maxAttempts - index
  {
    if index < p.maxAttempts {
      var more, millis := LookTurn(venue, net, p, t, deadline, index);
      if more {
        LookKeepsOrders(venue, net, p, Waited(net, LookOnce(venue, net, t).0, millis), deadline, index + 1, orders);
      }
    }
  }

  /** One attempt creates at most one order; it succeeds only if one exists, and asks to be repeated
      only if none does. */
  lemma {:induction false} SendOnceOrders<W(!new)>(venue: Venue, net: Net<W>, p: Policy, t: Traced<W>, orders: W -> int)
    requires TruthfulPlacing(venue, net, orders)
    ensures var (t1, result, again) := SendOnce(venue, Place, net, p, t);
            && 0 <= orders(t.world) <= orders(t1.world) <= orders(t.world) + 1
            && (result.Ok? ==> orders(t1.world) >= 1)
            && (again ==> orders(t1.world) == 0)
  {
    var (w, answer) := net.send(t.world);
    var t1, deadline := LookUpStarts(venue, net, p, Traced(w, t.trace + [Sent(answer)]));
    LookKeepsOrders(venue, net, p, t1, deadline, 0, orders);
  }

  lemma {:induction false} WaitingCreatesNothing<W(!new)>(net: Net<W>, t: Traced<W>, millis: int, orders: W -> int)
    requires Settled(net, orders)
    ensures orders(Waited(net, t, millis).world) == orders(ReadClock(net, t).0.world) == orders(t.world)
  {
  }

  lemma {:induction false} PlaceOrders<W(!new)>(venue: Venue, net: Net<W>, p: Policy, t: Traced<W>, deadline: int,
                                                index: nat, orders: W -> int)
    requires TruthfulPlacing(venue, net, orders)
    ensures var r := RetryFrom(p, SendEnv(venue, Place, net, p), t, deadline, index);
            && orders(r.world.world) <= orders(t.world) + 1
            && (r.result.Ok? ==> orders(r.world.world) >= 1)
    decreases p.maxAttempts - index
  {
    hide Resilient.SendOnce, Resilient.ReadClock, Resilient.SendEnv, TruthfulAnswers, Settled, Waited;
    if index < p.maxAttempts {
      var more, millis := SendTurn(venue, Place, net, p, t, deadline, index);
      var t1 := SendOnce(venue, Place, net, p, t).0;
      SendOnceOrders(venue, net, p, t, orders);
      WaitingCreatesNothing(net, t1, millis, orders);
      if more {
        PlaceOrders(venue, net, p, Waited(net, t1, millis), deadline, index + 1, orders);
      }
    }
  }

  /** Resilient place never double-places: against a truthful venue whose errored requests are decided
      by the time the error arrives, a whole call creates at most one order, and success means an
      order with that id exists. */
  lemma {:induction false} PlaceCreatesAtMostOne<W(!new)>(venue: Venue, net: Net<W>, p: Policy, w: W, orders: W -> int)
    requires TruthfulPlacing(venue, net, orders)
    ensures var r := Resolved(venue, Place, net, p, w);
            && orders(r.world.world) <= orders(w) + 1
            && (r.result.Ok? ==> orders(r.world.world) >= 1)
  {
    var t, deadline := CallStarts(venue, Place, net, p, w);
    PlaceOrders(venue, net, p, t, deadline, 0, orders);
  }

  // ---- when a request is still undecided ----

  /** `measure` grows by at most `most` when the venue is called, and not by looking or waiting. */
  ghost predicate GrowsPerSend<W(!new)>(net: Net<W>, measure: W -> int, most: int) {
    && (forall w {:trigger net.send(w)} :: measure(net.send(w).0) <= measure(w) + most)
    && (forall w {:trigger net.look(w)} :: measure(net.look(w).0) <= measure(w))
    && (forall w {:trigger net.now(w)} :: measure(net.now(w).0) <= measure(w))
    && (forall w {:trigger net.random(w)} :: measure(net.random(w).0) <= measure(w))
    && (forall w, d {:trigger net.sleep(w, d)} :: measure(net.sleep(w, d)) <= measure(w))
  }

  lemma {:induction false} LookUpNeverGrows<W(!new)>(venue: Venue, net: Net<W>, p: Policy, t: Traced<W>,
                                                     measure: W -> int, most: int)
    requires GrowsPerSend(net, measure, most)
    ensures measure(LookedUp(venue, net, p, t).0.world) <= measure(t.world)
  {
    hide Retry.RetryFrom;
    var t1, deadline := LookUpStarts(venue, net, p, t);
    GrowthIsPerAttempt(p, LookEnv(venue, net), t1, deadline, 0, (t: Traced<W>) => measure(t.world), 0);
  }

  lemma {:induction false} AttemptsGrow<W(!new)>(venue: Venue, verb: Verb, net: Net<W>, p: Policy, measure: W -> int,
                                                 most: int)
    requires GrowsPerSend(net, measure, most)
    ensures GrowsPerAttempt(SendEnv(venue, verb, net, p), (t: Traced<W>) => measure(t.world), most)
  {
    hide Resilient.LookedUp;
    forall t: Traced<W> ensures measure(SendOnce(venue, verb, net, p, t).0.world) <= measure(t.world) + most {
      var (w, answer) := net.send(t.world);
      LookUpNeverGrows(venue, net, p, Traced(w, t.trace + [Sent(answer)]), measure, most);
    }
  }

  /** The clock never runs backwards, shows no time later than the world's, and a sleep takes at least
      as long as it is asked to; a negative one returns at once. */
  ghost predicate RunningClock<W(!new)>(net: Net<W>, time: W -> int) {
    && (forall w {:trigger net.send(w)} :: time(w) <= time(net.send(w).0))
    && (forall w {:trigger net.look(w)} :: time(w) <= time(net.look(w).0))
    && (forall w {:trigger net.now(w)} :: time(w) <= net.now(w).1 <= time(net.now(w).0))
    && (forall w {:trigger net.random(w)} :: time(w) <= time(net.random(w).0))
    && (forall w, d {:trigger net.sleep(w, d)} :: time(w) <= time(net.sleep(w, d)))
    && (forall w, d {:trigger net.sleep(w, d)} :: time(w) + d * NANOS_PER_MILLI <= time(net.sleep(w, d)))
  }

  lemma {:induction false} CallsRunOn<W(!new)>(venue: Venue, verb: Verb, net: Net<W>, p: Policy, time: W -> int)
    requires RunningClock(net, time)
    ensures Monotone(SendEnv(venue, verb, net, p), (t: Traced<W>) => time(t.world))
  {
    hide Resilient.LookedUp;
    var left := (w: W) => -time(w);
    forall t: Traced<W> ensures time(t.world) <= time(SendOnce(venue, verb, net, p, t).0.world) {
      var (w, answer) := net.send(t.world);
      var t1 := Traced(w, t.trace + [Sent(answer)]);
      LookUpNeverGrows(venue, net, p, t1, left, 0);
      assert left(LookedUp(venue, net, p, t1).0.world) <= left(w);
    }
  }

  /** Without a second attempt, or without a budget, there is exactly one send. */
  lemma {:induction false} UnretriedIsSentOnce<W(!new)>(venue: Venue, verb: Verb, net: Net<W>, p: Policy, w: W,
                                                        time: W -> int)
    requires p.maxAttempts >= 1 && (p.maxAttempts == 1 || p.budget <= 0) && RunningClock(net, time)
    ensures Sends(Resolved(venue, verb, net, p, w).world.trace) == 1
  {
    hide SendEnv, Monotone;
    CallAttempts(venue, verb, net, p, w);
    CallSends(venue, verb, net, p, w);
    CallsRunOn(venue, verb, net, p, time);
    NoBudgetNoRetry(p, SendEnv(venue, verb, net, p), Traced(w, []), (t: Traced<W>) => time(t.world));
  }

  /** The statuses in which the venue still works an order. */
  predicate IsWorking(venue: Venue, status: string) {
    match venue
    case Okx => status == "live" || status == "partially_filled"
    case Binance => status == "NEW" || status == "PENDING_NEW" || status == "PARTIALLY_FILLED"
  }

  predicate Works(venue: Venue, order: Option<Info>) {
    order.Some? && IsWorking(venue, order.value.status)
  }

  /** What can be said of a venue: the orders it holds under the client order id, the places still on
      their way to it, what it shows of the id, and its time. */
  datatype View<!W> = View(orders: W -> int, inFlight: W -> int, order: W -> Option<Info>, time: W -> int)

  function Total<W>(view: View<W>, w: W): int {
    view.orders(w) + view.inFlight(w)
  }

  ghost predicate CountsOrders<W(!new)>(net: Net<W>, view: View<W>) {
    && (forall w {:trigger view.orders(w)} :: view.orders(w) >= 0)
    && (forall w {:trigger view.inFlight(w)} :: view.inFlight(w) >= 0)
    && (forall w {:trigger view.order(w)} :: view.order(w).Some? <==> view.orders(w) >= 1)
    && GrowsPerSend(net, (w: W) => Total(view, w), 1)
  }

  ghost predicate AnswersTruly<W(!new)>(venue: Venue, net: Net<W>, view: View<W>) {
    && (forall w {:trigger net.send(w)} :: net.send(w).1.Ok? ==> view.orders(net.send(w).0) >= 1)
    && (forall w {:trigger net.look(w)} :: net.look(w).1.Ok? ==> view.order(w) == net.look(w).1.value)
    && (forall w {:trigger net.look(w)} :: SaysAbsent(venue, net.look(w).1) ==> view.orders(w) == 0)
  }

  /** An id whose order is still worked is refused as a duplicate, and nothing changes. */
  ghost predicate RefusesWorkingIds<W(!new)>(venue: Venue, net: Net<W>, view: View<W>) {
    forall w {:trigger net.send(w)} :: Works(venue, view.order(w)) ==>
      && net.send(w).1.Err? && IsDuplicate(venue, net.send(w).1.error)
      && view.orders(net.send(w).0) == view.orders(w) && view.inFlight(net.send(w).0) == view.inFlight(w)
  }

  /** A venue and network that may be real: a place adds at most one to the orders and the places on
      their way, nothing else adds to them, answers are true when given, ids at work are refused, and
      the clock runs. A place on its way may land, or be lost, at any later time. */
  ghost predicate MayBeReal<W(!new)>(venue: Venue, net: Net<W>, view: View<W>) {
    CountsOrders(net, view) && AnswersTruly(venue, net, view) && RefusesWorkingIds(venue, net, view)
    && RunningClock(net, view.time)
  }

  /** Where nothing is retried a call adds at most one, in any world. */
  lemma {:induction false} UnretriedPlacesOnce<W(!new)>(venue: Venue, net: Net<W>, p: Policy, w: W, view: View<W>)
    requires MayBeReal(venue, net, view) && (p.maxAttempts <= 1 || p.budget <= 0)
    ensures Total(view, Resolved(venue, Place, net, p, w).world.world) <= Total(view, w) + 1
  {
    hide SendEnv, Monotone, GrowsPerAttempt, Retry.RetryFrom, Total, RunningClock, AnswersTruly, RefusesWorkingIds;
    var env := SendEnv(venue, Place, net, p);
    var total := (w: W) => Total(view, w);
    var t, deadline := CallStarts(venue, Place, net, p, w);
    CallsRunOn(venue, Place, net, p, view.time);
    NoBudgetNoRetry(p, env, Traced(w, []), (t: Traced<W>) => view.time(t.world));
    AttemptsGrow(venue, Place, net, p, total, 1);
    GrowthIsPerAttempt(p, env, t, deadline, 0, (t: Traced<W>) => total(t.world), 1);
    assert total(net.now(w).0) <= total(w);
  }

  // ---- a venue where a lost place lands late ----

  datatype Phase = Idle | InFlight | Landed(more: nat)
  datatype LateWorld = LateWorld(phase: Phase, clock: int)

  function FilledStatus(venue: Venue): string {
    if venue == Okx then "filled" else "FILLED"
  }

  function LateSend(w: LateWorld): (LateWorld, Result<Ack>) {
    if w.phase.Landed? then (w.(phase := Landed(w.phase.more + 1)), Ok(Ack("2", "id")))
    else (w.(phase := InFlight), Err(Error("transport", "lost")))
  }

  function LateOrder(venue: Venue, w: LateWorld): Option<Info> {
    if w.phase.Landed? then Some(Info("1", "id", FilledStatus(venue), "", "")) else None
  }

  function LateSleep(w: LateWorld, millis: int): LateWorld {
    LateWorld(if w.phase.InFlight? then Landed(0) else w.phase,
              w.clock + if millis > 0 then millis * NANOS_PER_MILLI else 0)
  }

  /** The first place is lost on its way, is not there yet when looked up, and lands, and fills at once,
      while the caller waits to retry. An id whose order is done may be used again. */
  function LateNet(venue: Venue): Net<LateWorld> {
    Net((w: LateWorld) => LateSend(w),
        (w: LateWorld) => (w, Ok(LateOrder(venue, w))),
        (w: LateWorld) => (w, w.clock),
        (w: LateWorld) => (w, 0.0),
        (w: LateWorld, millis: int) => LateSleep(w, millis))
  }

  function LateView(venue: Venue): View<LateWorld> {
    View((w: LateWorld) => if w.phase.Landed? then 1 + w.phase.more else 0,
         (w: LateWorld) => if w.phase.InFlight? then 1 else 0,
         (w: LateWorld) => LateOrder(venue, w),
         (w: LateWorld) => w.clock)
  }

  lemma {:induction false} LateNetCounts(venue: Venue)
    ensures CountsOrders(LateNet(venue), LateView(venue))
  {
    hide LateOrder, FilledStatus, NANOS_PER_MILLI;
    var net, view := LateNet(venue), LateView(venue);
    forall w ensures view.order(w) == LateOrder(venue, w) && (view.order(w).Some? <==> view.orders(w) >= 1) {
      LateOrderIsLanded(venue, w);
    }
  }

  lemma {:induction false} LateOrderIsLanded(venue: Venue, w: LateWorld)
    ensures LateOrder(venue, w).Some? <==> w.phase.Landed?
    ensures !Works(venue, LateOrder(venue, w))
  {
  }

  lemma {:induction false} LateNetMayBeReal(venue: Venue)
    ensures MayBeReal(venue, LateNet(venue), LateView(venue))
  {
    hide CountsOrders, LateOrder, Works;
    LateNetCounts(venue);
    var net, view := LateNet(venue), LateView(venue);
    forall w ensures view.order(w) == LateOrder(venue, w) && !Works(venue, view.order(w))
                     && (view.order(w).Some? <==> w.phase.Landed?)
    {
      LateOrderIsLanded(venue, w);
    }
  }

  lemma {:induction false} LatePlaceIsResent(venue: Venue, p: Policy, t: Traced<LateWorld>)
    requires p.maxAttempts >= 1 && t.world.phase.Idle?
    ensures var (t1, result, again) := SendOnce(venue, Place, LateNet(venue), p, t);
            again && result.Err? && t1.world == t.world.(phase := InFlight)
  {
    var t1, deadline := LookUpStarts(venue, LateNet(venue), p,
                                     Traced(t.world.(phase := InFlight), t.trace + [Sent(LateSend(t.world).1)]));
    var more, millis := LookTurn(venue, LateNet(venue), p, t1, deadline, 0);
  }

  /** A lookup cannot see a place still on its way: at a venue that may be real, with any policy that
      allows a retry, a call places twice though every answer was true when given. */
  lemma {:induction false} LateLandingPlacesTwice(venue: Venue, p: Policy, w: LateWorld)
    requires p.maxAttempts >= 2 && p.budget > 0 && w.phase.Idle?
    ensures MayBeReal(venue, LateNet(venue), LateView(venue))
    ensures var r := Resolved(venue, Place, LateNet(venue), p, w);
            r.result.Ok? && LateView(venue).orders(w) == 0 && LateView(venue).orders(r.world.world) == 2
  {
    LateNetMayBeReal(venue);
    hide MayBeReal;
    var net := LateNet(venue);
    var t, deadline := CallStarts(venue, Place, net, p, w);
    LatePlaceIsResent(venue, p, t);
    var more, millis := SendTurn(venue, Place, net, p, t, deadline, 0);
    var t1 := Waited(net, SendOnce(venue, Place, net, p, t).0, millis);
    assert t1.world.phase == Landed(0);
    var moreStill, again := SendTurn(venue, Place, net, p, t1, deadline, 1);
  }

  /** A call never adds more than one, at any venue over these worlds that may be real. */
  ghost predicate PlacesAtMostOnce(venue: Venue, p: Policy) {
    forall net: Net<LateWorld>, view: View<LateWorld>, w: LateWorld
      {:trigger MayBeReal(venue, net, view), Total(view, w)} ::
      MayBeReal(venue, net, view) ==> Total(view, Resolved(venue, Place, net, p, w).world.world) <= Total(view, w) + 1
  }

  /** So the promise that no path places twice is kept, over every venue that may be real, by exactly
      the policies that never retry. */
  lemma {:induction false} PlacesAtMostOnceIff(venue: Venue, p: Policy)
    ensures PlacesAtMostOnce(venue, p) <==> p.maxAttempts <= 1 || p.budget <= 0
  {
    hide MayBeReal, Resolved;
    if p.maxAttempts <= 1 || p.budget <= 0 {
      forall net: Net<LateWorld>, view: View<LateWorld>, w: LateWorld | MayBeReal(venue, net, view)
        ensures Total(view, Resolved(venue, Place, net, p, w).world.world) <= Total(view, w) + 1
      {
        UnretriedPlacesOnce(venue, net, p, w, view);
      }
    } else {
      LateLandingPlacesTwice(venue, p, LateWorld(Idle, 0));
      assert Total(LateView(venue), LateWorld(Idle, 0)) == 0;
    }
  }

  // ---- cancel and amend mean what they say ----

  /** What a looked-up order must show for the verb to be called done. */
  predicate Convincing(venue: Venue, verb: Verb, info: Info) {
    match verb
    case Place => true
    case Cancel => info.status == CanceledStatus(venue)
    case Amend(_, _) => Matches(venue, verb, info)
  }

  lemma {:induction false} LookedUpWasShown<W>(venue: Venue, net: Net<W>, p: Policy, t: Traced<W>, deadline: int,
                                               index: nat)
    ensures var r := RetryFrom(p, LookEnv(venue, net), t, deadline, index);
            AsLookup(r.result).Found? ==> exists v :: net.look(v) == (r.world.world, Ok(Some(AsLookup(r.result).info)))
    decreases p.maxAttempts - index
  {
    if index < p.maxAttempts {
      var more, millis := LookTurn(venue, net, p, t, deadline, index);
      if more {
        LookedUpWasShown(venue, net, p, Waited(net, LookOnce(venue, net, t).0, millis), deadline, index + 1);
      }
    }
  }

  predicate Shows(venue: Venue, verb: Verb, answer: Result<Option<Info>>) {
    answer.Ok? && answer.value.Some? && Convincing(venue, verb, answer.value.value)
  }

  /** `good` holds wherever the verb is acknowledged, and wherever a lookup shows a convincing order. */
  ghost predicate Grounds<W(!new)>(venue: Venue, verb: Verb, net: Net<W>, good: W -> bool) {
    && (forall w {:trigger net.send(w)} :: net.send(w).1.Ok? ==> good(net.send(w).0))
    && (forall w {:trigger net.look(w)} :: Shows(venue, verb, net.look(w).1) ==> good(net.look(w).0))
  }

  lemma {:induction false} SendOnceIsGrounded<W(!new)>(venue: Venue, verb: Verb, net: Net<W>, p: Policy, t: Traced<W>,
                                                       good: W -> bool)
    requires Grounds(venue, verb, net, good)
    ensures SendOnce(venue, verb, net, p, t).1.Ok? ==> good(SendOnce(venue, verb, net, p, t).0.world)
  {
    var (w, answer) := net.send(t.world);
    var t1, deadline := LookUpStarts(venue, net, p, Traced(w, t.trace + [Sent(answer)]));
    LookedUpWasShown(venue, net, p, t1, deadline, 0);
  }

  lemma {:induction false} CallIsGrounded<W(!new)>(venue: Venue, verb: Verb, net: Net<W>, p: Policy, t: Traced<W>,
                                                   deadline: int, index: nat, good: W -> bool)
    requires Grounds(venue, verb, net, good)
    ensures var r := RetryFrom(p, SendEnv(venue, verb, net, p), t, deadline, index);
            r.result.Ok? ==> good(r.world.world)
    decreases p.maxAttempts - index
  {
    hide Resilient.SendOnce, Grounds;
    if index < p.maxAttempts {
      var more, millis := SendTurn(venue, verb, net, p, t, deadline, index);
      SendOnceIsGrounded(venue, verb, net, p, t, good);
      if more {
        CallIsGrounded(venue, verb, net, p, Waited(net, SendOnce(venue, verb, net, p, t).0, millis), deadline,
                       index + 1, good);
      }
    }
  }

  /** Success is grounded: a verb succeeds only on its own acknowledgement or on a convincing lookup,
      and returns at once. */
  lemma {:induction false} SuccessIsGrounded<W(!new)>(venue: Venue, verb: Verb, net: Net<W>, p: Policy, w: W,
                                                      good: W -> bool)
    requires Grounds(venue, verb, net, good)
    ensures var r := Resolved(venue, verb, net, p, w);
            r.result.Ok? ==> good(r.world.world)
  {
    var t, deadline := CallStarts(venue, verb, net, p, w);
    CallIsGrounded(venue, verb, net, p, t, deadline, 0, good);
  }

  /** `order` is the venue's order with this id. Lookups show it as it is when they answer. */
  ghost predicate TruthfulLookups<W(!new)>(net: Net<W>, order: W -> Option<Info>) {
    forall w {:trigger net.look(w)} :: net.look(w).1.Ok? ==> order(net.look(w).0) == net.look(w).1.value
  }

  /** A successful cancel means the order is canceled at the venue, over every schedule of losses. */
  lemma {:induction false} CancelIsSound<W(!new)>(venue: Venue, net: Net<W>, p: Policy, w: W, order: W -> Option<Info>)
    requires TruthfulLookups(net, order)
    requires forall v {:trigger net.send(v)} :: net.send(v).1.Ok? ==> IsCanceled(venue, order(net.send(v).0))
    ensures var r := Resolved(venue, Cancel, net, p, w);
            r.result.Ok? ==> IsCanceled(venue, order(r.world.world))
  {
    SuccessIsGrounded(venue, Cancel, net, p, w, (v: W) => IsCanceled(venue, order(v)));
  }

  predicate IsCanceled(venue: Venue, order: Option<Info>) {
    order.Some? && order.value.status == CanceledStatus(venue)
  }

  /** A successful amend means the order carries every requested value when the deciding answer is
      given, over every schedule of losses. */
  lemma {:induction false} AmendIsSound<W(!new)>(venue: Venue, verb: Verb, net: Net<W>, p: Policy, w: W,
                                                 order: W -> Option<Info>)
    requires verb.Amend? && TruthfulLookups(net, order)
    requires forall v {:trigger net.send(v)} :: net.send(v).1.Ok? ==> Carries(venue, verb, order(net.send(v).0))
    ensures var r := Resolved(venue, verb, net, p, w);
            r.result.Ok? ==> Carries(venue, verb, order(r.world.world))
  {
    SuccessIsGrounded(venue, verb, net, p, w, (v: W) => Carries(venue, verb, order(v)));
  }

  predicate Carries(venue: Venue, verb: Verb, order: Option<Info>) {
    order.Some? && Matches(venue, verb, order.value)
  }

  // ---- when an amended order works ----

  /** The venue tells the truth, acknowledges an amend only of a working order, and its lookups show
      nothing but `shown`. */
  ghost predicate AmendsHonestly<W(!new)>(venue: Venue, net: Net<W>, order: W -> Option<Info>, shown: Info -> bool) {
    && TruthfulLookups(net, order)
    && (forall w {:trigger net.send(w)} :: net.send(w).1.Ok? ==> Works(venue, order(net.send(w).0)))
    && (forall w {:trigger net.look(w)} ::
          net.look(w).1.Ok? && net.look(w).1.value.Some? ==> shown(net.look(w).1.value.value))
  }

  /** Of the orders that may be shown, those carrying the requested values work. */
  ghost predicate MatchesWork(venue: Venue, verb: Verb, shown: Info -> bool) {
    forall info :: shown(info) && Matches(venue, verb, info) ==> IsWorking(venue, info.status)
  }

  /** Success means a working order wherever no lookup can show one that carries the requested values
      and no longer works. */
  lemma {:induction false} AmendedWorks<W(!new)>(venue: Venue, verb: Verb, net: Net<W>, p: Policy, w: W,
                                                 order: W -> Option<Info>, shown: Info -> bool)
    requires verb.Amend? && AmendsHonestly(venue, net, order, shown) && MatchesWork(venue, verb, shown)
    ensures var r := Resolved(venue, verb, net, p, w);
            r.result.Ok? ==> Works(venue, order(r.world.world))
  {
    hide IsWorking, Matches, Resolved;
    SuccessIsGrounded(venue, verb, net, p, w, (v: W) => Works(venue, order(v)));
  }

  /** A venue that loses every amend and whose order is, and stays, the one given. */
  function StillNet(order: Info): Net<bool> {
    Net((w: bool) => (w, Err(Error("transport", "lost"))), (w: bool) => (w, Ok(Some(order))),
        (w: bool) => (w, 0), (w: bool) => (w, 0.0), (w: bool, millis: int) => w)
  }

  /** A lost amend of an order that already carries the requested values succeeds, whatever its status,
      on both venues and with every policy. */
  lemma {:induction false} MatchingOrderIsSuccess(venue: Venue, verb: Verb, p: Policy, order: Info)
    requires p.maxAttempts >= 1 && verb.Amend? && Matches(venue, verb, order)
    ensures Resolved(venue, verb, StillNet(order), p, true).result == Ok(AckOf(order))
  {
    var net := StillNet(order);
    var t, deadline := CallStarts(venue, verb, net, p, true);
    var t1, lookDeadline := LookUpStarts(venue, net, p,
                                         Traced(true, t.trace + [Sent(Err(Error("transport", "lost")))]));
    var lookMore, lookMillis := LookTurn(venue, net, p, t1, lookDeadline, 0);
    var more, millis := SendTurn(venue, verb, net, p, t, deadline, 0);
  }

  /** Exactly that: for any set of orders a venue may show, every honest venue showing only those makes
      a successful amend mean a working order, if and only if every order in the set that carries the
      requested values works. */
  lemma {:induction false} AmendMeansWorkingIff(venue: Venue, verb: Verb, p: Policy, shown: Info -> bool)
    requires p.maxAttempts >= 1 && verb.Amend?
    ensures MatchesWork(venue, verb, shown) <==>
            forall net: Net<bool>, order: bool -> Option<Info>, w: bool
              {:trigger order(w), AmendsHonestly(venue, net, order, shown)} ::
              AmendsHonestly(venue, net, order, shown) && Resolved(venue, verb, net, p, w).result.Ok?
              ==> Works(venue, order(Resolved(venue, verb, net, p, w).world.world))
  {
    hide IsWorking, Matches, Resolved;
    if MatchesWork(venue, verb, shown) {
      forall net: Net<bool>, order: bool -> Option<Info>, w: bool | AmendsHonestly(venue, net, order, shown)
        ensures Resolved(venue, verb, net, p, w).result.Ok?
                ==> Works(venue, order(Resolved(venue, verb, net, p, w).world.world))
      {
        AmendedWorks(venue, verb, net, p, w, order, shown);
      }
    } else {
      var info :| shown(info) && Matches(venue, verb, info) && !IsWorking(venue, info.status);
      var order := (w: bool) => Some(info);
      MatchingOrderIsSuccess(venue, verb, p, info);
      assert AmendsHonestly(venue, StillNet(info), order, shown);
      assert order(true) == Some(info);
    }
  }

  /** In particular an order canceled with the requested values is a successful amend. */
  lemma {:induction false} AmendedMayBeCanceled(venue: Venue, verb: Verb, p: Policy, order: Info)
    requires p.maxAttempts >= 1 && verb.Amend? && Matches(venue, verb, order) && order.status == CanceledStatus(venue)
    ensures AmendsHonestly(venue, StillNet(order), (w: bool) => Some(order), (info: Info) => info == order)
    ensures Resolved(venue, verb, StillNet(order), p, true).result == Ok(AckOf(order)) && !Works(venue, Some(order))
  {
    hide Matches, Resolved;
    MatchingOrderIsSuccess(venue, verb, p, order);
  }
}
