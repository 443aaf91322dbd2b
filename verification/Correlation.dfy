/** Request/response correlation on one WebSocket: concurrent callers, one reader, sessions that die.
    Each locked region is one step; steps of different threads interleave freely. */
module Correlation {
  import opened Wrappers

  datatype Message = Message(id: nat, body: string)

  /** A request's mailbox; `id` is the request it was made for. */
  datatype Slot = Slot(id: nat, response: Option<Message>, failed: bool)

  predicate Completed(slot: Slot) {
    slot.response.Some? || slot.failed
  }

  datatype Ending = Unsent | TimedOut | Lost | Answered(message: Message)

  /** Where one call is. `session` is the one that took its frame, if any. */
  datatype Phase =
    | Numbered(id: nat)
    | Registered(id: nat, handle: nat)
    | Waiting(id: nat, handle: nat, session: nat)
    | Leaving(id: nat, handle: nat, took: Option<nat>, timedOut: bool)
    | Done(id: nat, ending: Ending)

  /** Where the reader is between its locks. A session first connects and syncs the clock inline: it
      reads exactly one frame, looking only for the answer to its own time request. */
  datatype Reader =
    | Idle
    | Connecting
    | Syncing(syncId: nat)
    | Reading
    | Holding(held: nat, message: Message)
    | Closed
    | Failing(waiters: set<nat>)

  /** `slots` are the mailboxes ever allocated; a handle is an index into them. `started` counts the
      sessions; the latest one is current until its reader is idle again. `connected` says whether
      there is a client to send on. */
  datatype Client = Client(nextId: nat, pending: map<nat, nat>, slots: seq<Slot>, calls: map<nat, Phase>,
                           reader: Reader, started: nat, connected: bool)

  datatype Step =
    | TakeId(t: nat)
    | Register(t: nat)
    | Send(t: nat, accepted: bool)
    | Wake(t: nat)
    | Erase(t: nat)
    | StartSession
    | SyncRequest
    | SyncRead(frame: Option<Message>)
    | Receive(message: Message)
    | Complete
    | CloseSession
    | TakeWaiters
    | FailOne(handle: nat)
    | EndSession

  const NEW_CLIENT := Client(1, map[], [], map[], Idle, 0, false)

  // ---- one step per locked region ----

  function SetPhase(c: Client, t: nat, phase: Phase): Client {
    c.(calls := c.calls[t := phase])
  }

  function NextTakeId(c: Client, t: nat): Client {
    if t in c.calls then c else c.(nextId := c.nextId + 1, calls := c.calls[t := Numbered(c.nextId)])
  }

  function NextRegister(c: Client, t: nat): Client {
    if t in c.calls && c.calls[t].Numbered? then
      var id, handle := c.calls[t].id, |c.slots|;
      c.(pending := c.pending[id := handle], slots := c.slots + [Slot(id, None, false)],
         calls := c.calls[t := Registered(id, handle)])
    else c
  }

  function NextSend(c: Client, t: nat, accepted: bool): Client {
    if t in c.calls && c.calls[t].Registered? then
      var id, handle := c.calls[t].id, c.calls[t].handle;
      if c.connected && accepted && c.started > 0 then SetPhase(c, t, Waiting(id, handle, c.started - 1))
      else SetPhase(c, t, Leaving(id, handle, None, false))
    else c
  }

  /** The wait ends with the mailbox filled or failed, or with the deadline. */
  function NextWake(c: Client, t: nat): Client {
    if t in c.calls && c.calls[t].Waiting? && c.calls[t].handle < |c.slots| then
      var call := c.calls[t];
      SetPhase(c, t, Leaving(call.id, call.handle, Some(call.session), !Completed(c.slots[call.handle])))
    else c
  }

  function EndingOf(c: Client, call: Phase): Ending
    requires call.Leaving?
  {
    if call.took.None? || call.handle >= |c.slots| then Unsent
    else if call.timedOut then TimedOut
    else if c.slots[call.handle].failed then Lost
    else if c.slots[call.handle].response.Some? then Answered(c.slots[call.handle].response.value)
    else TimedOut
  }

  function NextErase(c: Client, t: nat): Client {
    if t in c.calls && c.calls[t].Leaving? then
      c.(pending := c.pending - {c.calls[t].id}, calls := c.calls[t := Done(c.calls[t].id, EndingOf(c, c.calls[t]))])
    else c
  }

  function NextStartSession(c: Client): Client {
    if c.reader.Idle? then c.(reader := Connecting, started := c.started + 1, connected := true) else c
  }

  /** The time request takes an id but no mailbox. */
  function NextSyncRequest(c: Client): Client {
    if c.reader.Connecting? then c.(nextId := c.nextId + 1, reader := Syncing(c.nextId)) else c
  }

  /** Whatever the one frame is, or if none comes, the session goes on; a frame that is not the time
      request's answer is dropped. */
  function NextSyncRead(c: Client, frame: Option<Message>): Client {
    if c.reader.Syncing? then c.(reader := Reading) else c
  }

  /** The message's mailbox is taken off the table; an unknown id is dropped. */
  function NextReceive(c: Client, m: Message): Client {
    if c.reader.Reading? && m.id in c.pending
    then c.(pending := c.pending - {m.id}, reader := Holding(c.pending[m.id], m))
    else c
  }

  function NextComplete(c: Client): Client {
    if c.reader.Holding? && c.reader.held < |c.slots|
    then c.(slots := c.slots[c.reader.held := c.slots[c.reader.held].(response := Some(c.reader.message))],
            reader := Reading)
    else c
  }

  function NextCloseSession(c: Client): Client {
    if c.reader.Reading? || c.reader.Connecting? then c.(reader := Closed, connected := false) else c
  }

  function NextTakeWaiters(c: Client): Client {
    if c.reader.Closed? then c.(reader := Failing(set id | id in c.pending :: c.pending[id]), pending := map[]) else c
  }

  function NextFailOne(c: Client, handle: nat): Client {
    if c.reader.Failing? && handle in c.reader.waiters && handle < |c.slots|
    then c.(slots := c.slots[handle := c.slots[handle].(failed := true)],
            reader := Failing(c.reader.waiters - {handle}))
    else c
  }

  function NextEndSession(c: Client): Client {
    if c.reader.Failing? && c.reader.waiters == {} then c.(reader := Idle) else c
  }

  function Next(c: Client, step: Step): Client {
    match step
    case TakeId(t) => NextTakeId(c, t)
    case Register(t) => NextRegister(c, t)
    case Send(t, accepted) => NextSend(c, t, accepted)
    case Wake(t) => NextWake(c, t)
    case Erase(t) => NextErase(c, t)
    case StartSession => NextStartSession(c)
    case SyncRequest => NextSyncRequest(c)
    case SyncRead(frame) => NextSyncRead(c, frame)
    case Receive(m) => NextReceive(c, m)
    case Complete => NextComplete(c)
    case CloseSession => NextCloseSession(c)
    case TakeWaiters => NextTakeWaiters(c)
    case FailOne(handle) => NextFailOne(c, handle)
    case EndSession => NextEndSession(c)
  }

  function Run(c: Client, steps: seq<Step>): Client
    decreases |steps|
  {
    if steps == [] then c else Run(Next(c, steps[0]), steps[1..])
  }

  // ---- the invariant ----

  /** The session is over: closed, and every waiter it left has been failed. */
  predicate Over(c: Client, session: nat) {
    session + 1 < c.started || (session + 1 == c.started && c.reader.Idle?)
  }

  /** Somebody is still to answer or fail this mailbox. */
  predicate Expected(c: Client, handle: nat) {
    || (handle < |c.slots| && c.slots[handle].id in c.pending && c.pending[c.slots[handle].id] == handle)
    || (c.reader.Holding? && c.reader.held == handle)
    || (c.reader.Failing? && handle in c.reader.waiters)
  }

  function SessionOf(call: Phase): Option<nat> {
    match call
    case Waiting(_, _, k) => Some(k)
    case Leaving(_, _, took, _) => took
    case _ => None
  }

  predicate HasHandle(call: Phase) {
    call.Registered? || call.Waiting? || call.Leaving?
  }

  function HandleOf(call: Phase): nat {
    match call
    case Registered(_, handle) => handle
    case Waiting(_, handle, _) => handle
    case Leaving(_, handle, _, _) => handle
    case _ => 0
  }

  predicate SlotFits(c: Client, slot: Slot) {
    && slot.id < c.nextId
    && (slot.response.Some? ==> slot.response.value.id == slot.id && !slot.failed)
  }

  predicate CallFits(c: Client, call: Phase) {
    && call.id < c.nextId
    && (HasHandle(call) ==> HandleOf(call) < |c.slots| && c.slots[HandleOf(call)].id == call.id)
    && (call.Numbered? ==> NoSlotFor(c, call.id))
    && (call.Registered? || call.Waiting? ==> Completed(c.slots[HandleOf(call)]) || Expected(c, HandleOf(call)))
    && (call.Leaving? && call.took.Some? && !call.timedOut ==> Completed(c.slots[call.handle]))
    && (SessionOf(call).Some? ==>
          && SessionOf(call).value < c.started
          && (Over(c, SessionOf(call).value) ==> !Expected(c, HandleOf(call)))
          && (c.reader.Failing? ==> call.id !in c.pending))
    && (call.Done? && call.ending.Answered? ==> call.ending.message.id == call.id)
  }

  predicate NoSlotFor(c: Client, id: nat) {
    forall h :: 0 <= h < |c.slots| ==> c.slots[h].id != id
  }

  ghost predicate Inv(c: Client) {
    && (forall h :: 0 <= h < |c.slots| ==> SlotFits(c, c.slots[h]))
    && (forall h, k :: 0 <= h < k < |c.slots| ==> c.slots[h].id != c.slots[k].id)
    && (forall id ::
          id in c.pending
          ==> c.pending[id] < |c.slots| && c.slots[c.pending[id]].id == id && !Completed(c.slots[c.pending[id]]))
    && (forall t :: t in c.calls ==> CallFits(c, c.calls[t]))
    && (forall t, u :: t in c.calls && u in c.calls && t != u ==> c.calls[t].id != c.calls[u].id)
    && ReaderFits(c)
    && (c.connected ==> c.reader.Connecting? || c.reader.Syncing? || c.reader.Reading? || c.reader.Holding?)
    && (!c.reader.Idle? ==> c.started > 0)
  }

  predicate ReaderFits(c: Client) {
    match c.reader
    case Syncing(id) => id < c.nextId && NoSlotFor(c, id) && forall t :: t in c.calls ==> c.calls[t].id != id
    case Holding(h, m) => h < |c.slots| && c.slots[h].id == m.id && !Completed(c.slots[h]) && m.id !in c.pending
    case Failing(waiters) =>
      forall h :: h in waiters ==> h < |c.slots| && !Completed(c.slots[h]) && c.slots[h].id !in c.pending
    case _ => true
  }

  /** Mailboxes are never forgotten, and what is in one stays. */
  ghost predicate Kept(c: Client, c': Client) {
    && c.nextId <= c'.nextId && |c.slots| <= |c'.slots|
    && forall h :: 0 <= h < |c.slots| ==>
         && c'.slots[h].id == c.slots[h].id
         && (c.slots[h].failed ==> c'.slots[h].failed)
         && (c.slots[h].response.Some? ==> c'.slots[h].response == c.slots[h].response)
  }

  // ---- every step keeps it ----

  lemma {:induction false} TakeIdKeepsRest(c: Client, t: nat, call: Phase)
    requires Inv(c)
    ensures CallFits(c, call) ==> CallFits(NextTakeId(c, t), call)
    ensures ReaderFits(NextTakeId(c, t))
    ensures t !in c.calls ==> CallFits(NextTakeId(c, t), Numbered(c.nextId))
  {
    assert forall h :: 0 <= h < |c.slots| ==> SlotFits(c, c.slots[h]);
  }

  lemma {:induction false} TakeIdKeepsInv(c: Client, t: nat)
    requires Inv(c)
    ensures Inv(NextTakeId(c, t))
  {
    hide ReaderFits;
    var c' := NextTakeId(c, t);
    forall u | u in c'.calls
      ensures CallFits(c', c'.calls[u]) && c'.calls[u].id < c'.nextId && (u in c.calls ==> c.calls[u].id < c.nextId)
    {
      TakeIdKeepsRest(c, t, c'.calls[u]);
    }
    forall h | 0 <= h < |c.slots| ensures SlotFits(c', c.slots[h]) {
      assert SlotFits(c, c.slots[h]);
    }
    TakeIdKeepsRest(c, t, Numbered(c.nextId));
  }

  lemma {:induction false} RegisterKeepsCall(c: Client, t: nat, call: Phase)
    requires Inv(c) && t in c.calls && c.calls[t].Numbered? && CallFits(c, call) && call.id != c.calls[t].id
    ensures CallFits(NextRegister(c, t), call)
  {
  }

  lemma {:induction false} RegisterKeepsReader(c: Client, t: nat)
    requires Inv(c) && t in c.calls && c.calls[t].Numbered?
    ensures ReaderFits(NextRegister(c, t))
  {
  }

  lemma {:induction false} RegisterKeepsInv(c: Client, t: nat)
    requires Inv(c)
    ensures Inv(NextRegister(c, t))
  {
    var c' := NextRegister(c, t);
    if t in c.calls && c.calls[t].Numbered? {
      assert CallFits(c, c.calls[t]);
      RegisterKeepsReader(c, t);
      forall h | 0 <= h < |c'.slots| ensures SlotFits(c', c'.slots[h]) {
        assert h < |c.slots| ==> SlotFits(c, c.slots[h]);
      }
      forall u | u in c'.calls ensures CallFits(c', c'.calls[u]) {
        if u != t {
          RegisterKeepsCall(c, t, c.calls[u]);
        }
      }
    }
  }

  lemma {:induction false} CallStepKeepsReader(c: Client, t: nat, call: Phase, other: Phase)
    requires Inv(c) && t in c.calls && call.id == c.calls[t].id
    ensures ReaderFits(SetPhase(c, t, call))
    ensures CallFits(c, other) ==> CallFits(SetPhase(c, t, call), other)
  {
  }

  lemma {:induction false} CallStepKeepsInv(c: Client, t: nat, call: Phase)
    requires Inv(c) && t in c.calls && call.id == c.calls[t].id && CallFits(c, call)
    ensures Inv(SetPhase(c, t, call))
  {
    hide ReaderFits, CallFits;
    var c' := SetPhase(c, t, call);
    CallStepKeepsReader(c, t, call, call);
    forall u | u in c'.calls ensures CallFits(c', c'.calls[u]) {
      CallStepKeepsReader(c, t, call, c'.calls[u]);
    }
    forall h | 0 <= h < |c.slots| ensures SlotFits(c', c.slots[h]) {
      assert SlotFits(c, c.slots[h]);
    }
  }

  lemma {:induction false} SendKeepsInv(c: Client, t: nat, accepted: bool)
    requires Inv(c)
    ensures Inv(NextSend(c, t, accepted))
  {
    if t in c.calls && c.calls[t].Registered? {
      assert CallFits(c, c.calls[t]);
      CallStepKeepsInv(c, t, NextSend(c, t, accepted).calls[t]);
    }
  }

  lemma {:induction false} WakeKeepsInv(c: Client, t: nat)
    requires Inv(c)
    ensures Inv(NextWake(c, t))
  {
    if t in c.calls && c.calls[t].Waiting? {
      assert CallFits(c, c.calls[t]);
      CallStepKeepsInv(c, t, NextWake(c, t).calls[t]);
    }
  }

  lemma {:induction false} EraseKeepsCall(c: Client, t: nat, call: Phase)
    requires Inv(c) && t in c.calls && c.calls[t].Leaving? && CallFits(c, call) && call.id != c.calls[t].id
    ensures CallFits(NextErase(c, t), call)
  {
    assert CallFits(c, c.calls[t]);
  }

  lemma {:induction false} ErasedCallFits(c: Client, t: nat)
    requires Inv(c) && t in c.calls && c.calls[t].Leaving?
    ensures CallFits(NextErase(c, t), NextErase(c, t).calls[t]) && NextErase(c, t).calls[t].id == c.calls[t].id
  {
    assert CallFits(c, c.calls[t]) && SlotFits(c, c.slots[c.calls[t].handle]);
  }

  lemma {:induction false} EraseKeepsReader(c: Client, t: nat)
    requires Inv(c)
    ensures ReaderFits(NextErase(c, t))
  {
  }

  lemma {:induction false} EraseKeepsInv(c: Client, t: nat)
    requires Inv(c)
    ensures Inv(NextErase(c, t))
  {
    hide ReaderFits, CallFits, EndingOf;
    var c' := NextErase(c, t);
    if t in c.calls && c.calls[t].Leaving? {
      EraseKeepsReader(c, t);
      ErasedCallFits(c, t);
      forall u | u in c'.calls ensures CallFits(c', c'.calls[u]) {
        if u != t {
          EraseKeepsCall(c, t, c.calls[u]);
        }
      }
      forall h | 0 <= h < |c.slots| ensures SlotFits(c', c.slots[h]) {
        assert SlotFits(c, c.slots[h]);
      }
    }
  }

  lemma {:induction false} StartKeepsInv(c: Client)
    requires Inv(c)
    ensures Inv(NextStartSession(c))
  {
  }

  lemma {:induction false} SyncRequestKeepsInv(c: Client)
    requires Inv(c)
    ensures Inv(NextSyncRequest(c))
  {
    var c' := NextSyncRequest(c);
    forall u | u in c'.calls ensures CallFits(c', c'.calls[u]) {
      assert CallFits(c, c.calls[u]);
    }
    forall h | 0 <= h < |c.slots| ensures SlotFits(c', c.slots[h]) {
      assert SlotFits(c, c.slots[h]);
    }
  }

  lemma {:induction false} SyncReadKeepsInv(c: Client, frame: Option<Message>)
    requires Inv(c)
    ensures Inv(NextSyncRead(c, frame))
  {
    var c' := NextSyncRead(c, frame);
    forall u | u in c'.calls ensures CallFits(c', c'.calls[u]) {
      assert CallFits(c, c.calls[u]);
    }
    forall h | 0 <= h < |c.slots| ensures SlotFits(c', c.slots[h]) {
      assert SlotFits(c, c.slots[h]);
    }
  }

  lemma {:induction false} ReceiveKeepsInv(c: Client, m: Message)
    requires Inv(c)
    ensures Inv(NextReceive(c, m))
  {
    var c' := NextReceive(c, m);
    forall u | u in c'.calls ensures CallFits(c', c'.calls[u]) {
      assert CallFits(c, c.calls[u]);
    }
    assert forall h :: 0 <= h < |c.slots| ==> SlotFits(c, c.slots[h]);
  }

  lemma {:induction false} CompleteKeepsInv(c: Client)
    requires Inv(c)
    ensures Inv(NextComplete(c))
  {
    var c' := NextComplete(c);
    if c' != c {
      forall h | 0 <= h < |c'.slots| ensures SlotFits(c', c'.slots[h]) {
        assert SlotFits(c, c.slots[h]);
      }
      forall u | u in c'.calls ensures CallFits(c', c'.calls[u]) {
        assert CallFits(c, c.calls[u]);
      }
    }
  }

  lemma {:induction false} CloseKeepsInv(c: Client)
    requires Inv(c)
    ensures Inv(NextCloseSession(c))
  {
    var c' := NextCloseSession(c);
    forall u | u in c'.calls ensures CallFits(c', c'.calls[u]) {
      assert CallFits(c, c.calls[u]);
    }
    assert forall h :: 0 <= h < |c.slots| ==> SlotFits(c, c.slots[h]);
  }

  lemma {:induction false} TakeWaitersKeepsInv(c: Client)
    requires Inv(c)
    ensures Inv(NextTakeWaiters(c))
  {
  }

  lemma {:induction false} FailOneKeepsInv(c: Client, handle: nat)
    requires Inv(c)
    ensures Inv(NextFailOne(c, handle))
  {
  }

  lemma {:induction false} EndKeepsInv(c: Client)
    requires Inv(c)
    ensures Inv(NextEndSession(c))
  {
  }

  lemma {:induction false} CallerKeepsInv(c: Client, step: Step)
    requires Inv(c) && (step.TakeId? || step.Register? || step.Send? || step.Wake? || step.Erase?)
    ensures Inv(Next(c, step))
  {
    match step
    case TakeId(t) => TakeIdKeepsInv(c, t);
    case Register(t) => RegisterKeepsInv(c, t);
    case Send(t, accepted) => SendKeepsInv(c, t, accepted);
    case Wake(t) => WakeKeepsInv(c, t);
    case Erase(t) => EraseKeepsInv(c, t);
  }

  /** Any step of any caller or of the reader keeps the invariant. */
  lemma {:induction false} StepKeepsInv(c: Client, step: Step)
    requires Inv(c)
    ensures Inv(Next(c, step))
  {
    match step
    case StartSession => StartKeepsInv(c);
    case SyncRequest => SyncRequestKeepsInv(c);
    case SyncRead(frame) => SyncReadKeepsInv(c, frame);
    case Receive(m) => ReceiveKeepsInv(c, m);
    case Complete => CompleteKeepsInv(c);
    case CloseSession => CloseKeepsInv(c);
    case TakeWaiters => TakeWaitersKeepsInv(c);
    case FailOne(handle) => FailOneKeepsInv(c, handle);
    case EndSession => EndKeepsInv(c);
    case _ => CallerKeepsInv(c, step);
  }

  lemma {:induction false} StepKeeps(c: Client, step: Step)
    requires Inv(c)
    ensures Kept(c, Next(c, step))
  {
  }

  lemma {:induction false} RunKeepsInv(c: Client, steps: seq<Step>)
    requires Inv(c)
    ensures Inv(Run(c, steps)) && Kept(c, Run(c, steps))
    decreases |steps|
  {
    if steps != [] {
      StepKeepsInv(c, steps[0]);
      StepKeeps(c, steps[0]);
      RunKeepsInv(Next(c, steps[0]), steps[1..]);
    }
  }

  // ---- the promises ----

  /** Request ids are never reused: in every reachable state no two calls, and no two mailboxes, carry
      the same id. */
  lemma {:induction false} IdsAreNeverReused(steps: seq<Step>)
    ensures var c := Run(NEW_CLIENT, steps);
            && (forall t, u :: t in c.calls && u in c.calls && t != u ==> c.calls[t].id != c.calls[u].id)
            && (forall h, k :: 0 <= h < k < |c.slots| ==> c.slots[h].id != c.slots[k].id)
  {
    RunKeepsInv(NEW_CLIENT, steps);
  }

  /** A mailbox is completed at most once, with the message that carries its id or with the loss of
      the session but never both, and what it holds stays; so a response completes at most one
      request, and an answered call returns its own response. */
  lemma {:induction false} ResponsesMatchTheirRequests(steps: seq<Step>, more: seq<Step>)
    ensures var c, later := Run(NEW_CLIENT, steps), Run(Run(NEW_CLIENT, steps), more);
            && (forall h :: 0 <= h < |c.slots| && c.slots[h].response.Some? ==>
                  && c.slots[h].response.value.id == c.slots[h].id && !c.slots[h].failed
                  && h < |later.slots| && later.slots[h] == c.slots[h])
            && (forall t :: t in c.calls && c.calls[t].Done? && c.calls[t].ending.Answered? ==>
                  c.calls[t].ending.message.id == c.calls[t].id)
  {
    RunKeepsInv(NEW_CLIENT, steps);
    var c := Run(NEW_CLIENT, steps);
    RunKeepsInv(c, more);
    var later := Run(c, more);
    forall h | 0 <= h < |c.slots| && c.slots[h].response.Some?
      ensures c.slots[h].response.value.id == c.slots[h].id && !c.slots[h].failed && h < |later.slots|
              && later.slots[h] == c.slots[h]
    {
      assert SlotFits(c, c.slots[h]) && SlotFits(later, later.slots[h]);
    }
    forall t | t in c.calls && c.calls[t].Done? && c.calls[t].ending.Answered?
      ensures c.calls[t].ending.message.id == c.calls[t].id
    {
      assert CallFits(c, c.calls[t]);
    }
  }

  /** The reader takes its next frame. */
  function Arrive(c: Client, m: Message): Client {
    if c.reader.Syncing? then NextSyncRead(c, Some(m)) else NextReceive(c, m)
  }

  /** In every reachable state in which the reader reads a frame, a message for a call that still waits
      is taken for it exactly when the session is past its clock sync; before that it is dropped, and
      the call's mailbox, untouched, has lost it. */
  lemma {:induction false} TakenIffSynced(steps: seq<Step>, t: nat, m: Message)
    requires var c := Run(NEW_CLIENT, steps);
             && (c.reader.Reading? || c.reader.Syncing?) && t in c.calls && c.calls[t].Waiting? && c.calls[t].id == m.id
    ensures var c := Run(NEW_CLIENT, steps);
            && c.calls[t].handle < |c.slots|
            && (!Completed(c.slots[c.calls[t].handle]) ==>
                  && (Arrive(c, m).reader == Holding(c.calls[t].handle, m) <==> c.reader.Reading?)
                  && (c.reader.Syncing? ==> Arrive(c, m) == c.(reader := Reading)))
  {
    RunKeepsInv(NEW_CLIENT, steps);
    assert CallFits(Run(NEW_CLIENT, steps), Run(NEW_CLIENT, steps).calls[t]);
  }

  lemma {:induction false} RunFrom(c: Client, steps: seq<Step>, i: nat)
    requires i < |steps|
    ensures Run(c, steps[i..]) == Run(Next(c, steps[i]), steps[i + 1..])
    ensures i == 0 ==> steps[i..] == steps
  {
    assert steps[i..][1..] == steps[i + 1..];
  }

  /** A response can be lost: a session starts, a call is sent on it before the clock sync has read its
      frame, the venue answers the call first, and the call times out. */
  function LosingRun(body: string): seq<Step> {
    [StartSession, SyncRequest, TakeId(0), Register(0),
     Send(0, true), SyncRead(Some(Message(2, body))), Wake(0), Erase(0)]
  }

  lemma {:induction false} ResponseCanBeLost(body: string)
    ensures Run(NEW_CLIENT, LosingRun(body)).calls == map[0 := Done(2, TimedOut)]
  {
    var run := LosingRun(body);
    var c1 := Next(NEW_CLIENT, run[0]);
    var c2 := Next(c1, run[1]);
    var c3 := Next(c2, run[2]);
    var c4 := Next(c3, run[3]);
    var c5 := Next(c4, run[4]);
    var c6 := Next(c5, run[5]);
    var c7 := Next(c6, run[6]);
    RunFrom(NEW_CLIENT, run, 0);
    RunFrom(c1, run, 1);
    RunFrom(c2, run, 2);
    RunFrom(c3, run, 3);
    RunFrom(c4, run, 4);
    RunFrom(c5, run, 5);
    RunFrom(c6, run, 6);
    RunFrom(c7, run, 7);
  }

  /** Nothing hangs on a dead session: in every reachable state, a call whose frame went out in a
      session that is over has been answered or failed if it still waits, and no request sent in such
      a session is left on the table. */
  lemma {:induction false} DeadSessionsLeaveNothingPending(steps: seq<Step>, t: nat, session: nat)
    requires var c := Run(NEW_CLIENT, steps);
             t in c.calls && SessionOf(c.calls[t]) == Some(session) && Over(c, session)
    ensures var c := Run(NEW_CLIENT, steps);
            && c.calls[t].id !in c.pending
            && HandleOf(c.calls[t]) < |c.slots|
            && (c.calls[t].Waiting? ==> Completed(c.slots[HandleOf(c.calls[t])]))
  {
    RunKeepsInv(NEW_CLIENT, steps);
    var c := Run(NEW_CLIENT, steps);
    assert CallFits(c, c.calls[t]);
  }

  // ---- how a call ends ----

  /** The step is one of the call's own thread. */
  predicate Moves(step: Step, t: nat) {
    match step
    case TakeId(u) => u == t
    case Register(u) => u == t
    case Send(u, _) => u == t
    case Wake(u) => u == t
    case Erase(u) => u == t
    case _ => false
  }

  predicate NeverMoves(steps: seq<Step>, t: nat) {
    forall i :: 0 <= i < |steps| ==> !Moves(steps[i], t)
  }

  lemma {:induction false} OthersLeaveCall(c: Client, steps: seq<Step>, t: nat)
    requires Inv(c) && t in c.calls && NeverMoves(steps, t)
    ensures var later := Run(c, steps);
            Inv(later) && Kept(c, later) && t in later.calls && later.calls[t] == c.calls[t]
    decreases |steps|
  {
    hide Inv, Kept, Next;
    if steps == [] {
      NothingIsKept(c);
    } else {
      StepKeepsInv(c, steps[0]);
      StepKeeps(c, steps[0]);
      OtherStepLeavesCall(c, steps[0], t);
      OthersLeaveCall(Next(c, steps[0]), steps[1..], t);
      KeptComposes(c, Next(c, steps[0]), Run(c, steps));
    }
  }

  lemma {:induction false} NothingIsKept(c: Client)
    ensures Kept(c, c)
  {
  }

  lemma {:induction false} KeptComposes(a: Client, b: Client, c: Client)
    requires Kept(a, b) && Kept(b, c)
    ensures Kept(a, c)
  {
  }

  lemma {:induction false} OtherStepLeavesCall(c: Client, step: Step, t: nat)
    requires t in c.calls && !Moves(step, t)
    ensures t in Next(c, step).calls && Next(c, step).calls[t] == c.calls[t]
  {
  }

  /** A call that wakes answers with the message in its mailbox if there is one, is lost if the mailbox
      was failed, and has timed out if it is empty, whatever comes in after; and its request is off the
      table. */
  lemma {:induction false} WokenCallEnds(steps: seq<Step>, t: nat, between: seq<Step>)
    requires var c := Run(NEW_CLIENT, steps);
             t in c.calls && c.calls[t].Waiting? && NeverMoves(between, t)
    ensures var c := Run(NEW_CLIENT, steps);
            var id, handle := c.calls[t].id, c.calls[t].handle;
            var later := Next(Run(Next(c, Wake(t)), between), Erase(t));
            && handle < |c.slots| && c.slots[handle].id == id && id !in later.pending && t in later.calls
            && later.calls[t] == Done(id, match c.slots[handle].response
                                          case Some(m) => Answered(m)
                                          case None => if c.slots[handle].failed then Lost else TimedOut)
  {
    hide Inv, Kept, Run;
    var c := Run(NEW_CLIENT, steps);
    RunKeepsInv(NEW_CLIENT, steps);
    WaitingHasMailbox(c, t);
    var woken := Next(c, Wake(t));
    StepKeepsInv(c, Wake(t));
    OthersLeaveCall(woken, between, t);
    MailboxStays(woken, Run(woken, between), c.calls[t].handle);
  }

  lemma {:induction false} WaitingHasMailbox(c: Client, t: nat)
    requires Inv(c) && t in c.calls && (c.calls[t].Waiting? || c.calls[t].Registered?)
    ensures var id, handle := c.calls[t].id, HandleOf(c.calls[t]);
            && handle < |c.slots| && c.slots[handle].id == id
            && (c.slots[handle].response.Some? ==> !c.slots[handle].failed)
            && (c.reader.Reading? && !Completed(c.slots[handle]) ==> id in c.pending && c.pending[id] == handle)
  {
    assert CallFits(c, c.calls[t]);
    assert SlotFits(c, c.slots[HandleOf(c.calls[t])]);
  }

  lemma {:induction false} MailboxStays(c: Client, later: Client, handle: nat)
    requires Kept(c, later) && Inv(later) && handle < |c.slots|
    ensures handle < |later.slots|
    ensures c.slots[handle].response.Some? ==>
              later.slots[handle].response == c.slots[handle].response && !later.slots[handle].failed
    ensures c.slots[handle].failed ==> later.slots[handle].failed
  {
    assert later.slots[handle].id == c.slots[handle].id;
    assert SlotFits(later, later.slots[handle]);
  }

  /** A frame that a connection takes leaves its call waiting; one that is not taken, or has no connection,
      ends the call unsent, whatever comes in meanwhile, with its request off the table. */
  lemma {:induction false} UnsentCallEnds(steps: seq<Step>, t: nat, accepted: bool, between: seq<Step>)
    requires var c := Run(NEW_CLIENT, steps);
             t in c.calls && c.calls[t].Registered? && NeverMoves(between, t)
    ensures var c := Run(NEW_CLIENT, steps);
            var id := c.calls[t].id;
            var sent := Next(c, Send(t, accepted));
            var later := Next(Run(sent, between), Erase(t));
            if c.connected && accepted then
              && t in sent.calls && sent.calls[t].Waiting? && sent.calls[t].id == id
              && sent.calls[t].handle == c.calls[t].handle && sent.calls[t].session + 1 == c.started
            else id !in later.pending && t in later.calls && later.calls[t] == Done(id, Unsent)
  {
    hide Kept, Run;
    var c := Run(NEW_CLIENT, steps);
    RunKeepsInv(NEW_CLIENT, steps);
    var sent := Next(c, Send(t, accepted));
    StepKeepsInv(c, Send(t, accepted));
    hide Inv;
    OthersLeaveCall(sent, between, t);
  }

  predicate NeverCompletes(steps: seq<Step>) {
    forall i :: 0 <= i < |steps| ==> !steps[i].Complete?
  }

  /** The message read for a call that still waits is the one its mailbox is filled with, whatever the
      callers do between. */
  lemma {:induction false} TakenMessageIsDelivered(steps: seq<Step>, t: nat, m: Message, between: seq<Step>)
    requires var c := Run(NEW_CLIENT, steps);
             && c.reader.Reading? && t in c.calls && c.calls[t].Waiting? && c.calls[t].id == m.id
             && NeverCompletes(between)
    ensures var c := Run(NEW_CLIENT, steps);
            var handle := c.calls[t].handle;
            var later := Next(Run(Next(c, Receive(m)), between), Complete);
            handle < |c.slots| && (!Completed(c.slots[handle]) ==>
              handle < |later.slots| && later.slots[handle].response == Some(m) && later.reader.Reading?)
  {
    hide Inv, Kept, Run;
    var c := Run(NEW_CLIENT, steps);
    RunKeepsInv(NEW_CLIENT, steps);
    WaitingHasMailbox(c, t);
    var taken := Next(c, Receive(m));
    if !Completed(c.slots[c.calls[t].handle]) {
      HeldStays(taken, between);
    }
  }

  lemma {:induction false} HeldStays(c: Client, steps: seq<Step>)
    requires c.reader.Holding? && NeverCompletes(steps)
    ensures Run(c, steps).reader == c.reader && |c.slots| <= |Run(c, steps).slots|
    decreases |steps|
  {
    if steps != [] {
      HeldStays(Next(c, steps[0]), steps[1..]);
    }
  }

  // ---- the client object ----

  lemma {:induction false} RunAppends(c: Client, steps: seq<Step>, last: Step)
    ensures Run(c, steps + [last]) == Next(Run(c, steps), last)
    decreases |steps|
  {
    if steps == [] {
      assert steps + [last] == [last] && [last][1..] == [];
      assert Run(Next(c, last), []) == Next(c, last);
    } else {
      assert (steps + [last])[1..] == steps[1..] + [last];
      RunAppends(Next(c, steps[0]), steps[1..], last);
    }
  }

  /** The shared fields; each method is what one thread does under one lock, or the reader between
      two reads. The calls themselves live on their threads' stacks. */
  class WsClient {
    var nextId: nat
    var pending: map<nat, nat>
    var slots: seq<Slot>
    var connected: bool
    var started: nat
    ghost var reader: Reader

    constructor ()
      ensures State(map[]) == NEW_CLIENT
    {
      nextId, pending, slots, connected, started := 1, map[], [], false, 0;
      reader := Idle;
    }

    ghost function State(calls: map<nat, Phase>): Client
      reads this
    {
      Client(nextId, pending, slots, calls, reader, started, connected)
    }

    method NewId(ghost calls: map<nat, Phase>, ghost t: nat) returns (id: nat)
      requires t !in calls
      modifies this`nextId
      ensures State(calls[t := Numbered(id)]) == NextTakeId(old(State(calls)), t)
    {
      id := nextId;
      nextId := nextId + 1;
    }

    method NewPending(id: nat, ghost calls: map<nat, Phase>, ghost t: nat) returns (handle: nat)
      requires t in calls && calls[t] == Numbered(id)
      modifies this`pending, this`slots
      ensures State(calls[t := Registered(id, handle)]) == NextRegister(old(State(calls)), t)
    {
      handle := |slots|;
      slots := slots + [Slot(id, None, false)];
      pending := pending[id := handle];
    }

    method ErasePending(id: nat, ghost calls: map<nat, Phase>, ghost t: nat)
      requires t in calls && calls[t].Leaving? && calls[t].id == id
      modifies this`pending
      ensures var ending := EndingOf(old(State(calls)), calls[t]);
              State(calls[t := Done(id, ending)]) == NextErase(old(State(calls)), t)
    {
      pending := pending - {id};
    }

    method OpenSession(ghost calls: map<nat, Phase>)
      requires reader.Idle?
      modifies this`started, this`connected, this`reader
      ensures State(calls) == NextStartSession(old(State(calls)))
    {
      started := started + 1;
      connected := true;
      reader := Connecting;
    }

    /** One request, one frame; `readable` says whether it carries a server time. Any other frame than
        the request's answer is dropped, and nobody hears of it. */
    method InlineTimeSync(frame: Option<Message>, readable: bool, ghost calls: map<nat, Phase>) returns (synced: bool)
      requires reader.Connecting?
      modifies this`nextId, this`reader
      ensures State(calls) == NextSyncRead(NextSyncRequest(old(State(calls))), frame)
      ensures synced <==> frame.Some? && readable && frame.value.id == old(nextId)
    {
      var id := nextId;
      nextId := nextId + 1;
      synced := frame.Some? && readable && frame.value.id == id;
      reader := Reading;
    }

    /** Find and take the mailbox under one lock, fill it under its own. */
    method DispatchMessage(m: Message, ghost calls: map<nat, Phase>) returns (served: bool)
      requires reader.Reading? && Inv(State(calls))
      modifies this`pending, this`slots
      ensures served <==> m.id in old(pending)
      ensures State(calls) == NextComplete(NextReceive(old(State(calls)), m))
    {
      if m.id !in pending {
        return false;
      }
      var handle := pending[m.id];
      pending := pending - {m.id};
      slots := slots[handle := slots[handle].(response := Some(m))];
      return true;
    }

    method CloseClient(ghost calls: map<nat, Phase>)
      requires reader.Reading? || reader.Connecting?
      modifies this`connected, this`reader
      ensures State(calls) == NextCloseSession(old(State(calls)))
    {
      connected := false;
      reader := Closed;
    }

    method TakeWaiters(ghost calls: map<nat, Phase>) returns (waiters: set<nat>)
      requires reader.Closed?
      modifies this`pending, this`reader
      ensures State(calls) == NextTakeWaiters(old(State(calls)))
      ensures reader == Failing(waiters) && pending == map[] && forall h :: h in waiters ==> h in old(pending).Values
    {
      waiters := set id | id in pending :: pending[id];
      pending := map[];
      reader := Failing(waiters);
    }

    method FailWaiter(handle: nat, ghost calls: map<nat, Phase>)
      requires reader.Failing? && handle in reader.waiters && handle < |slots|
      modifies this`slots, this`reader
      ensures State(calls) == NextFailOne(old(State(calls)), handle)
      ensures reader == Failing(old(reader).waiters - {handle}) && |slots| == |old(slots)|
    {
      slots := slots[handle := slots[handle].(failed := true)];
      reader := Failing(reader.waiters - {handle});
    }

    /** Everything on the table is taken at once, then failed one by one, in whatever order. */
    method FailAllPending(ghost calls: map<nat, Phase>) returns (ghost steps: seq<Step>)
      requires reader.Closed? && forall id :: id in pending ==> pending[id] < |slots|
      modifies this`pending, this`slots, this`reader
      ensures State(calls) == Run(NextTakeWaiters(old(State(calls))), steps + [EndSession])
      ensures (forall i :: 0 <= i < |steps| ==> steps[i].FailOne?) && reader == Idle && pending == map[]
    {
      hide NextTakeWaiters, NextFailOne;
      ghost var taken := NextTakeWaiters(State(calls));
      var waiters: set<nat> := TakeWaiters(calls);
      steps := [];
      while waiters != {}
        invariant reader == Failing(waiters) && pending == map[]
        invariant forall h :: h in waiters ==> h < |slots|
        invariant State(calls) == Run(taken, steps)
        invariant forall i :: 0 <= i < |steps| ==> steps[i].FailOne?
        decreases |waiters|
      {
        var handle :| handle in waiters;
        RunAppends(taken, steps, FailOne(handle));
        FailWaiter(handle, calls);
        waiters := waiters - {handle};
        steps := steps + [FailOne(handle)];
      }
      RunAppends(taken, steps, EndSession);
      reader := Idle;
    }
  }
}
