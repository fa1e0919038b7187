/** The callout lock: who may call 3scale for a cache key, who waits for the answer, and who is told.

    A state is everything the threads share (the store, the per-thread queues) plus what each thread
    keeps to itself (its program counter, its table of waiting contexts). `Do` is one atomic step of
    one thread; a step ends right after the one host call it makes. The trace records what happened,
    and `EventOk` is the protocol: what every event promises about the events before it. */
module CalloutLock {
  import opened Wrappers
  import opened SharedData

  type RootId = nat
  type ContextId = nat
  type Key = string

  /** An http context, named by its thread and its own id within that thread. */
  datatype Context = Context(root: RootId, id: ContextId)

  /** What is stored in the lock: the waiter's queue and its context id. The queue registered by a
      thread is named by that thread's root id. */
  datatype Waiter = Waiter(queueId: RootId, contextId: ContextId)

  datatype CalloutLockValue = CalloutLockValue(ownedBy: RootId, waiters: seq<Waiter>)

  datatype WaiterAction = HandleCacheHit(contextId: ContextId) | HandleFailure(contextId: ContextId)

  function WaiterOf(c: Context): Waiter {
    Waiter(c.root, c.id)
  }

  /** The action for one waiter: the same kind, with that waiter's context id inside. */
  function Retarget(action: WaiterAction, id: ContextId): WaiterAction {
    match action
    case HandleCacheHit(_) => HandleCacheHit(id)
    case HandleFailure(_) => HandleFailure(id)
  }

  /** Where a thread is. Everything it remembers between two host calls is in here. */
  datatype Pc =
    | Idle
    | Looking(ctx: Context, key: Key, seenOwner: Option<RootId>)
    | SawNothing(ctx: Context, key: Key, seenOwner: Option<RootId>)
    | SawHeld(ctx: Context, key: Key, seenOwner: Option<RootId>, lock: CalloutLockValue, cas: nat)
    | SawFree(ctx: Context, key: Key, cas: nat)
    | Registering(ctx: Context, key: Key)
    | FreeLooking(ctx: Context, key: Key, action: WaiterAction)
    | Notifying(ctx: Context, key: Key, action: WaiterAction, waiters: seq<Waiter>, done: nat)
  {
    /** Inside `set_callout_lock`, before its outcome is decided. */
    predicate InCall() {
      Looking? || SawNothing? || SawHeld? || SawFree?
    }
  }

  /** A message queue: all that was ever put in, and how many were taken out. */
  datatype Queue = Queue(sent: seq<WaiterAction>, taken: nat)

  datatype Sight = Nothing | HeldLock | FreedLock

  datatype Event =
    | Started(ctx: Context, key: Key)
    | Looked(ctx: Context, key: Key, sight: Sight)
    | Acquired(ctx: Context, key: Key)
    | Appended(ctx: Context, key: Key, waiter: Waiter)
    | Retried(ctx: Context, key: Key)
    | CameFirst(ctx: Context, key: Key)
    | Registered(ctx: Context)
    | Answered(ctx: Context, key: Key, decided: Option<WaiterAction>)
    | FreeRead(ctx: Context, key: Key, action: WaiterAction)
    | FoundNoLock(ctx: Context, key: Key)
    | Sent(ctx: Context, key: Key, queueId: RootId, action: WaiterAction, ok: bool)
    | Freed(ctx: Context, key: Key)
    | Woken(ctx: Context, action: WaiterAction)
    | Stray(ctx: Context, action: WaiterAction)
    | Elsewhere

  datatype State = State(
    store: Store<CalloutLockValue>,
    queues: map<RootId, Queue>,
    waiting: set<Context>,          // the union of the threads' WAITING_CONTEXTS tables
    callouts: set<(Context, Key)>,  // lock holders whose 3scale call is still unanswered
    pcs: map<RootId, Pc>,
    trace: seq<Event>)

  /** What a thread can do next. `Answer` and `NoAnswer` are the two ways a callout ends: in
      `free_callout_lock_and_notify_waiters`, or in a return that skips it. */
  datatype Action =
    | Start(id: ContextId, key: Key)
    | Look
    | CasWrite
    | Register
    | Answer(id: ContextId, key: Key, action: WaiterAction)
    | NoAnswer(id: ContextId, key: Key)
    | FreeLook
    | Notify(enqueued: bool)
    | FreeWrite
    | TakeMessage
    | OtherWrite

  datatype Label = Label(root: RootId, action: Action)

  function QueueAt(s: State, q: RootId): Queue {
    if q in s.queues then s.queues[q] else Queue([], 0)
  }

  predicate Enabled(s: State, l: Label) {
    && l.root in s.pcs
    && var pc := s.pcs[l.root];
       match l.action
       case Start(id, key) => pc.Idle? && Context(l.root, id) !in s.waiting
       case Look => pc.Looking?
       case CasWrite => pc.SawNothing? || pc.SawHeld? || pc.SawFree?
       case Register => pc.Registering?
       case Answer(id, key, action) => pc.Idle? && (Context(l.root, id), key) in s.callouts
       case NoAnswer(id, key) => pc.Idle? && (Context(l.root, id), key) in s.callouts
       case FreeLook => pc.FreeLooking?
       case Notify(enqueued) => pc.Notifying? && pc.done < |pc.waiters|
       case FreeWrite => pc.Notifying? && pc.done == |pc.waiters|
       case TakeMessage => pc.Idle? && QueueAt(s, l.root).taken < |QueueAt(s, l.root).sent|
       case OtherWrite => true
  }

  function Goto(s: State, root: RootId, pc: Pc, e: Event): State {
    s.(pcs := s.pcs[root := pc], trace := s.trace + [e])
  }

  /** One look at the lock in the acquisition loop. */
  function DoLook(s: State, root: RootId, pc: Pc): State
    requires pc.Looking?
  {
    match Get(s.store, pc.key)
    case (_, None) => Goto(s, root, SawNothing(pc.ctx, pc.key, pc.seenOwner), Looked(pc.ctx, pc.key, Nothing))
    case (Some(lock), Some(cas)) =>
      Goto(s, root, SawHeld(pc.ctx, pc.key, pc.seenOwner, lock, cas), Looked(pc.ctx, pc.key, HeldLock))
    case (None, Some(cas)) =>
      if pc.seenOwner.Some? then Goto(s, root, Idle, CameFirst(pc.ctx, pc.key))
      else Goto(s, root, SawFree(pc.ctx, pc.key, cas), Looked(pc.ctx, pc.key, FreedLock))
  }

  /** The value and CAS that the loop's write passes to the host. */
  function Proposal(pc: Pc): (CalloutLockValue, nat)
    requires pc.SawNothing? || pc.SawHeld? || pc.SawFree?
  {
    match pc
    case SawNothing(ctx, _, _) => (CalloutLockValue(ctx.root, []), 1)
    case SawHeld(ctx, _, _, lock, cas) => (lock.(waiters := lock.waiters + [WaiterOf(ctx)]), cas)
    case SawFree(ctx, _, cas) => (CalloutLockValue(ctx.root, []), cas)
  }

  function DoWrite(s: State, root: RootId, pc: Pc): State
    requires pc.SawNothing? || pc.SawHeld? || pc.SawFree?
  {
    var (value, cas) := Proposal(pc);
    var (store, status) := Set(s.store, pc.key, Some(value), cas);
    if status == CasMismatch then
      var seen := if pc.SawHeld? then Some(pc.lock.ownedBy) else if pc.SawFree? then None else pc.seenOwner;
      Goto(s, root, Looking(pc.ctx, pc.key, seen), Retried(pc.ctx, pc.key))
    else if pc.SawHeld? then
      Goto(s.(store := store), root, Registering(pc.ctx, pc.key), Appended(pc.ctx, pc.key, WaiterOf(pc.ctx)))
    else
      Goto(s.(store := store, callouts := s.callouts + {(pc.ctx, pc.key)}), root, Idle, Acquired(pc.ctx, pc.key))
  }

  function DoFreeLook(s: State, root: RootId, pc: Pc): State
    requires pc.FreeLooking?
  {
    match Get(s.store, pc.key).0
    case Some(lock) =>
      Goto(s, root, Notifying(pc.ctx, pc.key, pc.action, lock.waiters, 0), FreeRead(pc.ctx, pc.key, pc.action))
    case None => Goto(s, root, Idle, FoundNoLock(pc.ctx, pc.key))
  }

  function DoNotify(s: State, root: RootId, pc: Pc, enqueued: bool): State
    requires pc.Notifying? && pc.done < |pc.waiters|
  {
    var w := pc.waiters[pc.done];
    var message := Retarget(pc.action, w.contextId);
    var q := QueueAt(s, w.queueId);
    var queues := if enqueued then s.queues[w.queueId := q.(sent := q.sent + [message])] else s.queues;
    Goto(s.(queues := queues), root, pc.(done := pc.done + 1), Sent(pc.ctx, pc.key, w.queueId, message, enqueued))
  }

  function DoFreeWrite(s: State, root: RootId, pc: Pc): State
    requires pc.Notifying?
  {
    Goto(s.(store := Set(s.store, pc.key, None, OVERWRITE).0), root, Idle, Freed(pc.ctx, pc.key))
  }

  /** `on_queue_ready` of the filter's root context, as far as the waiting table goes. */
  function DoTake(s: State, root: RootId): State
    requires QueueAt(s, root).taken < |QueueAt(s, root).sent|
  {
    var q := QueueAt(s, root);
    var action := q.sent[q.taken];
    var ctx := Context(root, action.contextId);
    var s1 := s.(queues := s.queues[root := q.(taken := q.taken + 1)]);
    if ctx in s.waiting then Goto(s1.(waiting := s.waiting - {ctx}), root, Idle, Woken(ctx, action))
    else Goto(s1, root, Idle, Stray(ctx, action))
  }

  function Do(s: State, l: Label): State
    requires Enabled(s, l)
  {
    var root := l.root;
    var pc := s.pcs[root];
    match l.action
    case Start(id, key) => Goto(s, root, Looking(Context(root, id), key, None), Started(Context(root, id), key))
    case Look => DoLook(s, root, pc)
    case CasWrite => DoWrite(s, root, pc)
    case Register => Goto(s.(waiting := s.waiting + {pc.ctx}), root, Idle, Registered(pc.ctx))
    case Answer(id, key, action) =>
      Goto(s.(callouts := s.callouts - {(Context(root, id), key)}), root,
           FreeLooking(Context(root, id), key, action), Answered(Context(root, id), key, Some(action)))
    case NoAnswer(id, key) =>
      Goto(s.(callouts := s.callouts - {(Context(root, id), key)}), root, Idle, Answered(Context(root, id), key, None))
    case FreeLook => DoFreeLook(s, root, pc)
    case Notify(enqueued) => DoNotify(s, root, pc, enqueued)
    case FreeWrite => DoFreeWrite(s, root, pc)
    case TakeMessage => DoTake(s, root)
    case OtherWrite => Goto(s.(store := s.store.(next := s.store.next + 1)), root, pc, Elsewhere)
  }

  function Step(s: State, l: Label): State {
    if Enabled(s, l) then Do(s, l) else s
  }

  /** A run: labels are taken in order, those not enabled do nothing. */
  function Exec(s: State, run: seq<Label>): State
    decreases |run|
  {
    if run == [] then s else Exec(Step(s, run[0]), run[1..])
  }

  lemma {:induction false} ExecConcat(s: State, a: seq<Label>, b: seq<Label>)
    ensures Exec(s, a + b) == Exec(Exec(s, a), b)
    decreases |a|
  {
    if a == [] {
      assert a + b == b;
    } else {
      assert (a + b)[1..] == a[1..] + b;
      ExecConcat(Step(s, a[0]), a[1..], b);
    }
  }

  function Init(roots: set<RootId>): State {
    State(Store(map[], 2), map[], {}, {}, map r | r in roots :: Idle, [])
  }

  // ---------------------------------------------------------------------------------------------
  // What the trace says: each history is a fold over the events, and mentions no program state.
  // ---------------------------------------------------------------------------------------------

  datatype Delivery = Delivery(queueId: RootId, action: WaiterAction)

  datatype FreeView = FreeView(action: WaiterAction, count: nat)

  /** One lock since its last acquisition; `writes` and `frees` count from the beginning of time. */
  datatype LockHistory = LockHistory(
    holder: Option<Context>, appends: seq<Waiter>, freeView: Option<FreeView>, sends: seq<Delivery>,
    writes: nat, frees: nat)

  function LockNote(h: LockHistory, e: Event, key: Key): LockHistory {
    match e
    case Acquired(c, k) =>
      if k == key then LockHistory(Some(c), [], None, [], h.writes + 1, h.frees) else h
    case Appended(_, k, w) =>
      if k == key then h.(appends := h.appends + [w], writes := h.writes + 1) else h
    case FreeRead(_, k, action) =>
      if k == key then h.(freeView := Some(FreeView(action, |h.appends|))) else h
    case Sent(_, k, q, action, _) =>
      if k == key then h.(sends := h.sends + [Delivery(q, action)]) else h
    case Freed(_, k) =>
      if k == key then LockHistory(None, [], None, [], h.writes + 1, h.frees + 1) else h
    case _ => h
  }

  function HistoryOf(tr: seq<Event>, key: Key): LockHistory {
    if tr == [] then LockHistory(None, [], None, [], 0, 0)
    else LockNote(HistoryOf(tr[..|tr| - 1], key), tr[|tr| - 1], key)
  }

  /** The messages for these waiters, in their order. */
  function Deliveries(waiters: seq<Waiter>, action: WaiterAction): seq<Delivery> {
    seq(|waiters|, i requires 0 <= i < |waiters| =>
      Delivery(waiters[i].queueId, Retarget(action, waiters[i].contextId)))
  }

  /** The last call of `set_callout_lock` on one thread: whose it is, write counts of its key when it
      began and at the look it is acting on, how often it went round again, how many times the lock
      had been freed when it last saw the lock held, and whether the thread has written a lock since;
      and the thread's last answered callout, with what it decided to tell the waiters. */
  datatype CallHistory = CallHistory(
    ctx: Option<Context>, key: Key, base: nat, lookedAt: Option<nat>, retries: nat, heldAt: Option<nat>, wrote: bool,
    answer: Option<CallAnswer>)

  datatype CallAnswer = CallAnswer(ctx: Context, key: Key, action: Option<WaiterAction>)

  function CallNote(before: seq<Event>, h: CallHistory, e: Event, root: RootId): CallHistory {
    match e
    case Started(c, k) =>
      if c.root == root then
        CallHistory(Some(c), k, HistoryOf(before, k).writes, None, 0, None, false, None)
      else h
    case Looked(c, k, sight) =>
      if c.root == root then
        h.(lookedAt := Some(HistoryOf(before, k).writes),
           heldAt := if sight == HeldLock then Some(HistoryOf(before, k).frees) else h.heldAt)
      else h
    case Retried(c, k) => if c.root == root then h.(retries := h.retries + 1, lookedAt := None) else h
    case Acquired(c, _) => if c.root == root then h.(wrote := true) else h
    case Appended(c, _, _) => if c.root == root then h.(wrote := true) else h
    case Freed(c, _) => if c.root == root then h.(wrote := true) else h
    case Answered(c, k, action) => if c.root == root then h.(answer := Some(CallAnswer(c, k, action))) else h
    case _ => h
  }

  function CallOf(tr: seq<Event>, root: RootId): CallHistory {
    if tr == [] then CallHistory(None, "", 0, None, 0, None, false, None)
    else CallNote(tr[..|tr| - 1], CallOf(tr[..|tr| - 1], root), tr[|tr| - 1], root)
  }

  function QueueNote(q: Queue, e: Event, root: RootId): Queue {
    match e
    case Sent(_, _, to, action, ok) => if to == root && ok then q.(sent := q.sent + [action]) else q
    case Woken(c, _) => if c.root == root then q.(taken := q.taken + 1) else q
    case Stray(c, _) => if c.root == root then q.(taken := q.taken + 1) else q
    case _ => q
  }

  function QueueOf(tr: seq<Event>, root: RootId): Queue {
    if tr == [] then Queue([], 0) else QueueNote(QueueOf(tr[..|tr| - 1], root), tr[|tr| - 1], root)
  }

  /** Where a waiter's wake-up is: it is not waiting; it is entry `index` of a lock's waiter list;
      it is message `index` of its own queue; or it was missed, because the append came between the
      freeing read and the freeing write (`late`), or because the host refused the enqueue. */
  datatype Token = NotWaiting | InList(key: Key, index: nat) | InQueue(index: nat) | Missed(late: bool)

  function TokenNote(before: seq<Event>, t: Token, e: Event, w: Waiter): Token {
    match e
    case Appended(_, k, x) => if x == w then InList(k, |HistoryOf(before, k).appends|) else t
    case Sent(_, _, q, action, ok) =>
      if Waiter(q, action.contextId) != w then t
      else if ok then InQueue(|QueueOf(before, q).sent|)
      else Missed(false)
    case Freed(_, k) => if t.InList? && t.key == k then Missed(true) else t
    case Woken(c, _) => if WaiterOf(c) == w then NotWaiting else t
    case _ => t
  }

  function TokenOf(tr: seq<Event>, w: Waiter): Token {
    if tr == [] then NotWaiting
    else TokenNote(tr[..|tr| - 1], TokenOf(tr[..|tr| - 1], w), tr[|tr| - 1], w)
  }

  // ---------------------------------------------------------------------------------------------
  // The protocol, as a property of traces.
  // ---------------------------------------------------------------------------------------------

  /** The thread is in a call for this context and key, and has not written a lock during it. */
  predicate InCallOf(before: seq<Event>, c: Context, k: Key) {
    var call := CallOf(before, c.root);
    call.ctx == Some(c) && call.key == k && !call.wrote
  }

  /** What an event promises about everything before it. */
  predicate EventOk(before: seq<Event>, e: Event) {
    match e
    case Looked(c, k, sight) =>
      && InCallOf(before, c, k) && (sight == HeldLock <==> HistoryOf(before, k).holder.Some?)
      && (sight == FreedLock ==> CallOf(before, c.root).heldAt == None)
    case Acquired(c, k) =>
      && InCallOf(before, c, k) && CallOf(before, c.root).lookedAt.Some? && HistoryOf(before, k).holder == None
      && CallOf(before, c.root).heldAt == None
    case Appended(c, k, w) =>
      && InCallOf(before, c, k) && CallOf(before, c.root).lookedAt.Some?
      && HistoryOf(before, k).holder.Some? && w == WaiterOf(c) && TokenOf(before, w) == NotWaiting
    case Retried(c, k) =>
      && InCallOf(before, c, k)
      && CallOf(before, c.root).lookedAt.Some?
      && CallOf(before, c.root).lookedAt.value < HistoryOf(before, k).writes
      && CallOf(before, c.root).retries < HistoryOf(before, k).writes - CallOf(before, c.root).base
    case CameFirst(c, k) =>
      && InCallOf(before, c, k)
      && CallOf(before, c.root).heldAt.Some?
      && CallOf(before, c.root).heldAt.value < HistoryOf(before, k).frees
    case FreeRead(c, k, action) =>
      var h := HistoryOf(before, k);
      && h.holder == Some(c) && h.freeView == None && h.sends == []
      && CallOf(before, c.root).answer == Some(CallAnswer(c, k, Some(action)))
    case FoundNoLock(_, _) => false
    case Sent(c, k, q, action, ok) =>
      var h := HistoryOf(before, k);
      && h.holder == Some(c) && h.freeView.Some? && |h.sends| < h.freeView.value.count <= |h.appends|
      && var w := h.appends[|h.sends|];
         q == w.queueId && action == Retarget(h.freeView.value.action, w.contextId)
    case Freed(c, k) =>
      var h := HistoryOf(before, k);
      h.holder == Some(c) && h.freeView.Some? && |h.sends| == h.freeView.value.count
    case Woken(c, action) =>
      var q := QueueOf(before, c.root);
      q.taken < |q.sent| && q.sent[q.taken] == action && action.contextId == c.id
      && TokenOf(before, WaiterOf(c)) == InQueue(q.taken)
    case Stray(_, _) => false
    case _ => true
  }

  predicate TraceOk(tr: seq<Event>) {
    tr == [] || (TraceOk(tr[..|tr| - 1]) && EventOk(tr[..|tr| - 1], tr[|tr| - 1]))
  }
}
