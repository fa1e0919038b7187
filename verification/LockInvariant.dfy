/** The invariant that ties the program state of the callout lock to its trace, and its proof: every
    step of every thread keeps it, so every trace of every interleaving obeys the protocol. */
module LockInvariant {
  import opened Wrappers
  import opened SharedData
  import opened CalloutLock

  predicate Held(s: State, key: Key) {
    key in s.store.entries && s.store.entries[key].value.Some?
  }

  /** The thread is between its freeing read and its freeing write of this key. */
  predicate IsNotifying(s: State, root: RootId, key: Key) {
    root in s.pcs && s.pcs[root].Notifying? && s.pcs[root].key == key
  }

  /** The store holds exactly what the trace says was written: the owner, and the contexts whose
      append committed since, in commit order. */
  predicate LockInv(s: State, key: Key) {
    var h := HistoryOf(s.trace, key);
    && (h.holder.Some? <==> Held(s, key))
    && (h.holder.Some? ==>
          s.store.entries[key].value.value == CalloutLockValue(h.holder.value.root, h.appends))
    && (h.holder.None? ==> h.freeView.None?)
    && (h.freeView.None? ==> h.sends == []) && |h.sends| <= |h.appends|
    && (h.freeView.Some? ==> IsNotifying(s, h.holder.value.root, key))
  }

  predicate StoreInv(s: State) {
    && 2 <= s.store.next
    && forall k :: k in s.store.entries ==> 2 <= s.store.entries[k].cas < s.store.next
  }

  /** What a call of `set_callout_lock` knows, by the trace. */
  predicate CallInv(s: State, root: RootId, pc: Pc)
    requires pc.InCall()
  {
    var c := CallOf(s.trace, root);
    var h := HistoryOf(s.trace, pc.key);
    && pc.ctx.root == root && InCallOf(s.trace, pc.ctx, pc.key)
    && pc.ctx !in s.waiting
    && c.base <= h.writes && (c.lookedAt.Some? ==> c.base <= c.lookedAt.value <= h.writes)
    && c.retries <= h.writes - c.base
    && (c.heldAt.Some? ==> c.heldAt.value <= h.frees && (c.heldAt.value == h.frees ==> h.holder.Some?))
    && (c.heldAt.Some? ==> pc.key in s.store.entries)
    && (pc.Looking? ==> (pc.seenOwner.Some? <==> c.heldAt.Some?))
  }

  /** What the last look still says about the entry, as long as its CAS is there. */
  predicate SightInv(s: State, root: RootId, pc: Pc) {
    var c := CallOf(s.trace, root);
    var untouched := pc.InCall() && c.lookedAt == Some(HistoryOf(s.trace, pc.key).writes);
    match pc
    case SawNothing(_, key, seen) =>
      && c.lookedAt.Some? && c.retries <= c.lookedAt.value - c.base && (untouched ==> key !in s.store.entries)
      && (seen.Some? <==> c.heldAt.Some?)
    case SawHeld(_, key, seen, lock, cas) =>
      && c.lookedAt.Some? && c.retries <= c.lookedAt.value - c.base && c.heldAt.Some? && 2 <= cas < s.store.next
      && key in s.store.entries
      && (s.store.entries[key].cas == cas ==> s.store.entries[key].value == Some(lock))
      && (untouched ==> s.store.entries[key].cas == cas)
    case SawFree(_, key, cas) =>
      && c.lookedAt.Some? && c.retries <= c.lookedAt.value - c.base && c.heldAt.None? && 2 <= cas < s.store.next
      && key in s.store.entries
      && (s.store.entries[key].cas == cas ==> s.store.entries[key].value == None)
      && (untouched ==> s.store.entries[key].cas == cas)
    case _ => true
  }

  /** What a thread knows after the call, and while it frees. */
  predicate FreeInv(s: State, root: RootId, pc: Pc) {
    match pc
    case Registering(ctx, _) => ctx.root == root && ctx !in s.waiting
    case FreeLooking(ctx, key, action) =>
      var h := HistoryOf(s.trace, key);
      && ctx.root == root && h.holder == Some(ctx) && h.freeView == None && (ctx, key) !in s.callouts
      && CallOf(s.trace, root).answer == Some(CallAnswer(ctx, key, Some(action)))
    case Notifying(ctx, key, action, waiters, done) =>
      var h := HistoryOf(s.trace, key);
      && ctx.root == root && h.holder == Some(ctx) && (ctx, key) !in s.callouts
      && h.freeView == Some(FreeView(action, |waiters|))
      && done <= |waiters| <= |h.appends| && waiters == h.appends[..|waiters|]
      && |h.sends| == done
    case _ => true
  }

  predicate ThreadInv(s: State, root: RootId)
    requires root in s.pcs
  {
    var pc := s.pcs[root];
    (pc.InCall() ==> CallInv(s, root, pc)) && SightInv(s, root, pc) && FreeInv(s, root, pc)
  }

  /** Only a holder that has not begun to free has a callout in flight. */
  predicate CalloutInv(s: State, ctx: Context, key: Key) {
    (ctx, key) in s.callouts ==>
      HistoryOf(s.trace, key).holder == Some(ctx) && HistoryOf(s.trace, key).freeView == None
  }

  /** In the thread's table, or just about to be put there. */
  predicate Pending(s: State, w: Waiter) {
    var ctx := Context(w.queueId, w.contextId);
    || ctx in s.waiting
    || (w.queueId in s.pcs && s.pcs[w.queueId].Registering? && s.pcs[w.queueId].ctx == ctx)
  }

  predicate ListEntry(s: State, key: Key, i: int) {
    var h := HistoryOf(s.trace, key);
    h.holder.Some? && |h.sends| <= i < |h.appends|
  }

  predicate Message(s: State, root: RootId, i: int) {
    QueueAt(s, root).taken <= i < |QueueAt(s, root).sent|
  }

  /** One waiter's token tells where its single wake-up is, and nothing else is a wake-up for it. */
  predicate TokenInv(s: State, w: Waiter) {
    var t := TokenOf(s.trace, w);
    && (t == NotWaiting <==> !Pending(s, w))
    && (t.InList? ==> ListEntry(s, t.key, t.index) && HistoryOf(s.trace, t.key).appends[t.index] == w)
    && (t.InQueue? ==> Message(s, w.queueId, t.index)
                       && QueueAt(s, w.queueId).sent[t.index].contextId == w.contextId)
  }

  ghost predicate EntryInv(s: State, key: Key) {
    forall i :: ListEntry(s, key, i) ==> TokenOf(s.trace, HistoryOf(s.trace, key).appends[i]) == InList(key, i)
  }

  ghost predicate MessageInv(s: State, root: RootId) {
    && QueueAt(s, root) == QueueOf(s.trace, root)
    && QueueAt(s, root).taken <= |QueueAt(s, root).sent|
    && (forall i :: Message(s, root, i) ==>
          TokenOf(s.trace, Waiter(root, QueueAt(s, root).sent[i].contextId)) == InQueue(i))
  }

  ghost predicate LocksOk(s: State) {
    && StoreInv(s)
    && (forall k :: LockInv(s, k))
    && (forall c, k :: CalloutInv(s, c, k))
  }

  ghost predicate ThreadsOk(s: State) {
    forall r :: r in s.pcs ==> ThreadInv(s, r)
  }

  ghost predicate TokensOk(s: State) {
    && (forall w :: TokenInv(s, w))
    && (forall k :: EntryInv(s, k))
    && (forall r :: MessageInv(s, r))
  }

  ghost predicate Inv(s: State) {
    LocksOk(s) && ThreadsOk(s) && TokensOk(s) && TraceOk(s.trace)
  }

  // ---------------------------------------------------------------------------------------------
  // One more event on the trace.
  // ---------------------------------------------------------------------------------------------

  lemma Extend(tr: seq<Event>, e: Event)
    ensures (tr + [e])[..|tr + [e]| - 1] == tr && (tr + [e])[|tr + [e]| - 1] == e
    ensures forall k :: HistoryOf(tr + [e], k) == LockNote(HistoryOf(tr, k), e, k)
    ensures forall r :: CallOf(tr + [e], r) == CallNote(tr, CallOf(tr, r), e, r)
    ensures forall r :: QueueOf(tr + [e], r) == QueueNote(QueueOf(tr, r), e, r)
    ensures forall w :: TokenOf(tr + [e], w) == TokenNote(tr, TokenOf(tr, w), e, w)
    ensures TraceOk(tr + [e]) <==> TraceOk(tr) && EventOk(tr, e)
  {
    assert (tr + [e])[..|tr + [e]| - 1] == tr;
  }

  lemma InitInv(roots: set<RootId>)
    ensures Inv(Init(roots))
  {
  }

  // ---------------------------------------------------------------------------------------------
  // What one step leaves alone.
  // ---------------------------------------------------------------------------------------------

  /** One thread moved, and put one event on the trace. */
  predicate Stepped(s: State, t: State, root: RootId, e: Event) {
    && root in s.pcs && root in t.pcs && t.pcs == s.pcs[root := t.pcs[root]]
    && t.trace == s.trace + [e]
    && s.store.next <= t.store.next
  }

  predicate SameEntry(s: State, t: State, key: Key) {
    && (key in s.store.entries <==> key in t.store.entries)
    && (key in s.store.entries ==> s.store.entries[key] == t.store.entries[key])
  }

  /** The event changes what the trace says about this lock. */
  predicate Concerns(e: Event, key: Key) {
    (e.Acquired? || e.Appended? || e.FreeRead? || e.Sent? || e.Freed?) && e.key == key
  }

  lemma LockFrame(s: State, t: State, root: RootId, e: Event, key: Key)
    requires Stepped(s, t, root, e) && SameEntry(s, t, key) && !Concerns(e, key)
    requires LockInv(s, key) && (IsNotifying(s, root, key) ==> IsNotifying(t, root, key))
    ensures LockInv(t, key)
  {
    Extend(s.trace, e);
  }

  /** Callouts only appear with an acquisition and only go away; a freeing thread has none. */
  lemma CalloutFrame(s: State, t: State, root: RootId, e: Event, ctx: Context, key: Key)
    requires Stepped(s, t, root, e) && CalloutInv(s, ctx, key)
    requires if e.Acquired? then
               HistoryOf(s.trace, e.key).holder == None && t.callouts == s.callouts + {(e.ctx, e.key)}
             else t.callouts <= s.callouts
    requires e.FreeRead? || e.Freed? ==>
               HistoryOf(s.trace, e.key).holder == Some(e.ctx) && (e.ctx, e.key) !in t.callouts
    ensures CalloutInv(t, ctx, key)
  {
    Extend(s.trace, e);
  }

  /** The event belongs to the acting thread, and that thread touched no other thread's context. */
  predicate Apart(s: State, t: State, root: RootId, e: Event, other: RootId)
    requires other in s.pcs
  {
    && root != other && (!e.Elsewhere? ==> e.ctx.root == root)
    && (s.pcs[other] != Idle && s.pcs[other].ctx.root == other ==>
          && (s.pcs[other].ctx in t.waiting ==> s.pcs[other].ctx in s.waiting)
          && ((s.pcs[other].ctx, s.pcs[other].key) in t.callouts ==>
                (s.pcs[other].ctx, s.pcs[other].key) in s.callouts))
  }

  lemma ThreadFrame(s: State, t: State, root: RootId, e: Event, other: RootId)
    requires Stepped(s, t, root, e) && other in s.pcs && Apart(s, t, root, e, other) && ThreadInv(s, other)
    requires s.pcs[other] != Idle ==> SameEntry(s, t, s.pcs[other].key) && !Concerns(e, s.pcs[other].key)
    ensures ThreadInv(t, other)
  {
    Extend(s.trace, e);
  }

  /** A write of a key leaves every thread that looked at it with a CAS that is out of date. */
  lemma ThreadAtWrite(s: State, t: State, root: RootId, e: Event, other: RootId)
    requires Stepped(s, t, root, e) && other in s.pcs && Apart(s, t, root, e, other) && ThreadInv(s, other)
    requires (e.Acquired? || e.Appended? || e.Freed?) && StoreInv(s)
    requires s.pcs[other] != Idle && s.pcs[other].key == e.key && e.key in t.store.entries
    requires t.store.entries[e.key].cas == s.store.next
    requires var holder := HistoryOf(s.trace, e.key).holder;
             if e.Acquired? then holder == None else if e.Freed? then holder == Some(e.ctx) else holder.Some?
    ensures ThreadInv(t, other)
  {
    Extend(s.trace, e);
  }

  /** So does the holder's freeing: the others can only be trying to get in. */
  lemma ThreadAtFree(s: State, t: State, root: RootId, e: Event, other: RootId)
    requires Stepped(s, t, root, e) && other in s.pcs && Apart(s, t, root, e, other) && ThreadInv(s, other)
    requires (e.FreeRead? || e.Sent?) && s.pcs[other] != Idle && s.pcs[other].key == e.key
    requires HistoryOf(s.trace, e.key).holder == Some(e.ctx) && SameEntry(s, t, e.key)
    ensures ThreadInv(t, other)
  {
    Extend(s.trace, e);
  }

  /** Events that leave every wake-up where it is. */
  predicate Silent(e: Event) {
    !e.Acquired? && !e.Appended? && !e.Sent? && !e.Freed? && !e.Woken? && !e.Stray?
  }

  lemma TokenFrame(s: State, t: State, root: RootId, e: Event)
    requires Stepped(s, t, root, e) && TokensOk(s) && Silent(e) && t.queues == s.queues
    requires forall w :: Pending(s, w) == Pending(t, w)
    ensures TokensOk(t)
  {
    Extend(s.trace, e);
    forall w ensures TokenInv(t, w) {
      assert TokenInv(s, w) && Pending(s, w) == Pending(t, w);
    }
    forall k ensures EntryInv(t, k) {
      assert EntryInv(s, k);
    }
    forall r ensures MessageInv(t, r) {
      assert MessageInv(s, r);
    }
  }

  // ---------------------------------------------------------------------------------------------
  // Steps of the acquisition loop.
  // ---------------------------------------------------------------------------------------------

  /** A step that writes no lock, sends nothing and starts no callout: only the acting thread moves. */
  ghost predicate Quiet(s: State, t: State, root: RootId, e: Event) {
    && Stepped(s, t, root, e) && Silent(e) && !e.FreeRead?
    && t.store.entries == s.store.entries && t.queues == s.queues && t.callouts <= s.callouts
    && (!s.pcs[root].Notifying? || t.pcs[root] == s.pcs[root])
    && (!e.Elsewhere? ==> e.ctx.root == root)
    && t.waiting <= s.waiting + (if e.Registered? then {e.ctx} else {})
    && (forall w :: Pending(s, w) == Pending(t, w))
    && ThreadInv(t, root) && EventOk(s.trace, e)
  }

  lemma QuietLocks(s: State, t: State, root: RootId, e: Event)
    requires LocksOk(s) && Quiet(s, t, root, e)
    ensures LocksOk(t)
  {
    forall k ensures LockInv(t, k) {
      assert LockInv(s, k);
      LockFrame(s, t, root, e, k);
    }
    forall c, k ensures CalloutInv(t, c, k) {
      assert CalloutInv(s, c, k);
      CalloutFrame(s, t, root, e, c, k);
    }
  }

  lemma QuietThreads(s: State, t: State, root: RootId, e: Event)
    requires ThreadsOk(s) && Quiet(s, t, root, e)
    ensures ThreadsOk(t)
  {
    forall r | r in t.pcs ensures ThreadInv(t, r) {
      if r != root {
        assert ThreadInv(s, r);
        ThreadFrame(s, t, root, e, r);
      }
    }
  }

  lemma QuietStep(s: State, t: State, root: RootId, e: Event)
    requires Inv(s) && Quiet(s, t, root, e)
    ensures Inv(t)
  {
    Extend(s.trace, e);
    QuietLocks(s, t, root, e);
    QuietThreads(s, t, root, e);
    TokenFrame(s, t, root, e);
  }

  lemma StartIsQuiet(s: State, root: RootId, id: ContextId, key: Key)
    requires root in s.pcs && s.pcs[root] == Idle && Context(root, id) !in s.waiting
    ensures var ctx := Context(root, id);
            Quiet(s, Goto(s, root, Looking(ctx, key, None), Started(ctx, key)), root, Started(ctx, key))
  {
    Extend(s.trace, Started(Context(root, id), key));
  }

  lemma LookerKnows(s: State, root: RootId)
    requires root in s.pcs && s.pcs[root].Looking? && ThreadInv(s, root) && StoreInv(s)
    requires LockInv(s, s.pcs[root].key)
    ensures var t := DoLook(s, root, s.pcs[root]);
            var e := t.trace[|s.trace|];
            && t == Goto(s, root, t.pcs[root], e) && (t.pcs[root].InCall() || t.pcs[root].Idle?)
            && (e.Looked? || e.CameFirst?) && e.ctx.root == root
            && ThreadInv(t, root) && EventOk(s.trace, e)
  {
    var t := DoLook(s, root, s.pcs[root]);
    Extend(s.trace, t.trace[|s.trace|]);
  }

  /** Moving within the call is quiet, whatever was seen. */
  lemma MoveIsQuiet(s: State, root: RootId, pc: Pc, e: Event)
    requires root in s.pcs && s.pcs[root].InCall() && (pc.InCall() || pc.Idle?)
    requires (e.Looked? || e.CameFirst?) && e.ctx.root == root
    requires ThreadInv(Goto(s, root, pc, e), root) && EventOk(s.trace, e)
    ensures Quiet(s, Goto(s, root, pc, e), root, e)
  {
  }

  /** The thread is about to write, and the invariant holds where it stands. */
  predicate Writer(s: State, root: RootId) {
    && root in s.pcs && (s.pcs[root].SawNothing? || s.pcs[root].SawHeld? || s.pcs[root].SawFree?)
    && ThreadInv(s, root) && LockInv(s, s.pcs[root].key) && StoreInv(s)
    && TokenInv(s, WaiterOf(s.pcs[root].ctx))
  }

  predicate Wins(s: State, root: RootId)
    requires Writer(s, root)
  {
    Accepts(s.store, s.pcs[root].key, Proposal(s.pcs[root]).1)
  }

  /** What an accepted write of the acquisition loop replaces: an entry nobody holds, or exactly the
      lock value this thread read. A refused one means somebody wrote this key after the look. */
  lemma WriteMeans(s: State, root: RootId)
    requires Writer(s, root)
    ensures var pc := s.pcs[root];
            var h := HistoryOf(s.trace, pc.key);
            if !Wins(s, root) then
              CallOf(s.trace, root).lookedAt.Some? && CallOf(s.trace, root).lookedAt.value < h.writes
            else if pc.SawHeld? then
              h.holder.Some? && pc.lock == CalloutLockValue(h.holder.value.root, h.appends)
            else h.holder == None
  {
  }

  lemma RetryIsQuiet(s: State, root: RootId)
    requires Writer(s, root) && !Wins(s, root)
    ensures Quiet(s, DoWrite(s, root, s.pcs[root]), root, Retried(s.pcs[root].ctx, s.pcs[root].key))
  {
    WriteMeans(s, root);
    Extend(s.trace, Retried(s.pcs[root].ctx, s.pcs[root].key));
  }

  function WriteEvent(pc: Pc): Event
    requires pc.InCall()
  {
    if pc.SawHeld? then Appended(pc.ctx, pc.key, WaiterOf(pc.ctx)) else Acquired(pc.ctx, pc.key)
  }

  lemma WriterKnows(s: State, root: RootId)
    requires Writer(s, root) && Wins(s, root)
    ensures var t := DoWrite(s, root, s.pcs[root]);
            && Stepped(s, t, root, WriteEvent(s.pcs[root])) && EventOk(s.trace, WriteEvent(s.pcs[root]))
            && ThreadInv(t, root) && LockInv(t, s.pcs[root].key) && StoreInv(t)
  {
    WriteMeans(s, root);
    Extend(s.trace, WriteEvent(s.pcs[root]));
  }

  lemma WriteLocks(s: State, root: RootId)
    requires LocksOk(s) && Writer(s, root) && Wins(s, root)
    ensures LocksOk(DoWrite(s, root, s.pcs[root]))
  {
    var pc := s.pcs[root];
    var t := DoWrite(s, root, pc);
    WriterKnows(s, root);
    WriteMeans(s, root);
    forall k ensures LockInv(t, k) {
      assert LockInv(s, k);
      if k != pc.key {
        LockFrame(s, t, root, WriteEvent(pc), k);
      }
    }
    forall c, k ensures CalloutInv(t, c, k) {
      assert CalloutInv(s, c, k);
      CalloutFrame(s, t, root, WriteEvent(pc), c, k);
    }
  }

  /** Every thread but the writer, whatever key it is at. */
  lemma OthersAtWrite(s: State, t: State, root: RootId, e: Event)
    requires ThreadsOk(s) && StoreInv(s) && Stepped(s, t, root, e)
    requires (e.Acquired? || e.Appended? || e.Freed?) && e.ctx.root == root && ThreadInv(t, root)
    requires t.store.entries.Keys == s.store.entries.Keys + {e.key} && t.store.entries[e.key].cas == s.store.next
    requires forall k :: k in s.store.entries && k != e.key ==> t.store.entries[k] == s.store.entries[k]
    requires t.waiting == s.waiting && t.callouts <= s.callouts + {(e.ctx, e.key)}
    requires var holder := HistoryOf(s.trace, e.key).holder;
             if e.Acquired? then holder == None else if e.Freed? then holder == Some(e.ctx) else holder.Some?
    ensures ThreadsOk(t)
  {
    forall r | r in t.pcs ensures ThreadInv(t, r) {
      if r != root {
        assert ThreadInv(s, r);
        if s.pcs[r] != Idle && s.pcs[r].key == e.key {
          ThreadAtWrite(s, t, root, e, r);
        } else {
          ThreadFrame(s, t, root, e, r);
        }
      }
    }
  }

  lemma WriteThreads(s: State, root: RootId)
    requires ThreadsOk(s) && Writer(s, root) && Wins(s, root)
    ensures ThreadsOk(DoWrite(s, root, s.pcs[root]))
  {
    WriterKnows(s, root);
    WriteMeans(s, root);
    OthersAtWrite(s, DoWrite(s, root, s.pcs[root]), root, WriteEvent(s.pcs[root]));
  }

  lemma WriteToken(s: State, root: RootId, w: Waiter)
    requires Writer(s, root) && Wins(s, root) && TokenInv(s, w)
    ensures TokenInv(DoWrite(s, root, s.pcs[root]), w)
  {
    WriteMeans(s, root);
    Extend(s.trace, WriteEvent(s.pcs[root]));
  }

  lemma WriteEntries(s: State, root: RootId, k: Key)
    requires Writer(s, root) && Wins(s, root) && EntryInv(s, k) && LockInv(s, k)
    ensures EntryInv(DoWrite(s, root, s.pcs[root]), k)
  {
    WriteMeans(s, root);
    Extend(s.trace, WriteEvent(s.pcs[root]));
  }

  lemma WriteMessages(s: State, root: RootId, r: RootId)
    requires Writer(s, root) && Wins(s, root) && MessageInv(s, r)
    ensures MessageInv(DoWrite(s, root, s.pcs[root]), r)
  {
    Extend(s.trace, WriteEvent(s.pcs[root]));
  }

  lemma WriteTokens(s: State, root: RootId)
    requires TokensOk(s) && LocksOk(s) && Writer(s, root) && Wins(s, root)
    ensures TokensOk(DoWrite(s, root, s.pcs[root]))
  {
    var t := DoWrite(s, root, s.pcs[root]);
    forall w ensures TokenInv(t, w) {
      assert TokenInv(s, w);
      WriteToken(s, root, w);
    }
    forall k ensures EntryInv(t, k) {
      assert EntryInv(s, k) && LockInv(s, k);
      WriteEntries(s, root, k);
    }
    forall r ensures MessageInv(t, r) {
      assert MessageInv(s, r);
      WriteMessages(s, root, r);
    }
  }

  lemma WriteKeeps(s: State, root: RootId)
    requires Inv(s) && Writer(s, root)
    ensures Inv(DoWrite(s, root, s.pcs[root]))
  {
    if Wins(s, root) {
      WriterKnows(s, root);
      WriteLocks(s, root);
      WriteThreads(s, root);
      WriteTokens(s, root);
      Extend(s.trace, WriteEvent(s.pcs[root]));
    } else {
      RetryIsQuiet(s, root);
      QuietStep(s, DoWrite(s, root, s.pcs[root]), root, Retried(s.pcs[root].ctx, s.pcs[root].key));
    }
  }

  // ---------------------------------------------------------------------------------------------
  // Registering, freeing and waking.
  // ---------------------------------------------------------------------------------------------

  lemma RegisterIsQuiet(s: State, root: RootId)
    requires root in s.pcs && s.pcs[root].Registering? && ThreadInv(s, root)
    ensures var ctx := s.pcs[root].ctx;
            Quiet(s, Goto(s.(waiting := s.waiting + {ctx}), root, Idle, Registered(ctx)), root, Registered(ctx))
  {
    Extend(s.trace, Registered(s.pcs[root].ctx));
  }

  function AnsweredEvent(l: Label): Event
    requires l.action.Answer? || l.action.NoAnswer?
  {
    Answered(Context(l.root, l.action.id), l.action.key, if l.action.Answer? then Some(l.action.action) else None)
  }

  lemma AnswerIsQuiet(s: State, l: Label)
    requires Enabled(s, l) && (l.action.Answer? || l.action.NoAnswer?)
    requires CalloutInv(s, Context(l.root, l.action.id), l.action.key)
    ensures Quiet(s, Do(s, l), l.root, AnsweredEvent(l))
  {
    Extend(s.trace, AnsweredEvent(l));
  }

  /** A write of a key that is no lock only uses up a CAS number. */
  lemma ElsewhereIsQuiet(s: State, root: RootId)
    requires root in s.pcs && ThreadInv(s, root)
    ensures Quiet(s, Goto(s.(store := s.store.(next := s.store.next + 1)), root, s.pcs[root], Elsewhere), root, Elsewhere)
  {
    Extend(s.trace, Elsewhere);
  }

  lemma FreeLookerKnows(s: State, root: RootId)
    requires root in s.pcs && s.pcs[root].FreeLooking? && ThreadInv(s, root) && LockInv(s, s.pcs[root].key)
    ensures var pc := s.pcs[root];
            var t := DoFreeLook(s, root, pc);
            var e := FreeRead(pc.ctx, pc.key, pc.action);
            && t == Goto(s, root, t.pcs[root], e) && IsNotifying(t, root, pc.key)
            && ThreadInv(t, root) && LockInv(t, pc.key) && EventOk(s.trace, e)
  {
    Extend(s.trace, FreeRead(s.pcs[root].ctx, s.pcs[root].key, s.pcs[root].action));
  }

  /** A step of the freeing holder that leaves the store alone. */
  lemma FreeingStep(s: State, t: State, root: RootId, e: Event)
    requires LocksOk(s) && ThreadsOk(s) && Stepped(s, t, root, e)
    requires (e.FreeRead? || e.Sent?) && e.ctx.root == root && ThreadInv(t, root) && LockInv(t, e.key)
    requires !IsNotifying(s, root, e.key) ==> !s.pcs[root].Notifying?
    requires t.store == s.store && t.waiting == s.waiting && t.callouts == s.callouts
    requires HistoryOf(s.trace, e.key).holder == Some(e.ctx) && (e.ctx, e.key) !in s.callouts
    ensures LocksOk(t) && ThreadsOk(t)
  {
    forall k ensures LockInv(t, k) {
      assert LockInv(s, k);
      if k != e.key {
        LockFrame(s, t, root, e, k);
      }
    }
    forall c, k ensures CalloutInv(t, c, k) {
      assert CalloutInv(s, c, k);
      CalloutFrame(s, t, root, e, c, k);
    }
    forall r | r in t.pcs ensures ThreadInv(t, r) {
      if r != root {
        assert ThreadInv(s, r);
        if s.pcs[r] != Idle && s.pcs[r].key == e.key {
          ThreadAtFree(s, t, root, e, r);
        } else {
          ThreadFrame(s, t, root, e, r);
        }
      }
    }
  }

  lemma FreeLookKeeps(s: State, root: RootId)
    requires Inv(s) && root in s.pcs && s.pcs[root].FreeLooking?
    ensures Inv(DoFreeLook(s, root, s.pcs[root]))
  {
    var pc := s.pcs[root];
    var e := FreeRead(pc.ctx, pc.key, pc.action);
    var t := DoFreeLook(s, root, pc);
    assert ThreadInv(s, root) && LockInv(s, pc.key);
    FreeLookerKnows(s, root);
    FreeingStep(s, t, root, e);
    TokenFrame(s, t, root, e);
    Extend(s.trace, e);
  }

  /** The waiter being told is the first list entry not yet told. */
  predicate Telling(s: State, root: RootId) {
    && root in s.pcs && s.pcs[root].Notifying? && s.pcs[root].done < |s.pcs[root].waiters|
    && var pc := s.pcs[root];
       var h := HistoryOf(s.trace, pc.key);
       && pc.ctx.root == root && h.holder == Some(pc.ctx)
       && h.freeView == Some(FreeView(pc.action, |pc.waiters|))
       && |h.sends| == pc.done < |pc.waiters| <= |h.appends| && h.appends[pc.done] == pc.waiters[pc.done]
       && TokenOf(s.trace, pc.waiters[pc.done]) == InList(pc.key, pc.done)
  }

  lemma NextWaiter(s: State, root: RootId)
    requires root in s.pcs && s.pcs[root].Notifying? && s.pcs[root].done < |s.pcs[root].waiters|
    requires ThreadInv(s, root) && EntryInv(s, s.pcs[root].key)
    ensures Telling(s, root)
  {
    assert ListEntry(s, s.pcs[root].key, s.pcs[root].done);
  }

  function SentEvent(pc: Pc, enqueued: bool): Event
    requires pc.Notifying? && pc.done < |pc.waiters|
  {
    var w := pc.waiters[pc.done];
    Sent(pc.ctx, pc.key, w.queueId, Retarget(pc.action, w.contextId), enqueued)
  }

  lemma NotifierKnows(s: State, root: RootId, enqueued: bool)
    requires Telling(s, root) && ThreadInv(s, root) && LockInv(s, s.pcs[root].key)
    ensures var pc := s.pcs[root];
            var t := DoNotify(s, root, pc, enqueued);
            && Stepped(s, t, root, SentEvent(pc, enqueued)) && EventOk(s.trace, SentEvent(pc, enqueued))
            && ThreadInv(t, root) && LockInv(t, pc.key)
  {
    Extend(s.trace, SentEvent(s.pcs[root], enqueued));
  }

  /** The token of the waiter being told moves to its queue, or is lost with the refused message. */
  lemma NotifyTold(s: State, root: RootId, enqueued: bool)
    requires Telling(s, root)
    requires var w := s.pcs[root].waiters[s.pcs[root].done]; TokenInv(s, w) && MessageInv(s, w.queueId)
    ensures TokenInv(DoNotify(s, root, s.pcs[root], enqueued), s.pcs[root].waiters[s.pcs[root].done])
  {
    var pc := s.pcs[root];
    var w := pc.waiters[pc.done];
    Extend(s.trace, SentEvent(pc, enqueued));
    assert Pending(DoNotify(s, root, pc, enqueued), w) == Pending(s, w);
  }

  lemma NotifyUntold(s: State, root: RootId, enqueued: bool, w: Waiter)
    requires Telling(s, root) && w != s.pcs[root].waiters[s.pcs[root].done] && TokenInv(s, w)
    ensures TokenInv(DoNotify(s, root, s.pcs[root], enqueued), w)
  {
    var pc := s.pcs[root];
    var t := DoNotify(s, root, pc, enqueued);
    Extend(s.trace, SentEvent(pc, enqueued));
    assert TokenOf(t.trace, w) == TokenOf(s.trace, w);
    assert Pending(t, w) == Pending(s, w);
  }

  lemma NotifyEntries(s: State, root: RootId, enqueued: bool, k: Key)
    requires Telling(s, root) && EntryInv(s, k) && LockInv(s, k)
    ensures EntryInv(DoNotify(s, root, s.pcs[root], enqueued), k)
  {
    Extend(s.trace, SentEvent(s.pcs[root], enqueued));
  }

  lemma NotifyMessages(s: State, root: RootId, enqueued: bool, r: RootId)
    requires Telling(s, root) && MessageInv(s, r)
    ensures MessageInv(DoNotify(s, root, s.pcs[root], enqueued), r)
  {
    Extend(s.trace, SentEvent(s.pcs[root], enqueued));
  }

  lemma NotifyTokens(s: State, root: RootId, enqueued: bool)
    requires TokensOk(s) && LocksOk(s) && Telling(s, root)
    ensures TokensOk(DoNotify(s, root, s.pcs[root], enqueued))
  {
    var pc := s.pcs[root];
    var t := DoNotify(s, root, pc, enqueued);
    forall w ensures TokenInv(t, w) {
      assert TokenInv(s, w);
      if w == pc.waiters[pc.done] {
        assert MessageInv(s, w.queueId);
        NotifyTold(s, root, enqueued);
      } else {
        NotifyUntold(s, root, enqueued, w);
      }
    }
    forall k ensures EntryInv(t, k) {
      assert EntryInv(s, k) && LockInv(s, k);
      NotifyEntries(s, root, enqueued, k);
    }
    forall r ensures MessageInv(t, r) {
      assert MessageInv(s, r);
      NotifyMessages(s, root, enqueued, r);
    }
  }

  lemma NotifyKeeps(s: State, root: RootId, enqueued: bool)
    requires Inv(s) && root in s.pcs && s.pcs[root].Notifying? && s.pcs[root].done < |s.pcs[root].waiters|
    ensures Inv(DoNotify(s, root, s.pcs[root], enqueued))
  {
    var pc := s.pcs[root];
    assert ThreadInv(s, root) && LockInv(s, pc.key) && EntryInv(s, pc.key);
    NextWaiter(s, root);
    NotifierKnows(s, root, enqueued);
    FreeingStep(s, DoNotify(s, root, pc, enqueued), root, SentEvent(pc, enqueued));
    NotifyTokens(s, root, enqueued);
    Extend(s.trace, SentEvent(pc, enqueued));
  }

  /** The thread has told everybody it read about, and is about to free the lock. */
  predicate Freer(s: State, root: RootId) {
    && root in s.pcs && s.pcs[root].Notifying? && s.pcs[root].done == |s.pcs[root].waiters|
    && ThreadInv(s, root) && LockInv(s, s.pcs[root].key) && StoreInv(s)
  }

  lemma FreerKnows(s: State, root: RootId)
    requires Freer(s, root)
    ensures var pc := s.pcs[root];
            var t := DoFreeWrite(s, root, pc);
            var e := Freed(pc.ctx, pc.key);
            && Stepped(s, t, root, e) && EventOk(s.trace, e) && pc.key in s.store.entries
            && ThreadInv(t, root) && LockInv(t, pc.key) && StoreInv(t)
  {
    Extend(s.trace, Freed(s.pcs[root].ctx, s.pcs[root].key));
  }

  lemma FreeWriteLocks(s: State, root: RootId)
    requires LocksOk(s) && ThreadsOk(s) && Freer(s, root)
    ensures LocksOk(DoFreeWrite(s, root, s.pcs[root])) && ThreadsOk(DoFreeWrite(s, root, s.pcs[root]))
  {
    var pc := s.pcs[root];
    var e := Freed(pc.ctx, pc.key);
    var t := DoFreeWrite(s, root, pc);
    FreerKnows(s, root);
    forall k ensures LockInv(t, k) {
      assert LockInv(s, k);
      if k != pc.key {
        LockFrame(s, t, root, e, k);
      }
    }
    forall c, k ensures CalloutInv(t, c, k) {
      assert CalloutInv(s, c, k);
      CalloutFrame(s, t, root, e, c, k);
    }
    OthersAtWrite(s, t, root, e);
  }

  lemma FreeWriteToken(s: State, root: RootId, w: Waiter)
    requires Freer(s, root) && TokenInv(s, w)
    ensures TokenInv(DoFreeWrite(s, root, s.pcs[root]), w)
  {
    Extend(s.trace, Freed(s.pcs[root].ctx, s.pcs[root].key));
  }

  lemma FreeWriteEntries(s: State, root: RootId, k: Key)
    requires Freer(s, root) && EntryInv(s, k)
    ensures EntryInv(DoFreeWrite(s, root, s.pcs[root]), k)
  {
    Extend(s.trace, Freed(s.pcs[root].ctx, s.pcs[root].key));
  }

  lemma FreeWriteKeeps(s: State, root: RootId)
    requires Inv(s) && Freer(s, root)
    ensures Inv(DoFreeWrite(s, root, s.pcs[root]))
  {
    var t := DoFreeWrite(s, root, s.pcs[root]);
    FreerKnows(s, root);
    FreeWriteLocks(s, root);
    Extend(s.trace, Freed(s.pcs[root].ctx, s.pcs[root].key));
    forall w ensures TokenInv(t, w) {
      assert TokenInv(s, w);
      FreeWriteToken(s, root, w);
    }
    forall k ensures EntryInv(t, k) {
      assert EntryInv(s, k);
      FreeWriteEntries(s, root, k);
    }
    forall r ensures MessageInv(t, r) {
      assert MessageInv(s, r);
    }
  }

  /** The context that this thread's next message is for. */
  function Addressee(s: State, root: RootId): Context
    requires QueueAt(s, root).taken < |QueueAt(s, root).sent|
  {
    Context(root, QueueAt(s, root).sent[QueueAt(s, root).taken].contextId)
  }

  /** A message has arrived, for a context in the table, and is that context's only wake-up. */
  ghost predicate Taker(s: State, root: RootId) {
    && root in s.pcs && s.pcs[root].Idle? && QueueAt(s, root).taken < |QueueAt(s, root).sent|
    && Addressee(s, root) in s.waiting
    && TokenOf(s.trace, WaiterOf(Addressee(s, root))) == InQueue(QueueAt(s, root).taken)
    && MessageInv(s, root)
  }

  lemma MessageFindsWaiter(s: State, root: RootId)
    requires TokensOk(s) && root in s.pcs && s.pcs[root].Idle?
    requires QueueAt(s, root).taken < |QueueAt(s, root).sent|
    ensures Taker(s, root)
  {
    assert MessageInv(s, root) && Message(s, root, QueueAt(s, root).taken);
    assert TokenInv(s, WaiterOf(Addressee(s, root)));
  }

  function WokenEvent(s: State, root: RootId): Event
    requires QueueAt(s, root).taken < |QueueAt(s, root).sent|
  {
    Woken(Addressee(s, root), QueueAt(s, root).sent[QueueAt(s, root).taken])
  }

  lemma TakeLocks(s: State, root: RootId)
    requires LocksOk(s) && ThreadsOk(s) && Taker(s, root)
    ensures LocksOk(DoTake(s, root)) && ThreadsOk(DoTake(s, root))
  {
    var t := DoTake(s, root);
    var e := WokenEvent(s, root);
    forall k ensures LockInv(t, k) {
      assert LockInv(s, k);
      LockFrame(s, t, root, e, k);
    }
    forall c, k ensures CalloutInv(t, c, k) {
      assert CalloutInv(s, c, k);
      CalloutFrame(s, t, root, e, c, k);
    }
    forall r | r in t.pcs ensures ThreadInv(t, r) {
      assert ThreadInv(s, r);
      if r != root {
        ThreadFrame(s, t, root, e, r);
      }
    }
  }

  lemma TakeToken(s: State, root: RootId, w: Waiter)
    requires Taker(s, root) && TokenInv(s, w)
    ensures TokenInv(DoTake(s, root), w)
  {
    Extend(s.trace, WokenEvent(s, root));
  }

  lemma TakeEntries(s: State, root: RootId, k: Key)
    requires Taker(s, root) && EntryInv(s, k)
    ensures EntryInv(DoTake(s, root), k)
  {
    Extend(s.trace, WokenEvent(s, root));
  }

  lemma TakeMessages(s: State, root: RootId, r: RootId)
    requires Taker(s, root) && MessageInv(s, r)
    ensures MessageInv(DoTake(s, root), r)
  {
    Extend(s.trace, WokenEvent(s, root));
  }

  lemma TakeKeeps(s: State, root: RootId)
    requires Inv(s) && Taker(s, root)
    ensures Inv(DoTake(s, root))
  {
    var t := DoTake(s, root);
    TakeLocks(s, root);
    Extend(s.trace, WokenEvent(s, root));
    forall w ensures TokenInv(t, w) {
      assert TokenInv(s, w);
      TakeToken(s, root, w);
    }
    forall k ensures EntryInv(t, k) {
      assert EntryInv(s, k);
      TakeEntries(s, root, k);
    }
    forall r ensures MessageInv(t, r) {
      assert MessageInv(s, r);
      TakeMessages(s, root, r);
    }
  }

  // ---------------------------------------------------------------------------------------------
  // All steps, all runs.
  // ---------------------------------------------------------------------------------------------

  lemma DoKeeps(s: State, l: Label)
    requires Inv(s) && Enabled(s, l)
    ensures Inv(Do(s, l))
  {
    var root := l.root;
    var pc := s.pcs[root];
    assert ThreadInv(s, root);
    match l.action
    case Start(id, key) =>
      StartIsQuiet(s, root, id, key);
      QuietStep(s, Do(s, l), root, Started(Context(root, id), key));
    case Look =>
      assert LockInv(s, pc.key);
      LookerKnows(s, root);
      var t := DoLook(s, root, pc);
      MoveIsQuiet(s, root, t.pcs[root], t.trace[|s.trace|]);
      QuietStep(s, t, root, t.trace[|s.trace|]);
    case CasWrite =>
      assert LockInv(s, pc.key) && TokenInv(s, WaiterOf(pc.ctx));
      WriteKeeps(s, root);
    case Register =>
      RegisterIsQuiet(s, root);
      QuietStep(s, Do(s, l), root, Registered(pc.ctx));
    case Answer(id, key, _) =>
      assert CalloutInv(s, Context(root, id), key);
      AnswerIsQuiet(s, l);
      QuietStep(s, Do(s, l), root, AnsweredEvent(l));
    case NoAnswer(id, key) =>
      assert CalloutInv(s, Context(root, id), key);
      AnswerIsQuiet(s, l);
      QuietStep(s, Do(s, l), root, AnsweredEvent(l));
    case FreeLook => FreeLookKeeps(s, root);
    case Notify(enqueued) => NotifyKeeps(s, root, enqueued);
    case FreeWrite =>
      assert LockInv(s, pc.key);
      FreeWriteKeeps(s, root);
    case TakeMessage =>
      MessageFindsWaiter(s, root);
      TakeKeeps(s, root);
    case OtherWrite =>
      ElsewhereIsQuiet(s, root);
      QuietStep(s, Do(s, l), root, Elsewhere);
  }

  lemma StepKeeps(s: State, l: Label)
    requires Inv(s)
    ensures Inv(Step(s, l))
  {
    if Enabled(s, l) {
      DoKeeps(s, l);
    }
  }

  lemma {:induction false} ExecKeeps(s: State, run: seq<Label>)
    requires Inv(s)
    ensures Inv(Exec(s, run))
    decreases |run|
  {
    if run != [] {
      StepKeeps(s, run[0]);
      ExecKeeps(Step(s, run[0]), run[1..]);
    }
  }

  /** Every interleaving of any number of threads, from an empty store, keeps the invariant. */
  lemma RunsKeepInvariant(roots: set<RootId>, run: seq<Label>)
    ensures Inv(Exec(Init(roots), run))
  {
    InitInv(roots);
    ExecKeeps(Init(roots), run);
  }
}
