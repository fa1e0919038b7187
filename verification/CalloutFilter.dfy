/** The filter's code around the callout lock, as one worker thread runs it. Between any two host calls
    the other threads do whatever `schedule` says; each method is shown to be a run of the protocol in
    which this thread takes exactly the protocol's steps, so the theorems about runs apply to it. */
module CalloutFilter {
  import opened Wrappers
  import opened SharedData
  import opened CalloutLock
  import LockInvariant

  datatype SetCalloutLockStatus = LockAcquired | AddedToWaitlist | ResponseCameFirst

  datatype UniqueCalloutError = MQResolveFail(root: RootId)

  /** What became of a message: nothing was there, its context was resumed, or nobody waits under its id. */
  datatype Delivered = NoMessage | Resumed(action: WaiterAction) | NotFound(contextId: ContextId)

  /** The steps in a batch that are not this thread's. */
  function Foreign(batch: seq<Label>, root: RootId): (r: seq<Label>)
    ensures forall l :: l in r ==> l.root != root
  {
    if batch == [] then []
    else (if batch[0].root != root then [batch[0]] else []) + Foreign(batch[1..], root)
  }

  /** How many steps the schedule still holds. */
  function StepsLeft(schedule: seq<seq<Label>>): nat {
    if schedule == [] then 0 else |schedule[0]| + StepsLeft(schedule[1..])
  }

  /** A run, then foreign steps, then one step of this thread. */
  lemma ExecThen(s: State, run: seq<Label>, foreign: seq<Label>, l: Label)
    ensures Exec(s, run + foreign + [l]) == Step(Exec(Exec(s, run), foreign), l)
  {
    ExecConcat(s, run + foreign, [l]);
    ExecConcat(s, run, foreign);
    var t := Exec(Exec(s, run), foreign);
    assert [l][1..] == [];
    assert Exec(t, [l]) == Exec(Step(t, l), []);
  }

  lemma {:induction false} ForeignStepsLeave(s: State, run: seq<Label>, root: RootId)
    requires root in s.pcs && (forall l :: l in run ==> l.root != root)
    ensures root in Exec(s, run).pcs && Exec(s, run).pcs[root] == s.pcs[root]
    decreases |run|
  {
    if run != [] {
      assert forall l :: l in run[1..] ==> l in run;
      ForeignStepsLeave(Step(s, run[0]), run[1..], root);
    }
  }

  class Worker {
    const root: RootId
    var sys: State
    var schedule: seq<seq<Label>>

    constructor (root: RootId, sys: State, schedule: seq<seq<Label>>)
      ensures this.root == root && this.sys == sys && this.schedule == schedule
    {
      this.root, this.sys, this.schedule := root, sys, schedule;
    }

    /** The next batch of the schedule runs, without this thread's own labels. */
    method Interfere() returns (ghost ran: seq<Label>)
      modifies this`sys, this`schedule
      ensures sys == Exec(old(sys), ran) && (forall l :: l in ran ==> l.root != root)
      ensures if old(schedule) == [] then ran == [] && schedule == []
              else ran == Foreign(old(schedule)[0], root) && schedule == old(schedule)[1..]
      ensures ran != [] ==> StepsLeft(schedule) < StepsLeft(old(schedule))
      ensures StepsLeft(schedule) <= StepsLeft(old(schedule))
      ensures root in old(sys).pcs ==> root in sys.pcs && sys.pcs[root] == old(sys).pcs[root]
    {
      ran := [];
      if schedule != [] {
        ran := Foreign(schedule[0], root);
        var rest := Foreign(schedule[0], root);
        ghost var before := sys;
        while rest != []
          invariant Exec(sys, rest) == Exec(before, ran)
          invariant schedule == old(schedule)
          decreases |rest|
        {
          sys, rest := Step(sys, rest[0]), rest[1..];
        }
        schedule := schedule[1..];
      }
      if root in old(sys).pcs {
        ForeignStepsLeave(old(sys), ran, root);
      }
    }

    /** This thread begins something: a step that makes no host call. */
    method Begin(ghost l: Label, pc: Pc, e: Event) returns (ghost run: seq<Label>)
      requires l.root == root && Enabled(sys, l) && Do(sys, l) == Goto(sys, root, pc, e)
      modifies this`sys
      ensures sys == Exec(old(sys), run) && root in sys.pcs && sys.pcs[root] == pc
      ensures sys == Goto(old(sys), root, pc, e)
    {
      ExecThen(sys, [], [], l);
      run := [] + [] + [l];
      sys := Goto(sys, root, pc, e);
    }

    /** `get_shared_data` of the acquisition loop: others run, then one look at the lock. */
    method Look(c: Context, key: Key, seen: Option<RootId>, ghost s0: State, ghost run: seq<Label>)
      returns (value: Option<CalloutLockValue>, cas: Option<nat>, ghost run': seq<Label>)
      requires sys == Exec(s0, run) && root in sys.pcs && sys.pcs[root] == Looking(c, key, seen)
      modifies this`sys, this`schedule
      ensures sys == Exec(s0, run') && root in sys.pcs && sys.trace != []
      ensures (value, cas) == Get(sys.store, key) && StepsLeft(schedule) <= old(StepsLeft(schedule))
      ensures if cas.None? then sys.pcs[root] == SawNothing(c, key, seen)
              else if value.Some? then sys.pcs[root] == SawHeld(c, key, seen, value.value, cas.value)
              else if seen.Some? then sys.pcs[root] == Idle && sys.trace[|sys.trace| - 1] == CameFirst(c, key)
              else sys.pcs[root] == SawFree(c, key, cas.value)
    {
      ghost var ran := Interfere();
      ExecThen(s0, run, ran, Label(root, CalloutLock.Look));
      run' := run + ran + [Label(root, CalloutLock.Look)];
      value, cas := Get(sys.store, key).0, Get(sys.store, key).1;
      sys := DoLook(sys, root, sys.pcs[root]);
    }

    /** `set_shared_data` of the acquisition loop: others run, then one conditional write. If the write is
        refused although it would have been accepted at once, some other thread took a step. */
    method SetSharedData(key: Key, value: CalloutLockValue, cas: nat, ghost s0: State, ghost run: seq<Label>)
      returns (status: Status, ghost run': seq<Label>)
      requires sys == Exec(s0, run) && root in sys.pcs
      requires sys.pcs[root].SawNothing? || sys.pcs[root].SawHeld? || sys.pcs[root].SawFree?
      requires sys.pcs[root].key == key && Proposal(sys.pcs[root]) == (value, cas) && Accepts(sys.store, key, cas)
      modifies this`sys, this`schedule
      ensures sys == Exec(s0, run') && root in sys.pcs && sys.trace != []
      ensures status == CasMismatch ==> StepsLeft(schedule) < old(StepsLeft(schedule))
      ensures var pc := old(sys).pcs[root];
              if status == Ok then
                && key in sys.store.entries && sys.store.entries[key].value == Some(value)
                && if pc.SawHeld? then sys.pcs[root] == Registering(pc.ctx, key)
                   else && sys.pcs[root] == Idle && (pc.ctx, key) in sys.callouts
                        && sys.trace[|sys.trace| - 1] == Acquired(pc.ctx, key)
              else
                sys.pcs[root] == Looking(pc.ctx, key, if pc.SawHeld? then Some(pc.lock.ownedBy)
                                                      else if pc.SawFree? then None else pc.seenOwner)
    {
      ghost var ran := Interfere();
      ExecThen(s0, run, ran, Label(root, CasWrite));
      run' := run + ran + [Label(root, CasWrite)];
      status := Set(sys.store, key, Some(value), cas).1;
      sys := DoWrite(sys, root, sys.pcs[root]);
    }

    /** The insertion into this thread's `WAITING_CONTEXTS`. */
    method InsertWaitingContext(c: Context, key: Key, ghost s0: State, ghost run: seq<Label>)
      returns (ghost run': seq<Label>)
      requires sys == Exec(s0, run) && root in sys.pcs && sys.pcs[root] == Registering(c, key)
      modifies this`sys, this`schedule
      ensures sys == Exec(s0, run') && root in sys.pcs && sys.pcs[root] == Idle && sys.trace != []
      ensures c in sys.waiting && sys.trace[|sys.trace| - 1] == Registered(c)
    {
      ghost var ran := Interfere();
      ExecThen(s0, run, ran, Label(root, Register));
      run' := run + ran + [Label(root, Register)];
      sys := Goto(sys.(waiting := sys.waiting + {c}), root, Idle, Registered(c));
    }

    /** The context's outcome is the last event, and the thread is done. */
    predicate Ended(status: SetCalloutLockStatus, c: Context, key: Key)
      reads this`sys
    {
      && root in sys.pcs && sys.pcs[root] == Idle && sys.trace != []
      && sys.trace[|sys.trace| - 1] == (match status
                                        case LockAcquired => Acquired(c, key)
                                        case AddedToWaitlist => Registered(c)
                                        case ResponseCameFirst => CameFirst(c, key))
      && (status == LockAcquired ==> (c, key) in sys.callouts)
      && (status == AddedToWaitlist ==> c in sys.waiting)
    }

    /** One round of the acquisition loop; no outcome means CAS mismatch, and go round again. */
    method Attempt(c: Context, key: Key, seen: Option<RootId>, ghost s0: State, ghost run: seq<Label>)
      returns (outcome: Option<SetCalloutLockStatus>, seen': Option<RootId>, ghost run': seq<Label>)
      requires sys == Exec(s0, run) && c.root == root
      requires root in sys.pcs && sys.pcs[root] == Looking(c, key, seen)
      modifies this`sys, this`schedule
      ensures sys == Exec(s0, run')
      ensures outcome.Some? ==> Ended(outcome.value, c, key)
      ensures outcome.None? ==>
                && StepsLeft(schedule) < old(StepsLeft(schedule))
                && root in sys.pcs && sys.pcs[root] == Looking(c, key, seen')
    {
      seen' := seen;
      outcome := None;
      var value, cas;
      value, cas, run' := Look(c, key, seen, s0, run);
      var status;
      if cas.None? {
        status, run' := SetSharedData(key, CalloutLockValue(root, []), 1, s0, run');
        if status == Ok {
          outcome := Some(LockAcquired);
        }
      } else if value.Some? {
        var stored := value.value;
        var updated := stored.(waiters := stored.waiters + [Waiter(root, c.id)]);
        status, run' := SetSharedData(key, updated, cas.value, s0, run');
        if status == CasMismatch {
          seen' := Some(stored.ownedBy);
        } else {
          run' := InsertWaitingContext(c, key, s0, run');
          outcome := Some(AddedToWaitlist);
        }
      } else if seen.Some? {
        outcome := Some(ResponseCameFirst);
      } else {
        status, run' := SetSharedData(key, CalloutLockValue(root, []), cas.value, s0, run');
        if status == Ok {
          outcome := Some(LockAcquired);
        }
      }
    }

    /** `set_callout_lock`. It fails only if the thread has no queue; otherwise it ends, because every
        further round uses up a step of some other thread, and it ends in a state some run of the
        protocol reaches, with the outcome as that run's last event. */
    method SetCalloutLock(id: ContextId, key: Key)
      returns (r: Result<SetCalloutLockStatus, UniqueCalloutError>, ghost run: seq<Label>)
      requires root in sys.pcs ==> sys.pcs[root] == Idle && Context(root, id) !in sys.waiting
      modifies this`sys, this`schedule
      ensures sys == Exec(old(sys), run)
      ensures r.Failure? <==> root !in old(sys).pcs
      ensures r.Failure? ==> sys == old(sys)
      ensures r.Success? ==> Ended(r.value, Context(root, id), key)
    {
      if root !in sys.pcs {
        return Failure(MQResolveFail(root)), [];
      }
      var c := Context(root, id);
      ghost var s0 := sys;
      run := Begin(Label(root, Start(id, key)), Looking(c, key, None), Started(c, key));
      var seenLockOwner: Option<RootId> := None;
      while true
        invariant sys == Exec(s0, run) && root in sys.pcs
        invariant sys.pcs[root] == Looking(c, key, seenLockOwner)
        decreases StepsLeft(schedule)
      {
        var outcome;
        outcome, seenLockOwner, run := Attempt(c, key, seenLockOwner, s0, run);
        if outcome.Some? {
          return Success(outcome.value), run;
        }
      }
    }

    /** The look of the freeing thread. */
    method LookToFree(c: Context, key: Key, action: WaiterAction, ghost s0: State, ghost run: seq<Label>)
      returns (value: Option<CalloutLockValue>, ghost run': seq<Label>)
      requires sys == Exec(s0, run) && root in sys.pcs && sys.pcs[root] == FreeLooking(c, key, action)
      modifies this`sys, this`schedule
      ensures sys == Exec(s0, run') && run <= run' && root in sys.pcs && sys.trace != []
      ensures value == Get(sys.store, key).0
      ensures match value
              case Some(lock) => sys.pcs[root] == Notifying(c, key, action, lock.waiters, 0)
              case None => sys.pcs[root] == Idle && sys.trace[|sys.trace| - 1] == FoundNoLock(c, key)
    {
      ghost var ran := Interfere();
      ExecThen(s0, run, ran, Label(root, FreeLook));
      run' := run + ran + [Label(root, FreeLook)];
      value := Get(sys.store, key).0;
      sys := DoFreeLook(sys, root, sys.pcs[root]);
    }

    /** `enqueue_shared_queue` of the notification loop; the host may refuse. */
    method EnqueueSharedQueue(waiter: Waiter, message: WaiterAction, accepted: bool, ghost s0: State, ghost run: seq<Label>)
      returns (ghost run': seq<Label>)
      requires sys == Exec(s0, run) && root in sys.pcs && sys.pcs[root].Notifying?
      requires sys.pcs[root].done < |sys.pcs[root].waiters| && sys.pcs[root].waiters[sys.pcs[root].done] == waiter
      requires message == Retarget(sys.pcs[root].action, waiter.contextId)
      modifies this`sys, this`schedule
      ensures sys == Exec(s0, run') && run <= run' && root in sys.pcs
      ensures sys.pcs[root] == old(sys).pcs[root].(done := old(sys).pcs[root].done + 1)
    {
      ghost var ran := Interfere();
      ExecThen(s0, run, ran, Label(root, Notify(accepted)));
      run' := run + ran + [Label(root, Notify(accepted))];
      var q := QueueAt(sys, waiter.queueId);
      if accepted {
        sys := sys.(queues := sys.queues[waiter.queueId := q.(sent := q.sent + [message])]);
      }
      var pc := sys.pcs[root];
      sys := Goto(sys, root, pc.(done := pc.done + 1), Sent(pc.ctx, pc.key, waiter.queueId, message, accepted));
    }

    /** The unconditional erasing write. */
    method EraseLock(key: Key, ghost s0: State, ghost run: seq<Label>) returns (ghost run': seq<Label>)
      requires sys == Exec(s0, run) && root in sys.pcs && sys.pcs[root].Notifying? && sys.pcs[root].key == key
      requires sys.pcs[root].done == |sys.pcs[root].waiters|
      modifies this`sys, this`schedule
      ensures sys == Exec(s0, run') && run <= run' && root in sys.pcs && sys.pcs[root] == Idle && sys.trace != []
      ensures sys.trace[|sys.trace| - 1] == Freed(old(sys).pcs[root].ctx, key)
      ensures key in sys.store.entries && sys.store.entries[key].value == None
    {
      ghost var ran := Interfere();
      ExecThen(s0, run, ran, Label(root, FreeWrite));
      run' := run + ran + [Label(root, FreeWrite)];
      var ctx := sys.pcs[root].ctx;
      sys := Goto(sys.(store := Set(sys.store, key, None, OVERWRITE).0), root, Idle, Freed(ctx, key));
    }

    /** `free_callout_lock_and_notify_waiters`, called when the response to the callout has arrived;
        `accepted` says which enqueues the host takes. It reads the lock once, tells every waiter it
        found there, and only then erases the lock value. */
    method FreeCalloutLockAndNotifyWaiters(id: ContextId, key: Key, waiterAction: WaiterAction, accepted: nat -> bool)
      returns (ghost run: seq<Label>)
      requires root in sys.pcs && sys.pcs[root] == Idle && (Context(root, id), key) in sys.callouts
      modifies this`sys, this`schedule
      ensures sys == Exec(old(sys), run) && root in sys.pcs && sys.pcs[root] == Idle && sys.trace != []
      ensures run != [] && run[0] == Label(root, Answer(id, key, waiterAction)) && Enabled(old(sys), run[0])
      ensures var last := sys.trace[|sys.trace| - 1];
              || (last == Freed(Context(root, id), key)
                  && key in sys.store.entries && sys.store.entries[key].value == None)
              || last == FoundNoLock(Context(root, id), key)
    {
      var c := Context(root, id);
      ghost var s0 := sys;
      ghost var answer := Label(root, Answer(id, key, waiterAction));
      ExecThen(s0, [], [], answer);
      run := [] + [] + [answer];
      sys := Goto(sys.(callouts := sys.callouts - {(c, key)}), root, FreeLooking(c, key, waiterAction), Answered(c, key, Some(waiterAction)));

      var value;
      value, run := LookToFree(c, key, waiterAction, s0, run);
      match value {
        case Some(calloutLockValue) =>
          var waiters := calloutLockValue.waiters;
          for i := 0 to |waiters|
            invariant sys == Exec(s0, run) && [answer] <= run && root in sys.pcs
            invariant sys.pcs[root] == Notifying(c, key, waiterAction, waiters, i)
          {
            run := EnqueueSharedQueue(waiters[i], Retarget(waiterAction, waiters[i].contextId), accepted(i), s0, run);
          }
          run := EraseLock(key, s0, run);
        case None =>
      }
    }

    /** `on_queue_ready` of the filter's root context: takes one message and removes its context from the
        waiting table, whatever then becomes of the request. */
    method OnQueueReady() returns (r: Delivered)
      requires root in sys.pcs && sys.pcs[root] == Idle
      modifies this`sys
      ensures sys == Step(old(sys), Label(root, TakeMessage))
      ensures var q := old(QueueAt(sys, root));
              if q.taken >= |q.sent| then r == NoMessage
              else
                var action := q.sent[q.taken];
                var c := Context(root, action.contextId);
                if c in old(sys.waiting) then r == Resumed(action) && sys.waiting == old(sys.waiting) - {c}
                else r == NotFound(action.contextId) && sys.waiting == old(sys.waiting)
      ensures LockInvariant.Inv(old(sys)) ==> !r.NotFound?
    {
      ghost var s0 := sys;
      var q := QueueAt(sys, root);
      if q.taken >= |q.sent| {
        return NoMessage;
      }
      if LockInvariant.Inv(s0) {
        LockInvariant.MessageFindsWaiter(s0, root);
      }
      var action := q.sent[q.taken];
      var c := Context(root, action.contextId);
      sys := sys.(queues := sys.queues[root := q.(taken := q.taken + 1)]);
      if c !in sys.waiting {
        sys := Goto(sys, root, Idle, Stray(c, action));
        return NotFound(action.contextId);
      }
      sys := Goto(sys.(waiting := sys.waiting - {c}), root, Idle, Woken(c, action));
      return Resumed(action);
    }
  }
}
