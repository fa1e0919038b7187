/** What the callout lock is for, read off the traces of all runs. */
module LockTheorems {
  import opened Wrappers
  import opened SharedData
  import opened CalloutLock
  import opened LockInvariant

  /** Every trace of every interleaving of any number of threads obeys the protocol. */
  lemma RunsObeyProtocol(roots: set<RootId>, run: seq<Label>)
    ensures TraceOk(Exec(Init(roots), run).trace)
  {
    RunsKeepInvariant(roots, run);
  }

  lemma {:induction false} EventAt(tr: seq<Event>, n: nat)
    requires TraceOk(tr) && n < |tr|
    ensures TraceOk(tr[..n]) && EventOk(tr[..n], tr[n])
    decreases |tr|
  {
    if n < |tr| - 1 {
      EventAt(tr[..|tr| - 1], n);
      assert tr[..|tr| - 1][..n] == tr[..n];
    }
  }

  lemma NextEvent(tr: seq<Event>, n: nat)
    requires n < |tr|
    ensures forall k :: HistoryOf(tr[..n + 1], k) == LockNote(HistoryOf(tr[..n], k), tr[n], k)
    ensures forall r :: CallOf(tr[..n + 1], r) == CallNote(tr[..n], CallOf(tr[..n], r), tr[n], r)
  {
    assert tr[..n + 1] == tr[..n] + [tr[n]];
    Extend(tr[..n], tr[n]);
  }

  // ---------------------------------------------------------------------------------------------
  // Mutual exclusion.
  // ---------------------------------------------------------------------------------------------

  /** A holder stops being the holder only by its own freeing write. */
  lemma {:induction false} HolderLost(tr: seq<Event>, i: nat, j: nat, key: Key, c: Context) returns (m: nat)
    requires TraceOk(tr) && i <= j <= |tr|
    requires HistoryOf(tr[..i], key).holder == Some(c) && HistoryOf(tr[..j], key).holder != Some(c)
    ensures i <= m < j && tr[m] == Freed(c, key)
    decreases j
  {
    NextEvent(tr, j - 1);
    EventAt(tr, j - 1);
    if HistoryOf(tr[..j - 1], key).holder == Some(c) {
      m := j - 1;
    } else {
      m := HolderLost(tr, i, j - 1, key, c);
    }
  }

  /** Between two acquisitions of one lock, through either path, lies the first holder's freeing write. */
  lemma MutualExclusion(tr: seq<Event>, i: nat, j: nat) returns (m: nat)
    requires TraceOk(tr) && i < j < |tr| && tr[i].Acquired? && tr[j].Acquired? && tr[i].key == tr[j].key
    ensures i < m < j && tr[m] == Freed(tr[i].ctx, tr[i].key)
  {
    NextEvent(tr, i);
    EventAt(tr, j);
    m := HolderLost(tr, i + 1, j, tr[i].key, tr[i].ctx);
  }

  /** The context was given the lock, and has not done its freeing write (nor given up on it). */
  predicate Holds(s: State, c: Context, key: Key) {
    || (c, key) in s.callouts
    || (c.root in s.pcs && (s.pcs[c.root].FreeLooking? || s.pcs[c.root].Notifying?)
        && s.pcs[c.root].ctx == c && s.pcs[c.root].key == key)
  }

  /** The same at every moment: one holder per key, and the store names its thread. */
  lemma OneHolder(roots: set<RootId>, run: seq<Label>, c: Context, d: Context, key: Key)
    requires var s := Exec(Init(roots), run); Holds(s, c, key) && Holds(s, d, key)
    ensures var s := Exec(Init(roots), run);
            c == d && Held(s, key) && s.store.entries[key].value.value.ownedBy == c.root
  {
    var s := Exec(Init(roots), run);
    RunsKeepInvariant(roots, run);
    assert LockInv(s, key) && CalloutInv(s, c, key) && CalloutInv(s, d, key);
    assert c.root in s.pcs ==> ThreadInv(s, c.root);
    assert d.root in s.pcs ==> ThreadInv(s, d.root);
  }

  // ---------------------------------------------------------------------------------------------
  // The waiter list, and who is told.
  // ---------------------------------------------------------------------------------------------

  /** The waiters appended to one lock in a stretch of trace, in commit order. */
  function AppendedIn(tr: seq<Event>, key: Key): seq<Waiter> {
    if tr == [] then []
    else
      var e := tr[|tr| - 1];
      AppendedIn(tr[..|tr| - 1], key) + (if e.Appended? && e.key == key then [e.waiter] else [])
  }

  /** The messages the freeing of one lock put out in a stretch of trace, in order. */
  function SentIn(tr: seq<Event>, key: Key): seq<Delivery> {
    if tr == [] then []
    else
      var e := tr[|tr| - 1];
      SentIn(tr[..|tr| - 1], key) + (if e.Sent? && e.key == key then [Delivery(e.queueId, e.action)] else [])
  }

  predicate Undisturbed(tr: seq<Event>, key: Key) {
    forall n :: 0 <= n < |tr| ==> !((tr[n].Acquired? || tr[n].Freed?) && tr[n].key == key)
  }

  /** `a` is the acquisition by which `c` holds the lock at the end of the trace. */
  predicate HeldSince(tr: seq<Event>, key: Key, c: Context, a: nat) {
    a < |tr| && tr[a] == Acquired(c, key) && Undisturbed(tr[a + 1..], key)
  }

  /** Collecting over a suffix of the trace, one event further. */
  lemma Suffix(tr: seq<Event>, e: Event, a: nat, key: Key)
    requires a <= |tr|
    ensures (tr + [e])[a..] == tr[a..] + [e]
    ensures AppendedIn((tr + [e])[a..], key)
         == AppendedIn(tr[a..], key) + (if e.Appended? && e.key == key then [e.waiter] else [])
    ensures SentIn((tr + [e])[a..], key)
         == SentIn(tr[a..], key) + (if e.Sent? && e.key == key then [Delivery(e.queueId, e.action)] else [])
  {
    assert (tr + [e])[a..] == tr[a..] + [e];
    assert (tr[a..] + [e])[..|tr[a..] + [e]| - 1] == tr[a..];
  }

  lemma UndisturbedStep(tr: seq<Event>, e: Event, key: Key)
    requires Undisturbed(tr, key) && !((e.Acquired? || e.Freed?) && e.key == key)
    ensures Undisturbed(tr + [e], key)
  {
  }

  lemma HeldSinceStep(tr: seq<Event>, e: Event, key: Key, c: Context, a: nat)
    requires HeldSince(tr, key, c, a) && !((e.Acquired? || e.Freed?) && e.key == key)
    ensures HeldSince(tr + [e], key, c, a)
  {
    UndisturbedStep(tr[a + 1..], e, key);
    assert (tr + [e])[a + 1..] == tr[a + 1..] + [e];
  }

  lemma AppendsStep(h: LockHistory, e: Event, key: Key)
    requires !((e.Acquired? || e.Freed?) && e.key == key)
    ensures LockNote(h, e, key).holder == h.holder
    ensures LockNote(h, e, key).appends == h.appends + (if e.Appended? && e.key == key then [e.waiter] else [])
  {
  }

  lemma {:induction false} Acquisition(tr: seq<Event>, key: Key) returns (a: nat)
    requires HistoryOf(tr, key).holder.Some?
    ensures HeldSince(tr, key, HistoryOf(tr, key).holder.value, a)
    ensures HistoryOf(tr, key).appends == AppendedIn(tr[a + 1..], key)
    decreases |tr|
  {
    var n := |tr| - 1;
    assert tr == tr[..n] + [tr[n]];
    if tr[n].Acquired? && tr[n].key == key {
      a := n;
    } else {
      a := Acquisition(tr[..n], key);
      AppendsStep(HistoryOf(tr[..n], key), tr[n], key);
      HeldSinceStep(tr[..n], tr[n], key, HistoryOf(tr, key).holder.value, a);
      Suffix(tr[..n], tr[n], a + 1, key);
    }
  }

  /** At every moment of every run, a held lock's stored value is its owner's thread and exactly the
      contexts whose append committed since the acquisition, in commit order: none lost, none twice. */
  lemma StoredWaitersAreTheAppends(roots: set<RootId>, run: seq<Label>, key: Key) returns (a: nat)
    requires Held(Exec(Init(roots), run), key)
    ensures var s := Exec(Init(roots), run);
            && HistoryOf(s.trace, key).holder.Some?
            && var c := HistoryOf(s.trace, key).holder.value;
               && HeldSince(s.trace, key, c, a)
               && s.store.entries[key].value == Some(CalloutLockValue(c.root, AppendedIn(s.trace[a + 1..], key)))
  {
    var s := Exec(Init(roots), run);
    RunsKeepInvariant(roots, run);
    assert LockInv(s, key);
    a := Acquisition(s.trace, key);
  }

  lemma DeliveriesGrow(waiters: seq<Waiter>, action: WaiterAction, n: nat)
    requires n < |waiters|
    ensures Deliveries(waiters[..n + 1], action)
         == Deliveries(waiters[..n], action) + [Delivery(waiters[n].queueId, Retarget(action, waiters[n].contextId))]
  {
  }

  /** While a lock is being freed: the read at `r` took all appends so far, and the messages out since are
      for the first of them, in order. */
  predicate ReadAt(tr: seq<Event>, key: Key, r: nat, h: LockHistory, found: LockHistory) {
    && h.holder.Some? && h.freeView.Some? && r < |tr|
    && tr[r] == FreeRead(h.holder.value, key, h.freeView.value.action)
    && found.holder == h.holder && Undisturbed(tr[r..], key)
    && |h.sends| <= h.freeView.value.count <= |h.appends|
    && found.appends == h.appends[..h.freeView.value.count]
    && h.sends == SentIn(tr[r + 1..], key) == Deliveries(h.appends[..|h.sends|], h.freeView.value.action)
  }

  lemma ReadingStep(tr: seq<Event>, e: Event, key: Key, r: nat, h: LockHistory, found: LockHistory)
    requires ReadAt(tr, key, r, h, found) && !((e.Acquired? || e.Freed? || e.FreeRead?) && e.key == key)
    requires e.Sent? && e.key == key ==>
               && |h.sends| < h.freeView.value.count
               && Delivery(e.queueId, e.action)
                  == Deliveries(h.appends[|h.sends|..|h.sends| + 1], h.freeView.value.action)[0]
    ensures ReadAt(tr + [e], key, r, LockNote(h, e, key), found)
  {
    Suffix(tr, e, r + 1, key);
    assert (tr + [e])[r..] == tr[r..] + [e];
    UndisturbedStep(tr[r..], e, key);
    var v := h.freeView.value;
    if e.Sent? && e.key == key {
      DeliveriesGrow(h.appends, v.action, |h.sends|);
    } else if e.Appended? && e.key == key {
      assert (h.appends + [e.waiter])[..v.count] == h.appends[..v.count];
      assert (h.appends + [e.waiter])[..|h.sends|] == h.appends[..|h.sends|];
    }
  }

  lemma {:induction false} Reading(tr: seq<Event>, key: Key) returns (r: nat)
    requires TraceOk(tr) && HistoryOf(tr, key).holder.Some? && HistoryOf(tr, key).freeView.Some?
    ensures r < |tr| && ReadAt(tr, key, r, HistoryOf(tr, key), HistoryOf(tr[..r], key))
    decreases |tr|
  {
    var n := |tr| - 1;
    assert tr == tr[..n] + [tr[n]];
    EventAt(tr, n);
    if tr[n].FreeRead? && tr[n].key == key {
      r := n;
      assert tr[r..] == [tr[n]];
    } else {
      r := Reading(tr[..n], key);
      assert tr[..n][..r] == tr[..r];
      ReadingStep(tr[..n], tr[n], key, r, HistoryOf(tr[..n], key), HistoryOf(tr[..r], key));
    }
  }

  /** No lost and no spurious wake-up up to the freeing read. When `c` frees a lock, the messages it put
      out between its freeing read `r` and its freeing write `j` are exactly one for each append that
      committed between its acquisition `a` and that read, in registration order, each on the queue and
      with the id in that append, all of the one kind the holder chose. */
  lemma FreeingTellsEveryAppend(tr: seq<Event>, j: nat) returns (a: nat, r: nat)
    requires TraceOk(tr) && j < |tr| && tr[j].Freed?
    ensures var c := tr[j].ctx;
            var key := tr[j].key;
            && a < r < j && tr[a] == Acquired(c, key) && Undisturbed(tr[a + 1..j], key)
            && tr[r].FreeRead? && tr[r].ctx == c && tr[r].key == key
            && SentIn(tr[r + 1..j], key) == Deliveries(AppendedIn(tr[a + 1..r], key), tr[r].action)
  {
    var key := tr[j].key;
    var before := tr[..j];
    EventAt(tr, j);
    r := Reading(before, key);
    EventAt(before, r);
    a := Acquisition(before[..r], key);
    var h := HistoryOf(before, key);
    assert before[..r][a + 1..] == tr[a + 1..r];
    assert before[r + 1..] == tr[r + 1..j];
    assert before[r..] == tr[r..j];
    assert tr[a + 1..j] == tr[a + 1..r] + tr[r..j];
    assert h.appends[..|h.sends|] == AppendedIn(tr[a + 1..r], key);
  }

  /** A message tells its waiter, on that waiter's queue and by its id, what the holder decided. */
  predicate Fits(d: Delivery, w: Waiter, decided: WaiterAction) {
    d.queueId == w.queueId && d.action.contextId == w.contextId
    && (d.action.HandleCacheHit? <==> decided.HandleCacheHit?)
  }

  /** The thread's last answered callout in the trace. */
  predicate LastAnswer(tr: seq<Event>, n: nat, root: RootId) {
    n < |tr| && tr[n].Answered? && tr[n].ctx.root == root
    && forall x :: n < x < |tr| && tr[x].Answered? ==> tr[x].ctx.root != root
  }

  lemma {:induction false} AnswerGiven(tr: seq<Event>, root: RootId) returns (n: nat)
    requires CallOf(tr, root).answer.Some?
    ensures LastAnswer(tr, n, root)
    ensures CallOf(tr, root).answer.value == CallAnswer(tr[n].ctx, tr[n].key, tr[n].decided)
  {
    var last := |tr| - 1;
    if tr[last].Answered? && tr[last].ctx.root == root {
      n := last;
    } else {
      n := AnswerGiven(tr[..last], root);
      assert forall x :: 0 <= x < last ==> tr[..last][x] == tr[x];
    }
  }

  /** Message by message: the holder that frees a lock told every waiter, in registration order, what it had
      decided when its callout was answered: to go on with the cached application, or to fail. */
  lemma WaitersAreToldTheDecision(tr: seq<Event>, j: nat) returns (a: nat, n: nat, r: nat)
    requires TraceOk(tr) && j < |tr| && tr[j].Freed?
    ensures var c := tr[j].ctx;
            var key := tr[j].key;
            && a < r < j && tr[a] == Acquired(c, key) && tr[r].FreeRead? && tr[r].ctx == c && tr[r].key == key
            && LastAnswer(tr[..r], n, c.root) && tr[n].ctx == c && tr[n].key == key && tr[n].decided.Some?
            && var waiters, sent := AppendedIn(tr[a + 1..r], key), SentIn(tr[r + 1..j], key);
               && |sent| == |waiters|
               && forall i :: 0 <= i < |sent| ==> Fits(sent[i], waiters[i], tr[n].decided.value)
  {
    a, r := FreeingTellsEveryAppend(tr, j);
    EventAt(tr, r);
    n := AnswerGiven(tr[..r], tr[j].ctx.root);
    var waiters := AppendedIn(tr[a + 1..r], tr[j].key);
    assert |Deliveries(waiters, tr[r].action)| == |waiters|;
  }

  /** An appended waiter is the appending context itself: its own thread's queue, its own id. */
  lemma AppendsNameTheAppender(tr: seq<Event>, j: nat)
    requires TraceOk(tr) && j < |tr| && tr[j].Appended?
    ensures tr[j].waiter == Waiter(tr[j].ctx.root, tr[j].ctx.id)
  {
    EventAt(tr, j);
  }

  /** The holder always finds its lock, and every message finds its context in the table. */
  lemma NeverStray(tr: seq<Event>, j: nat)
    requires TraceOk(tr) && j < |tr|
    ensures !tr[j].FoundNoLock? && !tr[j].Stray?
  {
    EventAt(tr, j);
  }

  /** Where the single wake-up of a waiting context is. Either it is still listed in a held lock and
      not yet told; or it is one undelivered message with its id on its own queue; or it was missed. */
  lemma WaitersAreAccountedFor(roots: set<RootId>, run: seq<Label>, c: Context)
    requires c in Exec(Init(roots), run).waiting
    ensures var s := Exec(Init(roots), run);
            match TokenOf(s.trace, WaiterOf(c))
            case InList(key, i) =>
              && Held(s, key) && i < |s.store.entries[key].value.value.waiters|
              && s.store.entries[key].value.value.waiters[i] == WaiterOf(c)
              && |HistoryOf(s.trace, key).sends| <= i
            case InQueue(i) =>
              var q := QueueAt(s, c.root);
              && q.taken <= i < |q.sent| && q.sent[i].contextId == c.id
              && (forall n :: q.taken <= n < |q.sent| && n != i ==> q.sent[n].contextId != c.id)
            case Missed(_) => true
            case NotWaiting => false
  {
    var s := Exec(Init(roots), run);
    var w := WaiterOf(c);
    RunsKeepInvariant(roots, run);
    assert TokenInv(s, w) && MessageInv(s, c.root);
    var t := TokenOf(s.trace, w);
    if t.InList? {
      assert LockInv(s, t.key);
    } else if t.InQueue? {
      forall n | QueueAt(s, c.root).taken <= n < |QueueAt(s, c.root).sent| && n != t.index
        ensures QueueAt(s, c.root).sent[n].contextId != c.id
      {
        assert Message(s, c.root, n);
      }
    }
  }

  lemma FreeWriteMisses(s: State, root: RootId, w: Waiter)
    requires Freer(s, root) && EntryInv(s, s.pcs[root].key) && TokenInv(s, w)
    ensures var pc := s.pcs[root];
            var t := DoFreeWrite(s, root, pc);
            && Held(s, pc.key)
            && var listed := s.store.entries[pc.key].value.value.waiters;
               && |pc.waiters| <= |listed| && pc.waiters == listed[..|pc.waiters|]
               && (TokenOf(t.trace, w) != TokenOf(s.trace, w) <==> w in listed[|pc.waiters|..])
               && (w in listed[|pc.waiters|..] ==> TokenOf(t.trace, w) == Missed(true))
  {
    var pc := s.pcs[root];
    Extend(s.trace, Freed(pc.ctx, pc.key));
    var late := s.store.entries[pc.key].value.value.waiters[|pc.waiters|..];
    if w in late {
      var i :| 0 <= i < |late| && late[i] == w;
      assert ListEntry(s, pc.key, |pc.waiters| + i);
    }
    if TokenOf(s.trace, w).InList? && TokenOf(s.trace, w).key == pc.key {
      assert late[TokenOf(s.trace, w).index - |pc.waiters|] == w;
    }
  }

  /** What the freeing write does lose: exactly the waiters listed after those the freeing read saw. */
  lemma FreeingMissesOnlyLateAppends(roots: set<RootId>, run: seq<Label>, root: RootId, w: Waiter)
    requires Enabled(Exec(Init(roots), run), Label(root, FreeWrite))
    ensures var s := Exec(Init(roots), run);
            var pc := s.pcs[root];
            var t := Do(s, Label(root, FreeWrite));
            && Held(s, pc.key)
            && var listed := s.store.entries[pc.key].value.value.waiters;
               && |pc.waiters| <= |listed| && pc.waiters == listed[..|pc.waiters|]
               && (TokenOf(t.trace, w) != TokenOf(s.trace, w) <==> w in listed[|pc.waiters|..])
               && (w in listed[|pc.waiters|..] ==> TokenOf(t.trace, w) == Missed(true))
  {
    var s := Exec(Init(roots), run);
    RunsKeepInvariant(roots, run);
    assert ThreadInv(s, root) && LockInv(s, s.pcs[root].key) && EntryInv(s, s.pcs[root].key) && TokenInv(s, w);
    FreeWriteMisses(s, root, w);
  }

  lemma ExecOne(s: State, l: Label, rest: seq<Label>)
    ensures Exec(s, [l] + rest) == Exec(Step(s, l), rest)
  {
    assert ([l] + rest)[1..] == rest;
  }

  const KEY: Key := "CL_svc_app"

  /** The holder has read the empty waiter list, and not yet written. */
  predicate ReadEmptyList(s: State) {
    && s.pcs == map[1 := Notifying(Context(1, 10), KEY, HandleFailure(0), [], 0), 2 := Idle]
    && s.store == Store(map[KEY := Entry(Some(CalloutLockValue(1, [])), 2)], 3)
    && s.waiting == {} && s.callouts == {} && s.queues == map[]
  }

  function FiveSteps(s: State, a: Label, b: Label, c: Label, d: Label, e: Label): State {
    Step(Step(Step(Step(Step(s, a), b), c), d), e)
  }

  lemma ExecFive(s: State, a: Label, b: Label, c: Label, d: Label, e: Label)
    ensures Exec(s, [a, b, c, d, e]) == FiveSteps(s, a, b, c, d, e)
  {
    var s1 := Step(s, a);
    var s2 := Step(s1, b);
    var s3 := Step(s2, c);
    assert [a, b, c, d, e] == [a] + [b, c, d, e];
    ExecOne(s, a, [b, c, d, e]);
    ExecOne(s1, b, [c, d, e]);
    ExecOne(s2, c, [d, e]);
    ExecOne(s3, d, [e]);
    ExecOne(Step(s3, d), e, []);
  }

  lemma HolderReads()
    ensures ReadEmptyList(FiveSteps(Init({1, 2}), Label(1, Start(10, KEY)), Label(1, Look), Label(1, CasWrite),
                                    Label(1, Answer(10, KEY, HandleFailure(0))), Label(1, FreeLook)))
  {
    var c := Context(1, 10);
    var s0 := Init({1, 2});
    var s1 := Step(s0, Label(1, Start(10, KEY)));
    assert s1 == Goto(s0, 1, Looking(c, KEY, None), Started(c, KEY));
    var s2 := Step(s1, Label(1, Look));
    assert s2 == Goto(s1, 1, SawNothing(c, KEY, None), Looked(c, KEY, Nothing));
    var s3 := Step(s2, Label(1, CasWrite));
    assert s3.pcs == s2.pcs[1 := Idle] && s3.callouts == {(c, KEY)};
    var s4 := Step(s3, Label(1, Answer(10, KEY, HandleFailure(0))));
    assert s4.pcs == s3.pcs[1 := FreeLooking(c, KEY, HandleFailure(0))];
  }

  lemma WaiterIsMissed(s: State)
    requires ReadEmptyList(s)
    ensures var t := FiveSteps(s, Label(2, Start(20, KEY)), Label(2, Look), Label(2, CasWrite), Label(2, Register),
                               Label(1, FreeWrite));
            && Context(2, 20) in t.waiting && TokenOf(t.trace, Waiter(2, 20)) == Missed(true)
            && !Held(t, KEY) && t.callouts == {} && t.queues == map[]
            && (forall r :: r in t.pcs ==> t.pcs[r] == Idle)
  {
    var c, w, h := Context(2, 20), Waiter(2, 20), Context(1, 10);
    var s1 := Step(s, Label(2, Start(20, KEY)));
    assert s1 == Goto(s, 2, Looking(c, KEY, None), Started(c, KEY));
    var s2 := Step(s1, Label(2, Look));
    assert s2 == Goto(s1, 2, SawHeld(c, KEY, None, CalloutLockValue(1, []), 2), Looked(c, KEY, HeldLock));
    var s3 := Step(s2, Label(2, CasWrite));
    assert s3 == Goto(s2.(store := s3.store), 2, Registering(c, KEY), Appended(c, KEY, w));
    var s4 := Step(s3, Label(2, Register));
    assert s4 == Goto(s3.(waiting := {c}), 2, Idle, Registered(c));
    var s5 := Step(s4, Label(1, FreeWrite));
    assert s5 == Goto(s4.(store := s5.store), 1, Idle, Freed(h, KEY));
    LateToken(s2.trace, c, h);
  }

  lemma LateToken(tr: seq<Event>, c: Context, h: Context)
    ensures TokenOf(tr + [Appended(c, KEY, WaiterOf(c))] + [Registered(c)] + [Freed(h, KEY)], WaiterOf(c)) == Missed(true)
  {
    var tr1 := tr + [Appended(c, KEY, WaiterOf(c))];
    Extend(tr, Appended(c, KEY, WaiterOf(c)));
    Extend(tr1, Registered(c));
    Extend(tr1 + [Registered(c)], Freed(h, KEY));
  }

  /** And it does happen: one context's append falls between the freeing read and the freeing write of
      the holder. In the end nobody holds the lock, no message is out and no callout is running, and
      the context waits with nothing left that would wake it. */
  lemma LateAppendIsLost() returns (run: seq<Label>, c: Context)
    ensures var s := Exec(Init({1, 2}), run);
            && c in s.waiting && TokenOf(s.trace, WaiterOf(c)) == Missed(true)
            && !Held(s, KEY) && s.callouts == {} && s.queues == map[]
            && (forall r :: r in s.pcs ==> s.pcs[r] == Idle)
  {
    var a := [Label(1, Start(10, KEY)), Label(1, Look), Label(1, CasWrite),
              Label(1, Answer(10, KEY, HandleFailure(0))), Label(1, FreeLook)];
    var b := [Label(2, Start(20, KEY)), Label(2, Look), Label(2, CasWrite), Label(2, Register), Label(1, FreeWrite)];
    run, c := a + b, Context(2, 20);
    HolderReads();
    ExecFive(Init({1, 2}), a[0], a[1], a[2], a[3], a[4]);
    WaiterIsMissed(Exec(Init({1, 2}), a));
    ExecFive(Exec(Init({1, 2}), a), b[0], b[1], b[2], b[3], b[4]);
    ExecConcat(Init({1, 2}), a, b);
  }

  // ---------------------------------------------------------------------------------------------
  // Retries, and the answer that came first.
  // ---------------------------------------------------------------------------------------------

  predicate Writes(e: Event, key: Key) {
    (e.Acquired? || e.Appended? || e.Freed?) && e.key == key
  }

  /** A committed write of this lock by another thread. */
  predicate ForeignWrite(e: Event, key: Key, root: RootId) {
    Writes(e, key) && e.ctx.root != root
  }

  function ForeignWritesIn(tr: seq<Event>, key: Key, root: RootId): nat {
    if tr == [] then 0
    else ForeignWritesIn(tr[..|tr| - 1], key, root) + (if ForeignWrite(tr[|tr| - 1], key, root) then 1 else 0)
  }

  function RetriesIn(tr: seq<Event>, root: RootId): nat {
    if tr == [] then 0
    else
      var e := tr[|tr| - 1];
      RetriesIn(tr[..|tr| - 1], root) + (if e.Retried? && e.ctx.root == root then 1 else 0)
  }

  /** Nothing in this stretch begins a new call on the thread. */
  predicate NoNewCall(tr: seq<Event>, root: RootId) {
    forall n :: 0 <= n < |tr| ==> !(tr[n].Started? && tr[n].ctx.root == root)
  }

  predicate NoNewLook(tr: seq<Event>, root: RootId) {
    forall n :: 0 <= n < |tr| ==> !(tr[n].Looked? && tr[n].ctx.root == root)
  }

  lemma CountSuffix(tr: seq<Event>, e: Event, a: nat, key: Key, root: RootId)
    requires a <= |tr|
    ensures (tr + [e])[a..] == tr[a..] + [e]
    ensures RetriesIn((tr + [e])[a..], root)
         == RetriesIn(tr[a..], root) + (if e.Retried? && e.ctx.root == root then 1 else 0)
    ensures ForeignWritesIn((tr + [e])[a..], key, root)
         == ForeignWritesIn(tr[a..], key, root) + (if ForeignWrite(e, key, root) then 1 else 0)
  {
    assert (tr + [e])[a..] == tr[a..] + [e];
    assert (tr[a..] + [e])[..|tr[a..] + [e]| - 1] == tr[a..];
  }

  lemma WritesCount(h: LockHistory, e: Event, key: Key)
    ensures LockNote(h, e, key).writes == h.writes + (if Writes(e, key) then 1 else 0)
  {
  }

  /** The counters of a call, counted in the trace: where it began, its retries since, and the writes of
      its lock since, all of them by other threads. */
  predicate CountedSince(tr: seq<Event>, b: nat, call: CallHistory, root: RootId, writes: nat) {
    && call.ctx.Some? && call.ctx.value.root == root
    && b < |tr| && tr[b] == Started(call.ctx.value, call.key) && NoNewCall(tr[b + 1..], root)
    && call.retries == RetriesIn(tr[b + 1..], root)
    && writes - call.base == ForeignWritesIn(tr[b + 1..], call.key, root)
  }

  lemma CallNoteCounts(before: seq<Event>, call: CallHistory, e: Event, root: RootId)
    requires !(e.Started? && e.ctx.root == root)
    ensures var next := CallNote(before, call, e, root);
            && next.ctx == call.ctx && next.key == call.key && next.base == call.base
            && next.retries == call.retries + (if e.Retried? && e.ctx.root == root then 1 else 0)
  {
  }

  lemma CountStep(tr: seq<Event>, e: Event, b: nat, call: CallHistory, next: CallHistory, root: RootId, h: LockHistory)
    requires CountedSince(tr, b, call, root, h.writes) && !(e.Started? && e.ctx.root == root)
    requires Writes(e, call.key) ==> e.ctx.root != root
    requires next.ctx == call.ctx && next.key == call.key && next.base == call.base
    requires next.retries == call.retries + (if e.Retried? && e.ctx.root == root then 1 else 0)
    ensures CountedSince(tr + [e], b, next, root, h.writes + (if Writes(e, call.key) then 1 else 0))
  {
    CountSuffix(tr, e, b + 1, call.key, root);
  }

  lemma {:induction false} CallCounts(tr: seq<Event>, root: RootId) returns (b: nat)
    requires CallOf(tr, root).ctx.Some? && !CallOf(tr, root).wrote
    ensures CountedSince(tr, b, CallOf(tr, root), root, HistoryOf(tr, CallOf(tr, root).key).writes)
    decreases |tr|
  {
    var n := |tr| - 1;
    assert tr == tr[..n] + [tr[n]];
    if tr[n].Started? && tr[n].ctx.root == root {
      b := n;
    } else {
      b := CallCounts(tr[..n], root);
      var h := HistoryOf(tr[..n], CallOf(tr, root).key);
      CallNoteCounts(tr[..n], CallOf(tr[..n], root), tr[n], root);
      CountStep(tr[..n], tr[n], b, CallOf(tr[..n], root), CallOf(tr, root), root, h);
      WritesCount(h, tr[n], CallOf(tr, root).key);
    }
  }

  /** The look `i` that a call is acting on: nothing but foreign writes and other keys since. */
  predicate ActsOn(tr: seq<Event>, i: nat, call: CallHistory, root: RootId, writes: nat) {
    && call.ctx.Some? && call.lookedAt.Some? && call.ctx.value.root == root
    && i < |tr| && tr[i].Looked? && tr[i].ctx == call.ctx.value && tr[i].key == call.key
    && NoNewCall(tr[i..], root) && NoNewLook(tr[i + 1..], root)
    && writes - call.lookedAt.value == ForeignWritesIn(tr[i..], call.key, root)
  }

  lemma ActsOnStep(tr: seq<Event>, e: Event, i: nat, call: CallHistory, root: RootId, h: LockHistory)
    requires ActsOn(tr, i, call, root, h.writes) && !((e.Started? || e.Looked?) && e.ctx.root == root)
    requires Writes(e, call.key) ==> e.ctx.root != root
    ensures ActsOn(tr + [e], i, call, root, LockNote(h, e, call.key).writes)
  {
    CountSuffix(tr, e, i, call.key, root);
    CountSuffix(tr, e, i + 1, call.key, root);
    WritesCount(h, e, call.key);
  }

  lemma {:induction false} LastLook(tr: seq<Event>, root: RootId) returns (i: nat)
    requires TraceOk(tr) && CallOf(tr, root).lookedAt.Some? && CallOf(tr, root).ctx.Some? && !CallOf(tr, root).wrote
    ensures ActsOn(tr, i, CallOf(tr, root), root, HistoryOf(tr, CallOf(tr, root).key).writes)
    decreases |tr|
  {
    var n := |tr| - 1;
    assert tr == tr[..n] + [tr[n]];
    EventAt(tr, n);
    if tr[n].Looked? && tr[n].ctx.root == root {
      i := n;
      assert tr[i..] == [tr[n]];
    } else {
      i := LastLook(tr[..n], root);
      ActsOnStep(tr[..n], tr[n], i, CallOf(tr, root), root, HistoryOf(tr[..n], CallOf(tr, root).key));
    }
  }

  lemma {:induction false} SomeForeignWrite(tr: seq<Event>, key: Key, root: RootId) returns (m: nat)
    requires ForeignWritesIn(tr, key, root) > 0
    ensures m < |tr| && ForeignWrite(tr[m], key, root)
    decreases |tr|
  {
    m := |tr| - 1;
    if !ForeignWrite(tr[m], key, root) {
      m := SomeForeignWrite(tr[..m], key, root);
    }
  }

  /** Going round again is always somebody else's doing: between the look `i` that the refused write
      relied on and the refusal at `j`, another thread committed a write of the same lock. */
  lemma RetryHasForeignCause(tr: seq<Event>, j: nat) returns (i: nat, m: nat)
    requires TraceOk(tr) && j < |tr| && tr[j].Retried?
    ensures var c := tr[j].ctx;
            && i < m < j && tr[i].Looked? && tr[i].ctx == c && tr[i].key == tr[j].key
            && NoNewLook(tr[i + 1..j], c.root) && ForeignWrite(tr[m], tr[j].key, c.root)
  {
    EventAt(tr, j);
    i := LastLook(tr[..j], tr[j].ctx.root);
    m := SomeForeignWrite(tr[..j][i..], tr[j].key, tr[j].ctx.root);
    m := i + m;
    assert tr[..j][i + 1..] == tr[i + 1..j];
  }

  /** Lock-freedom: the retries of a call, this one included, are at most the foreign writes of its lock
      since it began; so it goes round at most once more than other threads wrote. */
  lemma RetriesAreBounded(tr: seq<Event>, j: nat) returns (b: nat)
    requires TraceOk(tr) && j < |tr| && tr[j].Retried?
    ensures var c := tr[j].ctx;
            && b < j && tr[b] == Started(c, tr[j].key) && NoNewCall(tr[b + 1..j], c.root)
            && RetriesIn(tr[b + 1..j + 1], c.root) <= ForeignWritesIn(tr[b + 1..j], tr[j].key, c.root)
  {
    EventAt(tr, j);
    b := CallCounts(tr[..j], tr[j].ctx.root);
    assert tr[..j][b + 1..] == tr[b + 1..j];
    assert tr[b + 1..j + 1] == tr[b + 1..j] + [tr[j]];
    assert tr[b + 1..j + 1][..|tr[b + 1..j + 1]| - 1] == tr[b + 1..j];
  }

  lemma {:induction false} HeldLook(tr: seq<Event>, root: RootId) returns (i: nat)
    requires TraceOk(tr) && CallOf(tr, root).heldAt.Some? && CallOf(tr, root).ctx.Some?
    ensures var call := CallOf(tr, root);
            && i < |tr| && tr[i] == Looked(call.ctx.value, call.key, HeldLock) && call.ctx.value.root == root
            && NoNewCall(tr[i..], root) && HistoryOf(tr[..i], call.key).frees == call.heldAt.value
    decreases |tr|
  {
    var n := |tr| - 1;
    var e := tr[n];
    if e.Looked? && e.ctx.root == root && e.sight == HeldLock {
      i := n;
      assert tr[i..] == [e];
    } else {
      i := HeldLook(tr[..n], root);
      assert tr[i..] == tr[..n][i..] + [e];
      assert tr[..n][..i] == tr[..i];
    }
  }

  lemma {:induction false} SomeFree(tr: seq<Event>, i: nat, j: nat, key: Key) returns (m: nat)
    requires i <= j <= |tr| && HistoryOf(tr[..i], key).frees < HistoryOf(tr[..j], key).frees
    ensures i <= m < j && tr[m].Freed? && tr[m].key == key
    decreases j
  {
    NextEvent(tr, j - 1);
    m := j - 1;
    if !(tr[m].Freed? && tr[m].key == key) {
      m := SomeFree(tr, i, j - 1, key);
    }
  }

  /** `ResponseCameFirst` is sound: during that same call the context saw the lock held, by `h`, and
      after that look a holder made its freeing write. */
  lemma ResponseCameFirstIsSound(tr: seq<Event>, j: nat) returns (i: nat, m: nat)
    requires TraceOk(tr) && j < |tr| && tr[j].CameFirst?
    ensures var c := tr[j].ctx;
            var key := tr[j].key;
            && i < m < j && tr[i] == Looked(c, key, HeldLock) && NoNewCall(tr[i..j], c.root)
            && HistoryOf(tr[..i], key).holder.Some?
            && tr[m].Freed? && tr[m].key == key && HistoryOf(tr[..m], key).holder == Some(tr[m].ctx)
  {
    EventAt(tr, j);
    i := HeldLook(tr[..j], tr[j].ctx.root);
    assert tr[..j][..i] == tr[..i] && tr[..j][i..] == tr[i..j];
    m := SomeFree(tr, i, j, tr[j].key);
    EventAt(tr, i);
    EventAt(tr, m);
  }

  /** Where a call began, if it has not seen the lock held: no look of it found that. */
  lemma {:induction false} NeverHeldLook(tr: seq<Event>, root: RootId) returns (b: nat)
    requires CallOf(tr, root).ctx.Some? && CallOf(tr, root).heldAt.None?
    ensures var call := CallOf(tr, root);
            && b < |tr| && tr[b] == Started(call.ctx.value, call.key) && call.ctx.value.root == root
            && NoNewCall(tr[b + 1..], root)
            && forall n :: b < n < |tr| && tr[n].Looked? && tr[n].ctx.root == root ==> tr[n].sight != HeldLock
  {
    var last := |tr| - 1;
    var e := tr[last];
    if e.Started? && e.ctx.root == root {
      b := last;
      assert tr[b + 1..] == [];
    } else {
      b := NeverHeldLook(tr[..last], root);
      assert tr[b + 1..] == tr[..last][b + 1..] + [e];
      assert forall x :: 0 <= x < last ==> tr[..last][x] == tr[x];
    }
  }

  /** The other half: a context that gets the lock, or finds it free and so goes for it, has not seen it held
      during that call; whoever has, and then finds it free, is told that the response came first. */
  lemma AcquirerNeverSawItHeld(tr: seq<Event>, j: nat) returns (b: nat)
    requires TraceOk(tr) && j < |tr| && (tr[j].Acquired? || (tr[j].Looked? && tr[j].sight == FreedLock))
    ensures var c := tr[j].ctx;
            && b < j && tr[b] == Started(c, tr[j].key) && NoNewCall(tr[b + 1..j], c.root)
            && forall n :: b < n < j && tr[n].Looked? && tr[n].ctx.root == c.root ==> tr[n].sight != HeldLock
  {
    EventAt(tr, j);
    b := NeverHeldLook(tr[..j], tr[j].ctx.root);
    assert tr[..j][b + 1..] == tr[b + 1..j];
    assert forall x :: 0 <= x < j ==> tr[..j][x] == tr[x];
  }
}
