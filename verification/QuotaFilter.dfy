/** `handle_cache_hit` as one worker thread runs it, while the others and the singleton do whatever
    `schedule` says between any two of its host calls. It is shown to be a run of the charging protocol, so
    what holds of all runs holds of it. */
module QuotaFilter {
  import opened Wrappers
  import opened SharedData
  import opened RateLimit
  import opened Quota

  /** What the singleton is told about an authorized request. */
  datatype Message = Message(updateCacheFromSingleton: bool, req: Request)

  datatype CacheHitStatus = Allowed(info: RateLimitInfo) | Denied(info: RateLimitInfo) | LeftToSingleton

  datatype CacheHitError = MQNotFound | AppFetchFail | MetricsCheckFail(verdict: Verdict)

  /** None of these steps is this thread's. */
  predicate ForeignOnly(batches: seq<seq<Label>>, root: RootId) {
    forall b :: b in batches ==> forall l :: l in b ==> l.root != root
  }

  lemma {:induction false} ForeignStepsLeave(s: State, run: seq<Label>, root: RootId)
    requires root in s.pcs && (forall l :: l in run ==> l.root != root)
    ensures var t := Exec(s, run);
            t.key == s.key && t.maxTries == s.maxTries && root in t.pcs && t.pcs[root] == s.pcs[root]
    decreases |run|
  {
    if run != [] {
      assert forall l :: l in run[1..] ==> l in run;
      ForeignStepsLeave(Step(s, run[0]), run[1..], root);
    }
  }

  /** A run, then foreign steps, then one step of this thread. */
  lemma ExecThen(s: State, run: seq<Label>, foreign: seq<Label>, l: Label)
    ensures Exec(s, run + foreign + [l]) == Step(Exec(Exec(s, run), foreign), l)
  {
    ExecConcat(s, run + foreign, [l]);
    ExecConcat(s, run, foreign);
    var t := Exec(Exec(s, run), foreign);
    assert [l][1..] == [];
    assert Exec(t, [l]) == Exec(Step(t, l), []);
  }

  class Filter {
    const root: RootId
    var sys: State
    var schedule: seq<seq<Label>>
    var updateCacheFromSingleton: bool
    var messages: seq<Message>

    constructor (root: RootId, sys: State, schedule: seq<seq<Label>>)
      ensures this.root == root && this.sys == sys && this.schedule == schedule
      ensures !updateCacheFromSingleton && messages == []
    {
      this.root, this.sys, this.schedule := root, sys, schedule;
      updateCacheFromSingleton, messages := false, [];
    }

    /** This thread is at `pc`, and only others are scheduled. */
    predicate At(pc: Pc)
      reads this`sys, this`schedule
    {
      root in sys.pcs && sys.pcs[root] == pc && ForeignOnly(schedule, root)
    }

    /** The next batch of the schedule runs. */
    method Interfere() returns (ghost ran: seq<Label>)
      requires root in sys.pcs && ForeignOnly(schedule, root)
      modifies this`sys, this`schedule
      ensures sys == Exec(old(sys), ran) && At(old(sys).pcs[root])
      ensures sys.key == old(sys).key && sys.maxTries == old(sys).maxTries
    {
      ran := [];
      if schedule != [] {
        ran := schedule[0];
        var rest := schedule[0];
        while rest != []
          invariant Exec(sys, rest) == Exec(old(sys), ran)
          invariant schedule == old(schedule)
          decreases |rest|
        {
          sys, rest := Step(sys, rest[0]), rest[1..];
        }
        assert schedule[0] in schedule;
        ForeignStepsLeave(old(sys), ran, root);
        assert forall b :: b in schedule[1..] ==> b in schedule;
        schedule := schedule[1..];
      }
    }

    /** `get_application_from_cache`: the others run, then one read. */
    method GetApplicationFromCache(req: Request, tries: nat, ghost s0: State, ghost run: seq<Label>)
      returns (found: Option<(Usage, nat)>, ghost run': seq<Label>)
      requires sys == Exec(s0, run) && At(Fetching(req, tries))
      modifies this`sys, this`schedule
      ensures sys == Exec(s0, run') && sys.trace != [] && sys.maxTries == old(sys).maxTries
      ensures found.Some? ==> At(Trying(req, found.value.0, found.value.1, tries))
      ensures found.None? ==> At(Idle) && sys.trace[|sys.trace| - 1] == NotFound(root, req)
    {
      ghost var ran := Interfere();
      ExecThen(s0, run, ran, Label(root, Fetch));
      run' := run + ran + [Label(root, Fetch)];
      var (value, cas) := Get(sys.store, sys.key);
      if value.Some? && cas.Some? {
        found := Some((value.value, cas.value));
        sys := Goto(sys, root, Trying(req, value.value, cas.value, tries), Fetched(root, value.value));
      } else {
        found := None;
        sys := Goto(sys, root, Idle, NotFound(root, req));
      }
    }

    predicate Committed(req: Request, cas: nat, before: Usage, app: Usage)
      reads this`sys
    {
      sys.trace != []
      && var e := sys.trace[|sys.trace| - 1];
         e.Charged? && e.root == root && e.req == req && e.cas == cas && e.app == before && e.after == app
    }

    /** `get_cache_pair_size`: the others run, then the stored value is looked at for its size. */
    method GetCachePairSize(req: Request, app: Usage, cas: nat, tries: nat, ghost s0: State, ghost run: seq<Label>)
      returns (stored: Option<Usage>, ghost run': seq<Label>)
      requires sys == Exec(s0, run) && At(Trying(req, app, cas, tries)) && tries < sys.maxTries
      requires Listed(req) && Outcome(req, app).1.Passed?
      modifies this`sys, this`schedule
      ensures sys == Exec(s0, run') && sys.maxTries == old(sys).maxTries
      ensures stored == Get(sys.store, sys.key).0 && At(Writing(req, app, cas, tries, stored))
    {
      ghost var ran := Interfere();
      ExecThen(s0, run, ran, Label(root, Try));
      run' := run + ran + [Label(root, Try)];
      stored := Get(sys.store, sys.key).0;
      sys := Goto(sys, root, Writing(req, app, cas, tries, stored), Measured(root));
    }

    /** `set_application_to_cache`, up to its write: the stored size is read, the others run, and one
        conditional write follows. */
    method SetApplicationToCache(req: Request, before: Usage, app: Usage, cas: nat, tries: nat,
                                 ghost s0: State, ghost run: seq<Label>)
      returns (status: Status, ghost run': seq<Label>)
      requires sys == Exec(s0, run) && At(Trying(req, before, cas, tries)) && tries < sys.maxTries
      requires Listed(req) && Outcome(req, before).0 == app && Outcome(req, before).1.Passed?
      modifies this`sys, this`schedule
      ensures sys == Exec(s0, run') && sys.trace != [] && sys.maxTries == old(sys).maxTries
      ensures status == Ok ==>
                && At(Idle) && Committed(req, cas, before, app)
                && sys.key in sys.store.entries && sys.store.entries[sys.key].value == Some(app)
      ensures status == CasMismatch ==> At(Fetching(req, tries + 1))
    {
      var stored;
      stored, run' := GetCachePairSize(req, before, cas, tries, s0, run);
      ghost var ran := Interfere();
      ExecThen(s0, run', ran, Label(root, CasWrite));
      run' := run' + ran + [Label(root, CasWrite)];
      var store;
      store, status := Set(sys.store, sys.key, Some(app), cas).0, Set(sys.store, sys.key, Some(app), cas).1;
      if status == Ok {
        sys := Goto(sys.(store := store), root, Idle, Charged(root, req, cas, stored, before, app));
      } else {
        sys := Goto(sys, root, Fetching(req, tries + 1), Mismatched(root));
      }
    }

    /** A step of this thread that makes no host call. */
    method Conclude(action: Action, e: Event, ghost s0: State, ghost run: seq<Label>)
      returns (ghost run': seq<Label>)
      requires sys == Exec(s0, run) && root in sys.pcs && Enabled(sys, Label(root, action))
      requires Do(sys, Label(root, action)) == Goto(sys, root, Idle, e)
      modifies this`sys
      ensures sys == Exec(s0, run') && root in sys.pcs && sys.pcs[root] == Idle
      ensures sys == Goto(old(sys), root, Idle, e)
    {
      ExecThen(s0, run, [], Label(root, action));
      run' := run + [] + [Label(root, action)];
      sys := Goto(sys, root, Idle, e);
    }

    /** The last event of the request, for each way it can end. */
    predicate Ended(r: Result<CacheHitStatus, CacheHitError>, req: Request)
      reads this`sys
    {
      && root in sys.pcs && sys.pcs[root] == Idle && sys.trace != []
      && var e := sys.trace[|sys.trace| - 1];
         match r
         case Success(Allowed(info)) =>
           e.Charged? && e.root == root && e.req == req && Listed(req) && Outcome(req, e.app) == (e.after, Passed(info))
           && sys.key in sys.store.entries && sys.store.entries[sys.key].value == Some(e.after)
         case Success(Denied(info)) => e.Refused? && e.root == root && e.req == req && e.verdict == Limited(info)
         case Success(LeftToSingleton) => e == GaveUp(root, req)
         case Failure(MQNotFound) => e == Abandoned(root, req)
         case Failure(AppFetchFail) => e == NotFound(root, req)
         case Failure(MetricsCheckFail(v)) => e.Refused? && e.root == root && e.req == req && e.verdict == v && !v.Limited?
    }

    /** `handle_cache_hit`, on the thread's copy of the application. It ends in a state that a run of the
        protocol reaches, with the request's end as that run's last event. A message goes to the singleton
        only if the request was charged (and the host takes it), and before the flag could be set that
        asks the singleton to overwrite the cache: a request left to the singleton is not reported to it. */
    method HandleCacheHit(req: Request, app: Application, cas: nat, queueFound: bool, enqueued: bool)
      returns (r: Result<CacheHitStatus, CacheHitError>, ghost run: seq<Label>)
      requires WellFormed(req) && At(Trying(req, app.localState, cas, 0))
      modifies this, app
      ensures sys == Exec(old(sys), run) && Ended(r, req)
      ensures r.Failure? && r.error.MQNotFound? <==> !queueFound
      ensures messages == old(messages)
                          + if r.Success? && r.value.Allowed? && enqueued
                            then [Message(old(updateCacheFromSingleton), req)] else []
      ensures updateCacheFromSingleton == (old(updateCacheFromSingleton) || (r.Success? && r.value.LeftToSingleton?))
    {
      ghost var s0 := sys;
      run := [];
      if !queueFound {
        run := Conclude(Abandon, Abandoned(root, req), s0, run);
        return Failure(MQNotFound), run;
      }
      var appCas := cas;
      var maxTries := sys.maxTries;
      for numTry := 0 to maxTries
        invariant sys == Exec(s0, run) && sys.maxTries == maxTries
        invariant At(Trying(req, app.localState, appCas, numTry))
        invariant messages == old(messages) && updateCacheFromSingleton == old(updateCacheFromSingleton)
      {
        var before := app.localState;
        var verdict := LimitCheck(req.hits, req.order, app, req.at);
        if !verdict.Passed? {
          run := Conclude(Try, Refused(root, req, before, verdict), s0, run);
          if verdict.Limited? {
            return Success(Denied(verdict.info)), run;
          }
          return Failure(MetricsCheckFail(verdict)), run;
        }
        var status;
        status, run := SetApplicationToCache(req, before, app.localState, appCas, numTry, s0, run);
        if status == Ok {
          if enqueued {
            messages := messages + [Message(updateCacheFromSingleton, req)];
          }
          return Success(Allowed(verdict.info)), run;
        }
        var found;
        found, run := GetApplicationFromCache(req, numTry + 1, s0, run);
        if found.None? {
          return Failure(AppFetchFail), run;
        }
        app.localState, appCas := found.value.0, found.value.1;
      }
      run := Conclude(Try, GaveUp(root, req), s0, run);
      updateCacheFromSingleton := true;
      return Success(LeftToSingleton), run;
    }
  }
}
