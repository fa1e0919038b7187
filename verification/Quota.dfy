/** Charging a cached application from many threads at once. Each thread reads the application with its
    CAS, runs the limit check on its copy and writes the copy back if nobody wrote in between; if somebody
    did, it reads again and charges again, up to a number of tries. Meanwhile the singleton overwrites or
    removes the application as it likes. */
module Quota {
  import opened Wrappers
  import opened SharedData
  import opened RateLimit
  import opened LimitOutcome

  type RootId = nat

  /** Where a thread is with its request; `app` is its copy of the application, `cas` is 0 if that copy
      came from 3scale, and `measured` is the value whose size it read just before writing. */
  datatype Pc =
    | Idle
    | Fetching(req: Request, tries: nat)
    | Trying(req: Request, app: Usage, cas: nat, tries: nat)
    | Writing(req: Request, app: Usage, cas: nat, tries: nat, measured: Option<Usage>)

  datatype Event =
    | Opened(root: RootId, req: Request, given: Option<Usage>)
    | Fetched(root: RootId, app: Usage)
    | Measured(root: RootId)
    | Charged(root: RootId, req: Request, cas: nat, measured: Option<Usage>, app: Usage, after: Usage)
    | Mismatched(root: RootId)
    | Refused(root: RootId, req: Request, app: Usage, verdict: Verdict)
    | NotFound(root: RootId, req: Request)
    | GaveUp(root: RootId, req: Request)
    | Abandoned(root: RootId, req: Request)
    | Overwritten(app: Usage)
    | Removed
    | Elsewhere

  datatype State = State(
    key: string, maxTries: nat, store: Store<Usage>, pcs: map<RootId, Pc>, trace: seq<Event>)

  /** `Start` is a request on a cache hit, or with the application 3scale has just sent; `Abandon` ends it
      before its first try. `Refresh` and `Remove` are the singleton's. */
  datatype Action =
    | Start(req: Request, given: Option<Usage>)
    | Abandon
    | Fetch
    | Try
    | CasWrite
    | Refresh(app: Usage)
    | Remove
    | OtherWrite(write: Write<Usage>)

  datatype Label = Label(root: RootId, action: Action)

  predicate Enabled(s: State, l: Label) {
    && l.root in s.pcs
    && var pc := s.pcs[l.root];
       match l.action
       case Start(req, given) => pc.Idle? && WellFormed(req)
       case Abandon => pc.Trying?
       case Fetch => pc.Fetching?
       case Try => pc.Trying? && Listed(pc.req)
       case CasWrite => pc.Writing? && Listed(pc.req)
       case Refresh(app) => true
       case Remove => true
       case OtherWrite(w) => w.key != s.key
  }

  function Goto(s: State, root: RootId, pc: Pc, e: Event): State {
    s.(pcs := s.pcs[root := pc], trace := s.trace + [e])
  }

  function Outcome(req: Request, app: Usage): (Usage, Verdict)
    requires Listed(req)
  {
    Check(req.order, req.hits, app, req.at, NO_INFO)
  }

  function DoStart(s: State, root: RootId, req: Request, given: Option<Usage>): State {
    Goto(s, root, if given.Some? then Trying(req, given.value, OVERWRITE, 0) else Fetching(req, 0),
         Opened(root, req, given))
  }

  function DoFetch(s: State, root: RootId, pc: Pc): State
    requires pc.Fetching?
  {
    var (value, cas) := Get(s.store, s.key);
    if value.Some? && cas.Some?
    then Goto(s, root, Trying(pc.req, value.value, cas.value, pc.tries), Fetched(root, value.value))
    else Goto(s, root, Idle, NotFound(root, pc.req))
  }

  /** The head of the loop, the limit check on the copy, and the reading of the stored size. */
  function DoTry(s: State, root: RootId, pc: Pc): State
    requires pc.Trying? && Listed(pc.req)
  {
    var verdict := Outcome(pc.req, pc.app).1;
    if s.maxTries <= pc.tries then Goto(s, root, Idle, GaveUp(root, pc.req))
    else if verdict.Passed?
    then Goto(s, root, Writing(pc.req, pc.app, pc.cas, pc.tries, Get(s.store, s.key).0), Measured(root))
    else Goto(s, root, Idle, Refused(root, pc.req, pc.app, verdict))
  }

  function DoWrite(s: State, root: RootId, pc: Pc): State
    requires pc.Writing? && Listed(pc.req)
  {
    var after := Outcome(pc.req, pc.app).0;
    var (store, status) := Set(s.store, s.key, Some(after), pc.cas);
    if status == Ok
    then Goto(s.(store := store), root, Idle, Charged(root, pc.req, pc.cas, pc.measured, pc.app, after))
    else Goto(s, root, Fetching(pc.req, pc.tries + 1), Mismatched(root))
  }

  function DoOther(s: State, root: RootId, pc: Pc, w: Write<Usage>, e: Event): State {
    Goto(s.(store := Set(s.store, w.key, w.value, w.cas).0), root, pc, e)
  }

  function Do(s: State, l: Label): State
    requires Enabled(s, l)
  {
    var root := l.root;
    var pc := s.pcs[root];
    match l.action
    case Start(req, given) => DoStart(s, root, req, given)
    case Abandon => Goto(s, root, Idle, Abandoned(root, pc.req))
    case Fetch => DoFetch(s, root, pc)
    case Try => DoTry(s, root, pc)
    case CasWrite => DoWrite(s, root, pc)
    case Refresh(app) => DoOther(s, root, pc, Write(s.key, Some(app), OVERWRITE), Overwritten(app))
    case Remove => DoOther(s, root, pc, Write(s.key, None, OVERWRITE), Removed)
    case OtherWrite(w) => DoOther(s, root, pc, w, Elsewhere)
  }

  function Step(s: State, l: Label): State {
    if Enabled(s, l) then Do(s, l) else s
  }

  function Exec(s: State, run: seq<Label>): State
    decreases |run|
  {
    if run == [] then s else Exec(Step(s, run[0]), run[1..])
  }

  lemma {:induction false} ExecConcat(s: State, a: seq<Label>, b: seq<Label>)
    ensures Exec(s, a + b) == Exec(Exec(s, a), b)
    decreases |a|
  {
    if a == [] {
      assert a + b == b;
    } else {
      assert (a + b)[1..] == a[1..] + b;
      ExecConcat(Step(s, a[0]), a[1..], b);
    }
  }

  function Init(key: string, maxTries: nat, roots: set<RootId>): State {
    State(key, maxTries, Store(map[], 2), map r | r in roots :: Idle, [])
  }

  // ---------------------------------------------------------------------------------------------
  // What the trace says.
  // ---------------------------------------------------------------------------------------------

  predicate IsWrite(e: Event) {
    e.Charged? || e.Overwritten? || e.Removed?
  }

  /** The application in the cache. */
  function Current(tr: seq<Event>): Option<Usage> {
    if tr == [] then None
    else
      match tr[|tr| - 1]
      case Charged(_, _, _, _, _, after) => Some(after)
      case Overwritten(app) => Some(app)
      case Removed => None
      case _ => Current(tr[..|tr| - 1])
  }

  /** How often the application was written. */
  function Version(tr: seq<Event>): nat {
    if tr == [] then 0 else Version(tr[..|tr| - 1]) + (if IsWrite(tr[|tr| - 1]) then 1 else 0)
  }

  /** A thread's request, if it has one: the version it began at, the copy it works on and the version that
      copy was, whether that copy came from 3scale, and how many tries have failed. */
  datatype RequestHistory = RequestHistory(
    req: Option<Request>, base: nat, app: Option<Usage>, version: nat, fromAnswer: bool, tries: nat)

  function RequestNote(before: seq<Event>, h: RequestHistory, e: Event, root: RootId): RequestHistory {
    match e
    case Opened(r, req, given) =>
      if r == root then RequestHistory(Some(req), Version(before), given, Version(before), given.Some?, 0) else h
    case Fetched(r, app) =>
      if r == root then h.(app := Some(app), version := Version(before), fromAnswer := false) else h
    case Mismatched(r) => if r == root then h.(app := None, tries := h.tries + 1) else h
    case Charged(r, _, _, _, _, _) => if r == root then h.(req := None) else h
    case Refused(r, _, _, _) => if r == root then h.(req := None) else h
    case NotFound(r, _) => if r == root then h.(req := None) else h
    case GaveUp(r, _) => if r == root then h.(req := None) else h
    case Abandoned(r, _) => if r == root then h.(req := None) else h
    case _ => h
  }

  function RequestOf(tr: seq<Event>, root: RootId): RequestHistory {
    if tr == [] then RequestHistory(None, 0, None, 0, false, 0)
    else RequestNote(tr[..|tr| - 1], RequestOf(tr[..|tr| - 1], root), tr[|tr| - 1], root)
  }

  /** What an event promises about everything before it. */
  ghost predicate EventOk(before: seq<Event>, e: Event, maxTries: nat) {
    match e
    case Opened(root, req, _) => WellFormed(req) && RequestOf(before, root).req == None
    case Fetched(root, app) => RequestOf(before, root).req.Some? && Current(before) == Some(app)
    case Charged(root, req, cas, measured, app, after) =>
      var h := RequestOf(before, root);
      && WellFormed(req) && h.req == Some(req) && h.app == Some(app) && h.tries < maxTries
      && Outcome(req, app).1.Passed? && after == Outcome(req, app).0
      && (cas == OVERWRITE <==> h.fromAnswer)
      && (cas != OVERWRITE ==> h.version == Version(before) && Current(before) == measured == Some(app))
    case Mismatched(root) =>
      var h := RequestOf(before, root);
      h.req.Some? && h.tries < maxTries && !h.fromAnswer && h.version < Version(before)
    case Refused(root, req, app, verdict) =>
      var h := RequestOf(before, root);
      && WellFormed(req) && h.req == Some(req) && h.app == Some(app)
      && verdict == Outcome(req, app).1 && !verdict.Passed?
    case NotFound(root, req) => RequestOf(before, root).req == Some(req) && Current(before) == None
    case GaveUp(root, req) =>
      var h := RequestOf(before, root);
      h.req == Some(req) && h.tries == maxTries && h.base + maxTries <= Version(before)
    case Abandoned(root, req) => RequestOf(before, root).req == Some(req)
    case _ => true
  }

  ghost predicate TraceOk(tr: seq<Event>, maxTries: nat) {
    tr == [] || (TraceOk(tr[..|tr| - 1], maxTries) && EventOk(tr[..|tr| - 1], tr[|tr| - 1], maxTries))
  }

  // ---------------------------------------------------------------------------------------------
  // Every run obeys it.
  // ---------------------------------------------------------------------------------------------

  /** The thread's copy: how its CAS and the version it was read at stand to the stored ones. */
  predicate CopyOk(s: State, h: RequestHistory, app: Usage, cas: nat, tries: nat) {
    && h.app == Some(app) && (cas == OVERWRITE <==> h.fromAnswer)
    && (cas == OVERWRITE ==> tries == 0)
    && (cas != OVERWRITE ==>
          && h.base + tries <= h.version <= Version(s.trace)
          && s.key in s.store.entries && 2 <= cas <= s.store.entries[s.key].cas
          && if cas == s.store.entries[s.key].cas
             then h.version == Version(s.trace) && s.store.entries[s.key].value == Some(app)
             else h.version < Version(s.trace))
  }

  ghost predicate ThreadOk(s: State, root: RootId)
    requires root in s.pcs
  {
    var h := RequestOf(s.trace, root);
    match s.pcs[root]
    case Idle => h.req == None
    case Fetching(req, tries) =>
      h.req == Some(req) && WellFormed(req) && h.tries == tries <= s.maxTries && h.base + tries <= Version(s.trace)
    case Trying(req, app, cas, tries) =>
      h.req == Some(req) && WellFormed(req) && h.tries == tries <= s.maxTries && h.base + tries <= Version(s.trace)
      && CopyOk(s, h, app, cas, tries)
    case Writing(req, app, cas, tries, measured) =>
      h.req == Some(req) && WellFormed(req) && h.tries == tries < s.maxTries && h.base + tries <= Version(s.trace)
      && CopyOk(s, h, app, cas, tries) && Outcome(req, app).1.Passed?
      && (cas != OVERWRITE && cas == s.store.entries[s.key].cas ==> measured == Some(app))
  }

  ghost predicate Inv(s: State) {
    && Sound(s.store)
    && Get(s.store, s.key).0 == Current(s.trace)
    && TraceOk(s.trace, s.maxTries)
    && (forall r :: r in s.pcs ==> ThreadOk(s, r))
  }

  /** One more event. */
  lemma Extend(tr: seq<Event>, e: Event, root: RootId)
    ensures RequestOf(tr + [e], root) == RequestNote(tr, RequestOf(tr, root), e, root)
    ensures Version(tr + [e]) == Version(tr) + (if IsWrite(e) then 1 else 0)
    ensures Current(tr + [e]) == match e
                                 case Charged(_, _, _, _, _, after) => Some(after)
                                 case Overwritten(app) => Some(app)
                                 case Removed => None
                                 case _ => Current(tr)
  {
    assert (tr + [e])[..|tr|] == tr;
  }

  lemma ExtendOk(tr: seq<Event>, e: Event, maxTries: nat)
    requires TraceOk(tr, maxTries) && EventOk(tr, e, maxTries)
    ensures TraceOk(tr + [e], maxTries)
  {
    assert (tr + [e])[..|tr|] == tr;
  }

  /** The root an event speaks of. */
  predicate Concerns(e: Event, root: RootId) {
    match e
    case Overwritten(_) => false
    case Removed => false
    case Elsewhere => false
    case _ => e.root == root
  }

  /** The other threads stay right: either the stored application is the same, or it has a newer CAS and
      a newer version. */
  lemma OthersKept(s: State, t: State, e: Event, root: RootId)
    requires root in s.pcs && root in t.pcs && t.pcs[root] == s.pcs[root] && ThreadOk(s, root)
    requires t.key == s.key && t.maxTries == s.maxTries && t.trace == s.trace + [e] && !Concerns(e, root)
    requires Sound(s.store)
    requires if IsWrite(e) then s.key in t.store.entries && t.store.entries[s.key].cas == s.store.next
             else s.key in s.store.entries ==>
                    s.key in t.store.entries && t.store.entries[s.key] == s.store.entries[s.key]
    ensures ThreadOk(t, root)
  {
    Extend(s.trace, e, root);
    assert RequestOf(t.trace, root) == RequestOf(s.trace, root);
  }

  /** What a step of `root` has to show: one event, which keeps its promise; the store still as the trace
      says; and the thread still right. */
  ghost predicate Kept(s: State, t: State, root: RootId) {
    && |t.trace| == |s.trace| + 1 && t.trace[..|s.trace|] == s.trace
    && EventOk(s.trace, t.trace[|s.trace|], s.maxTries)
    && Get(t.store, t.key).0 == Current(t.trace)
    && root in t.pcs && ThreadOk(t, root)
  }

  ghost predicate Ready(s: State, root: RootId) {
    Sound(s.store) && Get(s.store, s.key).0 == Current(s.trace) && root in s.pcs && ThreadOk(s, root)
  }

  lemma StartKept(s: State, root: RootId, req: Request, given: Option<Usage>)
    requires Ready(s, root) && s.pcs[root].Idle? && WellFormed(req)
    ensures Kept(s, DoStart(s, root, req, given), root)
  {
    Extend(s.trace, Opened(root, req, given), root);
  }

  lemma FetchKept(s: State, root: RootId)
    requires Ready(s, root) && s.pcs[root].Fetching?
    ensures Kept(s, DoFetch(s, root, s.pcs[root]), root)
  {
    var e := DoFetch(s, root, s.pcs[root]).trace[|s.trace|];
    Extend(s.trace, e, root);
  }

  lemma TryKept(s: State, root: RootId)
    requires Ready(s, root) && s.pcs[root].Trying? && Listed(s.pcs[root].req)
    ensures Kept(s, DoTry(s, root, s.pcs[root]), root)
  {
    var e := DoTry(s, root, s.pcs[root]).trace[|s.trace|];
    Extend(s.trace, e, root);
  }

  lemma WriteKept(s: State, root: RootId)
    requires Ready(s, root) && s.pcs[root].Writing? && Listed(s.pcs[root].req)
    ensures Kept(s, DoWrite(s, root, s.pcs[root]), root)
  {
    var e := DoWrite(s, root, s.pcs[root]).trace[|s.trace|];
    Extend(s.trace, e, root);
  }

  lemma OtherKept(s: State, root: RootId, w: Write<Usage>, e: Event)
    requires Ready(s, root)
    requires if w.key == s.key then w.cas == OVERWRITE && e == (if w.value.Some? then Overwritten(w.value.value) else Removed)
             else e == Elsewhere
    ensures Kept(s, DoOther(s, root, s.pcs[root], w, e), root)
  {
    Extend(s.trace, e, root);
    OthersKept(s, DoOther(s, root, s.pcs[root], w, e), e, root);
  }

  lemma ActorKept(s: State, l: Label)
    requires Enabled(s, l) && Ready(s, l.root)
    ensures Kept(s, Do(s, l), l.root)
  {
    match l.action
    case Start(req, given) => StartKept(s, l.root, req, given);
    case Abandon => Extend(s.trace, Abandoned(l.root, s.pcs[l.root].req), l.root);
    case Fetch => FetchKept(s, l.root);
    case Try => TryKept(s, l.root);
    case CasWrite => WriteKept(s, l.root);
    case Refresh(app) => OtherKept(s, l.root, Write(s.key, Some(app), OVERWRITE), Overwritten(app));
    case Remove => OtherKept(s, l.root, Write(s.key, None, OVERWRITE), Removed);
    case OtherWrite(w) => OtherKept(s, l.root, w, Elsewhere);
  }

  /** What a step leaves alone, for those who do not take it. */
  ghost predicate Frame(s: State, t: State, root: RootId) {
    && t.key == s.key && t.maxTries == s.maxTries && t.pcs.Keys == s.pcs.Keys
    && (forall r :: r in s.pcs && r != root ==> t.pcs[r] == s.pcs[r])
    && |t.trace| == |s.trace| + 1 && t.trace[..|s.trace|] == s.trace
    && var e := t.trace[|s.trace|];
       && (forall r :: Concerns(e, r) ==> r == root)
       && Sound(t.store)
       && if IsWrite(e) then s.key in t.store.entries && t.store.entries[s.key].cas == s.store.next
          else s.key in s.store.entries ==>
                 s.key in t.store.entries && t.store.entries[s.key] == s.store.entries[s.key]
  }

  lemma OtherFrame(s: State, root: RootId, w: Write<Usage>, e: Event)
    requires root in s.pcs && Sound(s.store)
    requires if w.key == s.key then w.cas == OVERWRITE && (e.Overwritten? || e.Removed?) else e == Elsewhere
    ensures Frame(s, DoOther(s, root, s.pcs[root], w, e), root)
  {
  }

  lemma WriteFrame(s: State, root: RootId)
    requires root in s.pcs && s.pcs[root].Writing? && Listed(s.pcs[root].req) && Sound(s.store)
    ensures Frame(s, DoWrite(s, root, s.pcs[root]), root)
  {
  }

  lemma StepFrame(s: State, l: Label)
    requires Enabled(s, l) && Sound(s.store)
    ensures Frame(s, Do(s, l), l.root)
  {
    match l.action
    case CasWrite => WriteFrame(s, l.root);
    case Refresh(app) => OtherFrame(s, l.root, Write(s.key, Some(app), OVERWRITE), Overwritten(app));
    case Remove => OtherFrame(s, l.root, Write(s.key, None, OVERWRITE), Removed);
    case OtherWrite(w) => OtherFrame(s, l.root, w, Elsewhere);
    case _ =>
  }

  lemma StepKeeps(s: State, l: Label)
    requires Inv(s)
    ensures Inv(Step(s, l)) && Step(s, l).key == s.key && Step(s, l).maxTries == s.maxTries
  {
    if Enabled(s, l) {
      var t := Do(s, l);
      ActorKept(s, l);
      StepFrame(s, l);
      var e := t.trace[|s.trace|];
      assert t.trace == s.trace + [e];
      ExtendOk(s.trace, e, s.maxTries);
      forall r | r in t.pcs && r != l.root ensures ThreadOk(t, r) {
        OthersKept(s, t, e, r);
      }
    }
  }

  lemma {:induction false} ExecKeeps(s: State, run: seq<Label>)
    requires Inv(s)
    ensures Inv(Exec(s, run)) && Exec(s, run).key == s.key && Exec(s, run).maxTries == s.maxTries
    decreases |run|
  {
    if run != [] {
      StepKeeps(s, run[0]);
      ExecKeeps(Step(s, run[0]), run[1..]);
    }
  }

  /** Whatever the threads do, in whatever order: the events keep their promises, and the cache holds
      what the events say. */
  lemma RunsObeyQuota(key: string, maxTries: nat, roots: set<RootId>, run: seq<Label>)
    ensures var s := Exec(Init(key, maxTries, roots), run);
            TraceOk(s.trace, maxTries) && Get(s.store, key).0 == Current(s.trace)
  {
    ExecKeeps(Init(key, maxTries, roots), run);
  }

  // ---------------------------------------------------------------------------------------------
  // What that means for the quota.
  // ---------------------------------------------------------------------------------------------

  function HitsOn(req: Request, m: string): nat {
    if m in req.hits then req.hits[m] else 0
  }

  /** Since a metric was last reset: what it was granted then, and the hits of the requests charged since.
      It is reset by an overwrite, by a removal, and by a request that finds its window expired. */
  datatype Ledger = Ledger(granted: nat, spent: nat)

  function LedgerNote(g: Option<Ledger>, e: Event, m: string): Option<Ledger> {
    match e
    case Overwritten(app) => if m in app then Some(Ledger(app[m].leftHits, 0)) else None
    case Removed => None
    case Charged(_, req, cas, _, app, _) =>
      if m !in app then None
      else if m in req.hits && Expired(app[m].periodWindow, req.at) then
        Some(Ledger(app[m].maxValue, HitsOn(req, m)))
      else if cas == OVERWRITE then Some(Ledger(app[m].leftHits, HitsOn(req, m)))
      else if g.Some? then Some(g.value.(spent := g.value.spent + HitsOn(req, m))) else None
    case _ => g
  }

  function LedgerOf(tr: seq<Event>, m: string): Option<Ledger> {
    if tr == [] then None else LedgerNote(LedgerOf(tr[..|tr| - 1], m), tr[|tr| - 1], m)
  }

  /** The cached quota is what was granted less what the requests charged since have spent. */
  predicate Balances(g: Option<Ledger>, app: Option<Usage>, m: string) {
    if app.Some? && m in app.value
    then g.Some? && app.value[m].leftHits == g.value.granted - g.value.spent
    else g.None?
  }

  lemma BalanceStep(before: seq<Event>, g: Option<Ledger>, e: Event, maxTries: nat, m: string)
    requires EventOk(before, e, maxTries) && Balances(g, Current(before), m)
    ensures Balances(LedgerNote(g, e, m), Current(before + [e]), m)
  {
    Extend(before, e, 0);
    if e.Charged? {
      var req := e.req;
      PassedTakes(req.order, req.hits, e.app, req.at, NO_INFO, m);
      if m in req.hits && m in e.app {
        RollGrants(e.app[m], req.at);
      }
    }
  }

  lemma RollGrants(u: UsageReport, now: Duration)
    requires RollOver(u, now).1
    ensures RollOver(u, now).0.leftHits == if Expired(u.periodWindow, now) then u.maxValue else u.leftHits
    ensures RollOver(u, now).0.maxValue == u.maxValue
  {
  }

  lemma {:induction false} LedgerHolds(tr: seq<Event>, maxTries: nat, m: string)
    requires TraceOk(tr, maxTries)
    ensures Balances(LedgerOf(tr, m), Current(tr), m)
  {
    if tr != [] {
      var before, e := tr[..|tr| - 1], tr[|tr| - 1];
      LedgerHolds(before, maxTries, m);
      BalanceStep(before, LedgerOf(before, m), e, maxTries, m);
      assert before + [e] == tr;
    }
  }

  /** Quota is conserved: at every moment of every run, what the cache says is left of a metric is what it
      was granted at its last reset less the hits of all requests authorized since, so these never exceed
      the grant. */
  lemma QuotaIsConserved(key: string, maxTries: nat, roots: set<RootId>, run: seq<Label>, m: string)
    ensures var s := Exec(Init(key, maxTries, roots), run);
            var app := Get(s.store, key).0;
            var g := LedgerOf(s.trace, m);
            && (g.Some? <==> app.Some? && m in app.value)
            && (g.Some? ==> app.value[m].leftHits == g.value.granted - g.value.spent && g.value.spent <= g.value.granted)
  {
    RunsObeyQuota(key, maxTries, roots, run);
    LedgerHolds(Exec(Init(key, maxTries, roots), run).trace, maxTries, m);
  }

  /** 3scale never reports more left than the limit. */
  predicate Honest(app: Usage, m: string) {
    m in app ==> app[m].leftHits <= app[m].maxValue
  }

  ghost predicate HonestTrace(tr: seq<Event>, m: string) {
    forall e :: e in tr ==>
      && (e.Overwritten? ==> Honest(e.app, m))
      && (e.Opened? && e.given.Some? ==> Honest(e.given.value, m))
  }

  /** Where a thread's copy comes from: the cache, or an answer of 3scale. */
  lemma {:induction false} CopiesAreHonest(tr: seq<Event>, maxTries: nat, m: string, root: RootId)
    requires TraceOk(tr, maxTries) && HonestTrace(tr, m)
    ensures var h := RequestOf(tr, root); h.app.Some? ==> Honest(h.app.value, m)
    ensures Current(tr).Some? ==> Honest(Current(tr).value, m)
    ensures LedgerOf(tr, m).Some? && Current(tr).Some? && m in Current(tr).value ==>
              LedgerOf(tr, m).value.granted <= Current(tr).value[m].maxValue
    decreases |tr|
  {
    if tr != [] {
      var before, e := tr[..|tr| - 1], tr[|tr| - 1];
      assert forall x :: x in before ==> x in tr;
      CopiesAreHonest(before, maxTries, m, root);
      LedgerHolds(before, maxTries, m);
      if e.Charged? {
        CopiesAreHonest(before, maxTries, m, e.root);
        PassedTakes(e.req.order, e.req.hits, e.app, e.req.at, NO_INFO, m);
        if m in e.req.hits && m in e.app {
          RollGrants(e.app[m], e.req.at);
        }
      }
    }
  }

  /** No window is ever overcommitted: the hits authorized since a metric was last reset do not exceed its
      limit, if no answer of 3scale reports more left than the limit. */
  lemma NeverOvercommitted(key: string, maxTries: nat, roots: set<RootId>, run: seq<Label>, m: string)
    requires HonestTrace(Exec(Init(key, maxTries, roots), run).trace, m)
    ensures var s := Exec(Init(key, maxTries, roots), run);
            var g := LedgerOf(s.trace, m);
            g.Some? ==> Current(s.trace).Some? && m in Current(s.trace).value
                        && g.value.spent <= g.value.granted <= Current(s.trace).value[m].maxValue
  {
    RunsObeyQuota(key, maxTries, roots, run);
    var tr := Exec(Init(key, maxTries, roots), run).trace;
    LedgerHolds(tr, maxTries, m);
    CopiesAreHonest(tr, maxTries, m, 0);
  }

  /** The requests charged against the cached application, in the order they were committed. */
  function Commits(tr: seq<Event>): seq<Request> {
    if tr == [] then []
    else Commits(tr[..|tr| - 1]) + (if tr[|tr| - 1].Charged? then [tr[|tr| - 1].req] else [])
  }

  /** One request after the other, each authorized, with nobody else around. */
  ghost predicate ServesAll(app: Usage, reqs: seq<Request>, end: Usage) {
    if reqs == [] then app == end
    else
      var last := reqs[|reqs| - 1];
      Listed(last) && exists mid :: ServesAll(app, reqs[..|reqs| - 1], mid) && Outcome(last, mid).1.Passed?
                                    && Outcome(last, mid).0 == end
  }

  /** No overwrite by the singleton or by an answer of 3scale, and no removal. */
  ghost predicate Undisturbed(tr: seq<Event>) {
    forall e :: e in tr ==> !e.Overwritten? && !e.Removed? && (e.Charged? ==> e.cas != OVERWRITE)
  }

  lemma ServeOneMore(app: Usage, reqs: seq<Request>, mid: Usage, req: Request)
    requires ServesAll(app, reqs, mid) && Listed(req) && Outcome(req, mid).1.Passed?
    ensures ServesAll(app, reqs + [req], Outcome(req, mid).0)
  {
    assert (reqs + [req])[..|reqs|] == reqs;
  }

  /** Concurrent charging is sequential charging: the application that any interleaving leaves behind is the
      one left by handling exactly the authorized requests one after the other, in commit order, each of
      them authorized there too. */
  lemma {:induction false} ChargesAreSerial(tr: seq<Event>, more: seq<Event>, maxTries: nat)
    requires TraceOk(tr + more, maxTries) && Undisturbed(more) && Current(tr).Some?
    ensures Current(tr + more).Some? && ServesAll(Current(tr).value, Commits(more), Current(tr + more).value)
    decreases |more|
  {
    if more == [] {
      assert tr + more == tr;
    } else {
      var rest, e := more[..|more| - 1], more[|more| - 1];
      assert (tr + more)[..|tr + more| - 1] == tr + rest;
      assert forall x :: x in rest ==> x in more;
      ChargesAreSerial(tr, rest, maxTries);
      Extend(tr + rest, e, 0);
      assert tr + rest + [e] == tr + more;
      if e.Charged? {
        ServeOneMore(Current(tr).value, Commits(rest), Current(tr + rest).value, e.req);
      } else {
        assert Commits(more) == Commits(rest);
      }
    }
  }

  /** Between two moments of a run, with its last moments cut off. */
  lemma {:induction false} TraceOkBefore(tr: seq<Event>, i: nat, maxTries: nat)
    requires TraceOk(tr, maxTries) && i < |tr|
    ensures TraceOk(tr[..i], maxTries) && EventOk(tr[..i], tr[i], maxTries)
    decreases |tr|
  {
    if i < |tr| - 1 {
      TraceOkBefore(tr[..|tr| - 1], i, maxTries);
      assert tr[..|tr| - 1][..i] == tr[..i];
    }
  }

  /** The events that end a request. */
  predicate Ends(e: Event, root: RootId) {
    (e.Charged? || e.Refused? || e.NotFound? || e.GaveUp? || e.Abandoned?) && e.root == root
  }

  lemma {:induction false} StaysClosed(tr: seq<Event>, i: nat, root: RootId)
    requires i < |tr| && Ends(tr[i], root)
    requires forall k :: i < k < |tr| && tr[k].Opened? ==> tr[k].root != root
    ensures RequestOf(tr, root).req == None
    decreases |tr|
  {
    if i < |tr| - 1 {
      var before := tr[..|tr| - 1];
      assert before[i] == tr[i];
      assert forall k :: 0 <= k < |before| ==> before[k] == tr[k];
      StaysClosed(before, i, root);
    }
  }

  /** A request is charged at most once, and not at all if it is refused or given up: between two events of
      one thread that end a request, that thread opened another. */
  lemma OneOutcomeEach(tr: seq<Event>, i: nat, j: nat, root: RootId, maxTries: nat)
    requires TraceOk(tr, maxTries) && i < j < |tr| && Ends(tr[i], root) && Ends(tr[j], root)
    ensures exists k :: i < k < j && tr[k].Opened? && tr[k].root == root
  {
    TraceOkBefore(tr, j, maxTries);
    if forall k :: i < k < j && tr[k].Opened? ==> tr[k].root != root {
      assert forall k :: 0 <= k < j ==> tr[..j][k] == tr[k];
      StaysClosed(tr[..j], i, root);
      assert false;
    }
  }

  /** The bytes of a stored pair; erased values count as their key alone. */
  function PairSize(key: string, value: Option<Usage>, length: Usage -> nat): nat {
    |key| + (if value.Some? then length(value.value) else 0)
  }

  /** The memory delta a guarded write accounts for, from a size read in a separate step, is exactly the
      length of the new value less that of the value it replaces. */
  lemma MemoryDeltaIsExact(tr: seq<Event>, i: nat, maxTries: nat, key: string, length: Usage -> nat)
    requires TraceOk(tr, maxTries) && i < |tr| && tr[i].Charged? && tr[i].cas != OVERWRITE
    ensures Current(tr[..i]).Some? && Current(tr[..i + 1]) == Some(tr[i].after)
    ensures PairSize(key, Some(tr[i].after), length) - PairSize(key, tr[i].measured, length)
         == length(tr[i].after) - length(Current(tr[..i]).value)
  {
    TraceOkBefore(tr, i, maxTries);
    Extend(tr[..i], tr[i], 0);
    assert tr[..i] + [tr[i]] == tr[..i + 1];
  }
}
