/** What the lazily rolled quotas amount to: a plain fixed-window limiter, which remembers every authorized
    request and, for each new one, adds up what its metrics have used in the window of the current time. */
module FixedWindow {
  import opened Wrappers
  import opened DivMod
  import opened RateLimit

  /** One request against the cached application; a refused one writes nothing back. */
  function Serve(usage: Usage, r: Request): (s: (Usage, bool))
    requires Listed(r)
  {
    var (after, v) := Check(r.order, r.hits, usage, r.at, NO_INFO);
    if v.Passed? then (after, true) else (usage, false)
  }

  /** The decisions of the code over a run of requests on one cached application. */
  function LazyRun(usage: Usage, rs: seq<Request>): (decisions: seq<bool>)
    requires forall r :: r in rs ==> Listed(r)
    decreases |rs|
  {
    if rs == [] then []
    else
      var (after, ok) := Serve(usage, rs[0]);
      [ok] + LazyRun(after, rs[1..])
  }

  /** The number of the fixed window that a time falls in: 0 up to the end of the window first fetched. */
  function Index(u: UsageReport, t: Duration): int {
    if Expired(u.periodWindow, t) then WindowsPassed(u.periodWindow, t) else 0
  }

  /** What the authorized requests of the log used of this metric in one fixed window. */
  function Spent(log: seq<Request>, m: string, u: UsageReport, window: int): nat {
    if log == [] then 0
    else
      var r := log[|log| - 1];
      Spent(log[..|log| - 1], m, u, window)
      + (if m in r.hits && Index(u, r.at) == window then r.hits[m] else 0)
  }

  /** What a fixed window still allows: the first starts with what was left when it was fetched. */
  function Left(log: seq<Request>, m: string, u: UsageReport, window: int): int {
    (if window == 0 then u.leftHits else u.maxValue) - Spent(log, m, u, window)
  }

  /** The eager limiter's decision. */
  ghost predicate EagerAllows(usage: Usage, log: seq<Request>, r: Request) {
    forall m :: m in r.hits && m in usage ==> r.hits[m] <= Left(log, m, usage[m], Index(usage[m], r.at))
  }

  ghost function EagerRun(usage: Usage, log: seq<Request>, rs: seq<Request>): (decisions: seq<bool>)
    decreases |rs|
  {
    if rs == [] then []
    else if EagerAllows(usage, log, rs[0]) then [true] + EagerRun(usage, log + [rs[0]], rs[1..])
    else [false] + EagerRun(usage, log, rs[1..])
  }

  /** The fetched window is one window long; one that never expires has not ended. */
  predicate Steady(u: UsageReport, t: Duration) {
    var p := u.periodWindow;
    if p.window == Eternity then t <= p.end else p.end == p.start + p.window.Length()
  }

  /** Not the exact first instant of a later window. */
  predicate OffBoundary(u: UsageReport, t: Duration) {
    Expired(u.periodWindow, t) ==> (t - u.periodWindow.start) % u.periodWindow.window.Length() != 0
  }

  /** Far enough from the end of representable time that no window end overflows. */
  predicate Timely(t: Duration) {
    t + Year.Length() <= DURATION_MAX
  }

  ghost predicate Suits(usage: Usage, r: Request) {
    && WellFormed(r) && Timely(r.at)
    && (forall m :: m in r.hits && m in usage ==> Steady(usage[m], r.at) && OffBoundary(usage[m], r.at))
  }

  ghost predicate InOrder(rs: seq<Request>) {
    forall i, j :: 0 <= i < j < |rs| ==> rs[i].at <= rs[j].at
  }

  /** The latest window in which the log used this metric. */
  function LastUsed(log: seq<Request>, m: string, u: UsageReport): (w: int)
    ensures 0 <= w
  {
    if log == [] then 0
    else
      var r := log[|log| - 1];
      var before := LastUsed(log[..|log| - 1], m, u);
      if m in r.hits && before < Index(u, r.at) then Index(u, r.at) else before
  }

  /** The cached report of a metric, as the log determines it: in the window it was last used in, with
      what that window has left. */
  predicate Mirrors(u0: UsageReport, m: string, log: seq<Request>, u: UsageReport) {
    var w := LastUsed(log, m, u0);
    var d := w * u0.periodWindow.window.Length();
    && u.periodWindow.window == u0.periodWindow.window && u.maxValue == u0.maxValue
    && u.periodWindow.start == u0.periodWindow.start + d && u.periodWindow.end == u0.periodWindow.end + d
    && u.leftHits == Left(log, m, u0, w)
  }

  ghost predicate MirrorsAll(usage0: Usage, log: seq<Request>, usage: Usage) {
    usage.Keys == usage0.Keys && forall m :: m in usage0 ==> Mirrors(usage0[m], m, log, usage[m])
  }

  ghost predicate Before(log: seq<Request>, t: Duration) {
    forall r :: r in log ==> r.at <= t
  }

  lemma IndexGrows(u: UsageReport, t1: Duration, t2: Duration)
    requires t1 <= t2 && (u.periodWindow.window == Eternity || u.periodWindow.start <= u.periodWindow.end)
    ensures 0 <= Index(u, t1) <= Index(u, t2)
  {
    if Expired(u.periodWindow, t1) {
      var length := u.periodWindow.window.Length();
      DivBounds(t1 - u.periodWindow.start, length);
      DivBounds(t2 - u.periodWindow.start, length);
      if Index(u, t2) < Index(u, t1) {
        MulMono(length, Index(u, t2) + 1, Index(u, t1));
      }
      if Index(u, t1) < 0 {
        MulMono(length, Index(u, t1) + 1, 0);
      }
    } else if Expired(u.periodWindow, t2) {
      var length := u.periodWindow.window.Length();
      DivBounds(t2 - u.periodWindow.start, length);
      if Index(u, t2) < 0 {
        MulMono(length, Index(u, t2) + 1, 0);
      }
    }
  }

  lemma {:induction false} LastUsedBefore(log: seq<Request>, m: string, u: UsageReport, t: Duration)
    requires Before(log, t) && (u.periodWindow.window == Eternity || u.periodWindow.start <= u.periodWindow.end)
    ensures LastUsed(log, m, u) <= Index(u, t)
    decreases |log|
  {
    IndexGrows(u, t, t);
    if log != [] {
      LastUsedBefore(log[..|log| - 1], m, u, t);
      IndexGrows(u, log[|log| - 1].at, t);
    }
  }

  lemma {:induction false} NothingSpentLater(log: seq<Request>, m: string, u: UsageReport, window: int)
    requires LastUsed(log, m, u) < window
    ensures Spent(log, m, u, window) == 0
    decreases |log|
  {
    if log != [] {
      NothingSpentLater(log[..|log| - 1], m, u, window);
    }
  }

  /** Off a boundary, the window of the current time lies ahead of an earlier one's end. */
  lemma AheadOfWindow(d: int, length: int, k: int)
    requires 0 < length && 0 <= k < d / length && d % length != 0
    ensures var w := d / length;
            && k * length + length < d && w * length < d < w * length + length
            && (d - k * length) / length == w - k && k * length + (w - k) * length == w * length
  {
    var w := d / length;
    DivBounds(d, length);
    DivShift(d, length, k);
    MulMono(length, k + 1, w);
    assert length * (k + 1) == k * length + length;
    assert length * (w + 1) == w * length + length;
  }

  /** Without a boundary in the way: the window of the current time itself. */
  lemma InsideWindow(d: int, length: int)
    requires 0 < length && 0 <= d
    ensures var w := d / length; 0 <= w && w * length <= d < w * length + length
  {
    DivBounds(d, length);
    if d / length < 0 {
      MulMono(length, d / length + 1, 0);
    }
    assert length * (d / length + 1) == (d / length) * length + length;
  }

  /** The roll from the window last used to the later window of the current time. */
  lemma WindowAhead(u0: UsageReport, u: UsageReport, k: nat, t: Duration)
    requires var p0 := u0.periodWindow; p0.end == p0.start + p0.window.Length()
    requires Expired(u0.periodWindow, t) && OffBoundary(u0, t) && Timely(t)
    requires k < WindowsPassed(u0.periodWindow, t)
    requires u.periodWindow.window == u0.periodWindow.window && u.maxValue == u0.maxValue
    requires u.periodWindow.start == u0.periodWindow.start + k * u0.periodWindow.window.Length()
    requires u.periodWindow.end == u0.periodWindow.end + k * u0.periodWindow.window.Length()
    ensures Sane(u, t)
    ensures var r := RollOver(u, t).0;
            var d := WindowsPassed(u0.periodWindow, t) * u0.periodWindow.window.Length();
            && r.leftHits == r.maxValue == u0.maxValue && r.periodWindow.window == u0.periodWindow.window
            && r.periodWindow.start == u0.periodWindow.start + d && r.periodWindow.end == u0.periodWindow.end + d
  {
    var p0 := u0.periodWindow;
    AheadOfWindow(t - p0.start, p0.window.Length(), k);
    LengthAtMostYear(p0.window);
    RollShape(u, t);
    assert WindowsPassed(u.periodWindow, t) == WindowsPassed(p0, t) - k by {
      assert t - u.periodWindow.start == t - p0.start - k * p0.window.Length();
    }
  }

  /** Rolled to the time of the next request, the cached report is the fixed window of that time. */
  lemma RollsToIndex(u0: UsageReport, m: string, log: seq<Request>, u: UsageReport, t: Duration)
    requires Mirrors(u0, m, log, u) && Before(log, t) && Steady(u0, t) && OffBoundary(u0, t) && Timely(t)
    ensures Sane(u, t)
    ensures var w := Index(u0, t);
            var d := w * u0.periodWindow.window.Length();
            var r := RollOver(u, t).0;
            && r.leftHits == Left(log, m, u0, w) && r.maxValue == u0.maxValue
            && r.periodWindow.window == u0.periodWindow.window
            && r.periodWindow.start == u0.periodWindow.start + d && r.periodWindow.end == u0.periodWindow.end + d
  {
    var k, w := LastUsed(log, m, u0), Index(u0, t);
    LastUsedBefore(log, m, u0, t);
    if k < w {
      WindowAhead(u0, u, k, t);
      NothingSpentLater(log, m, u0, w);
    } else if Expired(u0.periodWindow, t) {
      InsideWindow(t - u0.periodWindow.start, u0.periodWindow.window.Length());
    }
  }

  lemma LengthAtMostYear(window: Period)
    requires window != Eternity
    ensures window.Length() <= Year.Length()
  {
  }

  lemma LogGrows(log: seq<Request>, r: Request, m: string, u: UsageReport, window: int)
    ensures Spent(log + [r], m, u, window)
         == Spent(log, m, u, window) + (if m in r.hits && Index(u, r.at) == window then r.hits[m] else 0)
    ensures var before := LastUsed(log, m, u);
            LastUsed(log + [r], m, u) == if m in r.hits && before < Index(u, r.at) then Index(u, r.at) else before
  {
    assert (log + [r])[..|log + [r]| - 1] == log;
  }

  /** The eager limiter's question, asked of the cached reports. */
  lemma SameQuestion(usage0: Usage, log: seq<Request>, usage: Usage, r: Request)
    requires MirrorsAll(usage0, log, usage) && Before(log, r.at) && Suits(usage0, r) && Listed(r)
    ensures AllSane(r.order, usage, r.at)
    ensures AllAffordable(r.order, r.hits, usage, r.at) <==> EagerAllows(usage0, log, r)
  {
    forall m | m in r.hits && m in usage0
      ensures Matched(m, r.order, usage) && Sane(usage[m], r.at)
      ensures RollOver(usage[m], r.at).0.leftHits == Left(log, m, usage0[m], Index(usage0[m], r.at))
    {
      RollsToIndex(usage0[m], m, log, usage[m], r.at);
    }
    assert forall m :: Matched(m, r.order, usage) ==> m in r.hits && m in usage0;
  }

  lemma MetricMirrors(u0: UsageReport, m: string, log: seq<Request>, u: UsageReport, r: Request)
    requires Mirrors(u0, m, log, u) && Before(log, r.at)
    requires m in r.hits ==> Steady(u0, r.at) && OffBoundary(u0, r.at) && Timely(r.at) && Affordable(u, r.hits[m], r.at)
    ensures Mirrors(u0, m, log + [r], if m in r.hits then Charged(u, r.hits[m], r.at) else u)
  {
    LogGrows(log, r, m, u0, LastUsed(log + [r], m, u0));
    if m in r.hits {
      RollsToIndex(u0, m, log, u, r.at);
      LastUsedBefore(log, m, u0, r.at);
    }
  }

  /** One request: the code and the eager limiter decide alike, and the cache keeps mirroring the log. */
  lemma ServeMirrors(usage0: Usage, log: seq<Request>, usage: Usage, r: Request)
    requires MirrorsAll(usage0, log, usage) && Before(log, r.at) && Suits(usage0, r)
    requires Listed(r)
    ensures Serve(usage, r).1 == EagerAllows(usage0, log, r)
    ensures MirrorsAll(usage0, if Serve(usage, r).1 then log + [r] else log, Serve(usage, r).0)
  {
    SameQuestion(usage0, log, usage, r);
    CheckOutcome(r.order, r.hits, usage, r.at, NO_INFO);
    if AllAffordable(r.order, r.hits, usage, r.at) {
      var after := ChargedAll(r.order, r.hits, usage, r.at);
      forall m | m in usage0 ensures Mirrors(usage0[m], m, log + [r], after[m]) {
        assert Matched(m, r.order, usage) <==> m in r.hits;
        MetricMirrors(usage0[m], m, log, usage[m], r);
      }
    }
  }

  lemma {:induction false} RunsAgree(usage0: Usage, log: seq<Request>, usage: Usage, rs: seq<Request>)
    requires MirrorsAll(usage0, log, usage) && InOrder(rs)
    requires forall r :: r in rs ==> Listed(r)
    requires forall r :: r in rs ==> Suits(usage0, r) && Before(log, r.at)
    ensures LazyRun(usage, rs) == EagerRun(usage0, log, rs)
    decreases |rs|
  {
    if rs != [] {
      assert rs[0] in rs;
      ServeMirrors(usage0, log, usage, rs[0]);
      var log' := if Serve(usage, rs[0]).1 then log + [rs[0]] else log;
      forall r | r in rs[1..] ensures Suits(usage0, r) && Before(log', r.at) {
        var i :| 0 <= i < |rs[1..]| && rs[1..][i] == r;
        assert rs[i + 1] == r && rs[0].at <= r.at;
      }
      RunsAgree(usage0, log', Serve(usage, rs[0]).0, rs[1..]);
    }
  }

  /** The refinement: over every run of requests in time order, on an application fetched with one-window
      windows, off exact window boundaries, the code decides every request as the fixed-window limiter does. */
  lemma LazyRefinesEager(usage: Usage, rs: seq<Request>)
    requires InOrder(rs) && (forall r :: r in rs ==> Listed(r)) && (forall r :: r in rs ==> Suits(usage, r))
    ensures LazyRun(usage, rs) == EagerRun(usage, [], rs)
  {
    RunsAgree(usage, [], usage, rs);
  }

  /** On a boundary: the whole windows passed, and those passed an instant before. */
  lemma OnBoundary(u: UsageReport, t: Duration)
    requires u.periodWindow.end == u.periodWindow.start + u.periodWindow.window.Length()
    requires Expired(u.periodWindow, t) && !OffBoundary(u, t)
    ensures var p := u.periodWindow;
            var w := Index(u, t);
            && 2 <= w && t == p.start + w * p.window.Length() && Expired(p, t - 1) && Index(u, t - 1) == w - 1
            && w * p.window.Length() == (w - 1) * p.window.Length() + p.window.Length()
  {
    var p := u.periodWindow;
    var length := p.window.Length();
    var w := Index(u, t);
    DivBounds(t - p.start, length);
    if w < 2 {
      MulMono(length, w, 1);
    }
    assert w * length == (w - 1) * length + length;
    MulMono(length, 2, w);
    DivUnique(t - 1 - p.start, length, w - 1);
  }

  /** What the first of two requests leaves behind if it uses up the window that ends at `t`. */
  lemma UsedUp(u: UsageReport, t: Duration) returns (u1: UsageReport)
    requires u.periodWindow.end == u.periodWindow.start + u.periodWindow.window.Length()
    requires Expired(u.periodWindow, t) && !OffBoundary(u, t)
    ensures Charge(u, u.maxValue, t - 1, NO_INFO).0 == u1 && Charge(u, u.maxValue, t - 1, NO_INFO).1.Passed?
    ensures u1.periodWindow.end == t && u1.leftHits == 0 && Charge(u1, 1, t, NO_INFO).1.Limited?
  {
    OnBoundary(u, t);
    RollShape(u, t - 1);
    u1 := Shifted(u, Index(u, t) - 1).(leftHits := 0);
  }

  lemma LazyRefuses(m: string, u: UsageReport, t: Duration, a: Request, b: Request)
    requires u.periodWindow.end == u.periodWindow.start + u.periodWindow.window.Length()
    requires Expired(u.periodWindow, t) && !OffBoundary(u, t) && 1 <= t
    requires a == Request(t - 1, map[m := u.maxValue], [m]) && b == Request(t, map[m := 1], [m])
    ensures LazyRun(map[m := u], [a, b]) == [true, false]
  {
    var u1 := UsedUp(u, t);
    ServeOne(m, u, a);
    ServeOne(m, u1, b);
    assert [a, b][1..] == [b] && [b][1..] == [];
    assert LazyRun(map[m := u1], [b]) == [false];
  }

  lemma EagerAuthorizes(m: string, u: UsageReport, t: Duration, a: Request, b: Request)
    requires u.periodWindow.end == u.periodWindow.start + u.periodWindow.window.Length()
    requires Expired(u.periodWindow, t) && !OffBoundary(u, t) && 1 <= u.maxValue && 1 <= t
    requires a == Request(t - 1, map[m := u.maxValue], [m]) && b == Request(t, map[m := 1], [m])
    ensures EagerRun(map[m := u], [], [a, b]) == [true, true]
  {
    var usage := map[m := u];
    OnBoundary(u, t);
    assert [a, b][1..] == [b] && [b][1..] == [];
    assert [] + [a] == [a];
    LogGrows([], a, m, u, Index(u, t));
    assert EagerAllows(usage, [], a) && EagerAllows(usage, [a], b);
    assert EagerRun(usage, [a], [b]) == [true];
    assert EagerRun(usage, [], [a, b]) == [true] + EagerRun(usage, [] + [a], [b]);
  }

  /** The condition on boundaries cannot be given up for any metric or any boundary: at the very end of a
      window that was used up, the code still charges that window, and the fixed-window limiter the next. */
  lemma BoundaryDiffers(m: string, u: UsageReport, t: Duration)
    requires u.periodWindow.end == u.periodWindow.start + u.periodWindow.window.Length()
    requires Expired(u.periodWindow, t) && !OffBoundary(u, t) && 1 <= u.maxValue
    ensures var a, b := Request(t - 1, map[m := u.maxValue], [m]), Request(t, map[m := 1], [m]);
            LazyRun(map[m := u], [a, b]) == [true, false] && EagerRun(map[m := u], [], [a, b]) == [true, true]
  {
    var a, b := Request(t - 1, map[m := u.maxValue], [m]), Request(t, map[m := 1], [m]);
    LazyRefuses(m, u, t, a, b);
    EagerAuthorizes(m, u, t, a, b);
  }

  /** A request on one metric of an application that has no other. */
  lemma ServeOne(m: string, u: UsageReport, r: Request)
    requires r.order == [m] && m in r.hits
    ensures var (after, v) := Charge(u, r.hits[m], r.at, NO_INFO);
            Serve(map[m := u], r) == (if v.Passed? then map[m := after] else map[m := u], v.Passed?)
  {
    var (after, v) := Charge(u, r.hits[m], r.at, NO_INFO);
    assert r.order[1..] == [];
    assert map[m := u][m := after] == map[m := after];
    assert v.Passed? ==> Check([], r.hits, map[m := after], r.at, v.info) == (map[m := after], Passed(v.info));
  }
}
