/** The limit check: windows are rolled forward when a request finds them expired, the request's hits are
    taken from what is left, and the tightest limit is reported. */
module RateLimit {
  import opened Wrappers
  import opened DivMod

  const NANOS: nat := 1_000_000_000
  const U64_MAX: nat := 0xFFFF_FFFF_FFFF_FFFF
  const DURATION_MAX: nat := U64_MAX * NANOS + 999_999_999

  /** A point in time or a span, in nanoseconds; the largest is that of a 64-bit second count. */
  type Duration = d: nat | d <= DURATION_MAX

  function AsSecs(d: Duration): (s: nat)
    ensures s <= U64_MAX
  {
    d / NANOS
  }

  function FromSecs(s: nat): Duration
    requires s <= U64_MAX
  {
    s * NANOS
  }

  function CheckedAdd(a: Duration, b: Duration): Option<Duration> {
    if a + b <= DURATION_MAX then Some(a + b) else None
  }

  function CheckedSub(a: Duration, b: Duration): Option<Duration> {
    if b <= a then Some(a - b) else None
  }

  datatype Period = Minute | Hour | Day | Week | Month | Year | Eternity {
    function AsSecs(): (s: nat)
      ensures 0 < s
    {
      match this
      case Minute => 60
      case Hour => 3600
      case Day => 86400
      case Week => 604800
      case Month => 2592000
      case Year => 31536000
      case Eternity => U64_MAX
    }

    /** The window length in nanoseconds. */
    function Length(): (n: nat)
      ensures 0 < n
    {
      AsSecs() * NANOS
    }
  }

  datatype PeriodWindow = PeriodWindow(start: Duration, end: Duration, window: Period)

  datatype UsageReport = UsageReport(periodWindow: PeriodWindow, leftHits: nat, maxValue: nat)

  datatype RateLimitInfo = RateLimitInfo(limit: Option<nat>, remaining: Option<nat>, reset: Option<nat>)

  const NO_INFO := RateLimitInfo(None, None, None)

  /** How the check ends: not limited so far; limited; a duration overflowed; or the unwrapped
      subtraction of the current time from the window's end failed. */
  datatype Verdict =
    | Passed(info: RateLimitInfo)
    | Limited(info: RateLimitInfo)
    | DurationOverflow
    | Panicked

  type Usage = map<string, UsageReport>

  predicate Expired(p: PeriodWindow, now: Duration) {
    p.window != Eternity && p.end < now
  }

  /** The window made current, and whether no duration overflowed on the way. */
  function RollOver(u: UsageReport, now: Duration): (r: (UsageReport, bool)) {
    var p := u.periodWindow;
    if !Expired(p, now) then (u, true)
    else
      match CheckedSub(now, p.start)
      case None => (u, false)
      case Some(timeDiff) =>
        NumWindowsFit(timeDiff, p.window);
        var toAdd := FromSecs(NumWindows(timeDiff, p.window) * p.window.AsSecs());
        match CheckedAdd(p.start, toAdd)
        case None => (u, false)
        case Some(start) =>
          match CheckedAdd(p.end, toAdd)
          case None => (u.(periodWindow := p.(start := start)), false)
          case Some(end) => (UsageReport(PeriodWindow(start, end, p.window), u.maxValue, u.maxValue), true)
  }

  function NumWindows(timeDiff: Duration, window: Period): nat {
    AsSecs(timeDiff) / window.AsSecs()
  }

  lemma NumWindowsFit(timeDiff: Duration, window: Period)
    ensures NumWindows(timeDiff, window) * window.AsSecs() <= U64_MAX
  {
    DivBounds(AsSecs(timeDiff), window.AsSecs());
  }

  /** One metric of the request, in a window that is current. */
  function Take(u: UsageReport, hits: nat, now: Duration, info: RateLimitInfo): (r: (UsageReport, Verdict)) {
    var end := u.periodWindow.end;
    if u.leftHits < hits then
      if end < now then (u, Panicked)
      else (u, Limited(RateLimitInfo(Some(u.maxValue), Some(0), Some(AsSecs(end - now)))))
    else
      var taken := u.(leftHits := u.leftHits - hits);
      if info.limit.None? || u.maxValue < info.limit.value then
        if end < now then (taken, Panicked)
        else (taken, Passed(RateLimitInfo(Some(u.maxValue), Some(taken.leftHits), Some(AsSecs(end - now)))))
      else (taken, Passed(info))
  }

  function Charge(u: UsageReport, hits: nat, now: Duration, info: RateLimitInfo): (r: (UsageReport, Verdict)) {
    var (rolled, ok) := RollOver(u, now);
    if ok then Take(rolled, hits, now, info) else (rolled, DurationOverflow)
  }

  /** The whole check, over the request's metrics in the order the hash map yields them. */
  function Check(order: seq<string>, hits: map<string, nat>, usage: Usage, now: Duration, info: RateLimitInfo)
    : (r: (Usage, Verdict))
    requires forall m :: m in order ==> m in hits
    decreases |order|
  {
    if order == [] then (usage, Passed(info))
    else if order[0] in usage then
      var (u, v) := Charge(usage[order[0]], hits[order[0]], now, info);
      if v.Passed? then Check(order[1..], hits, usage[order[0] := u], now, v.info)
      else (usage[order[0] := u], v)
    else Check(order[1..], hits, usage, now, info)
  }

  /** An order in which a hash map may be walked: every key, once. */
  predicate Enumerates(order: seq<string>, hits: map<string, nat>) {
    && (forall m :: m in order ==> m in hits)
    && (forall m :: m in hits ==> m in order)
    && (forall i, j :: 0 <= i < j < |order| ==> order[i] != order[j])
  }

  /** A request: when it came, what it uses, and the order in which the hash map yields its metrics. */
  datatype Request = Request(at: Duration, hits: map<string, nat>, order: seq<string>)

  predicate WellFormed(r: Request) {
    Enumerates(r.order, r.hits)
  }

  /** The order names only metrics of the request. */
  predicate Listed(r: Request) {
    forall m :: m in r.order ==> m in r.hits
  }

  /** The request's own copy of the cached application. */
  class Application {
    var localState: Usage

    constructor (localState: Usage)
      ensures this.localState == localState
    {
      this.localState := localState;
    }
  }

  /** The window's part of one round of the loop: start, end and quota are each changed in place. */
  method RollInPlace(app: Application, metric: string, currentTime: Duration) returns (ok: bool)
    requires metric in app.localState
    modifies app
    ensures app.localState == old(app.localState)[metric := RollOver(old(app.localState)[metric], currentTime).0]
    ensures ok == RollOver(old(app.localState)[metric], currentTime).1
  {
    var report := app.localState[metric];
    assert app.localState[metric := report] == app.localState;
    var period := report.periodWindow;
    if period.window != Eternity && period.end < currentTime {
      if currentTime < period.start {
        return false;
      }
      var timeDiff := currentTime - period.start;
      NumWindowsFit(timeDiff, period.window);
      var numWindows := AsSecs(timeDiff) / period.window.AsSecs();
      var secondsToAdd := numWindows * period.window.AsSecs();
      var start := CheckedAdd(period.start, FromSecs(secondsToAdd));
      if start.None? {
        return false;
      }
      period := period.(start := start.value);
      report := report.(periodWindow := period);
      app.localState := app.localState[metric := report];
      var end := CheckedAdd(period.end, FromSecs(secondsToAdd));
      if end.None? {
        return false;
      }
      period := period.(end := end.value);
      report := report.(periodWindow := period, leftHits := report.maxValue);
      app.localState := app.localState[metric := report];
    }
    return true;
  }

  /** The loop of `limit_check_and_update_application`, changing the application in place. */
  method LimitCheck(metrics: map<string, nat>, order: seq<string>, app: Application, currentTime: Duration)
    returns (verdict: Verdict)
    requires Enumerates(order, metrics)
    modifies app
    ensures (app.localState, verdict) == Check(order, metrics, old(app.localState), currentTime, NO_INFO)
  {
    var info := NO_INFO;
    for i := 0 to |order|
      invariant Check(order, metrics, old(app.localState), currentTime, NO_INFO)
             == Check(order[i..], metrics, app.localState, currentTime, info)
    {
      var metric, hits := order[i], metrics[order[i]];
      assert order[i..][0] == metric && order[i..][1..] == order[i + 1..];
      if metric in app.localState {
        ghost var before := app.localState;
        var ok := RollInPlace(app, metric, currentTime);
        if !ok {
          return DurationOverflow;
        }
        var report := app.localState[metric];
        var end := report.periodWindow.end;
        if report.leftHits < hits {
          if end < currentTime {
            return Panicked;
          }
          return Limited(RateLimitInfo(Some(report.maxValue), Some(0), Some(AsSecs(end - currentTime))));
        }
        report := report.(leftHits := report.leftHits - hits);
        app.localState := app.localState[metric := report];
        assert app.localState == before[metric := report];
        if info.limit.None? || report.maxValue < info.limit.value {
          if end < currentTime {
            return Panicked;
          }
          info := RateLimitInfo(Some(report.maxValue), Some(report.leftHits), Some(AsSecs(end - currentTime)));
        }
      }
    }
    return Passed(info);
  }

  // ---------------------------------------------------------------------------------------------
  // Rolling a window forward.
  // ---------------------------------------------------------------------------------------------

  /** Whole windows between the window's start and now, in nanoseconds. */
  function WindowsPassed(p: PeriodWindow, now: Duration): int {
    (now - p.start) / p.window.Length()
  }

  /** Dropping fractions of seconds on the way loses nothing. */
  lemma SecondsSuffice(p: PeriodWindow, now: Duration)
    requires p.start <= now
    ensures var k := WindowsPassed(p, now);
            && 0 <= k == NumWindows(now - p.start, p.window)
            && k * p.window.Length() <= now - p.start < k * p.window.Length() + p.window.Length()
            && (now - p.start) % p.window.Length() == now - p.start - k * p.window.Length()
  {
    FloorTwice(now - p.start, p.window.AsSecs());
  }

  lemma FloorTwice(d: nat, s: nat)
    requires 0 < s
    ensures var k := d / (s * NANOS);
            && 0 <= k == d / NANOS / s
            && k * (s * NANOS) <= d < k * (s * NANOS) + s * NANOS && d % (s * NANOS) == d - k * (s * NANOS)
  {
    DivDiv(d, NANOS, s);
    DivBounds(d, s * NANOS);
  }

  function Shifted(u: UsageReport, k: nat): (r: UsageReport)
    requires u.periodWindow.start + k * u.periodWindow.window.Length() <= DURATION_MAX
    requires u.periodWindow.end + k * u.periodWindow.window.Length() <= DURATION_MAX
  {
    var p := u.periodWindow;
    var d := k * p.window.Length();
    UsageReport(PeriodWindow(p.start + d, p.end + d, p.window), u.maxValue, u.maxValue)
  }

  /** A roll moves an expired window by the whole windows passed; only its end can overflow. */
  lemma RollShape(u: UsageReport, now: Duration)
    requires Expired(u.periodWindow, now) && u.periodWindow.start <= now
    ensures var k := WindowsPassed(u.periodWindow, now);
            var d := k * u.periodWindow.window.Length();
            && 0 <= k && u.periodWindow.start + d <= now
            && (RollOver(u, now).1 <==> u.periodWindow.end + d <= DURATION_MAX)
            && (RollOver(u, now).1 ==> RollOver(u, now).0 == Shifted(u, k))
  {
    var p := u.periodWindow;
    var k := NumWindows(now - p.start, p.window);
    SecondsSuffice(p, now);
    NumWindowsFit(now - p.start, p.window);
    FromSecsOfWindows(k, p.window);
  }

  lemma FromSecsOfWindows(k: nat, window: Period)
    requires k * window.AsSecs() <= U64_MAX
    ensures FromSecs(k * window.AsSecs()) == k * window.Length()
  {
    assert (k * window.AsSecs()) * NANOS == k * (window.AsSecs() * NANOS);
  }

  /** If the stored window is at least one window long, rolling an expired one moves it forward by a
      positive number of whole windows and keeps its length, and the current time falls within one window
      of the new start and not after the new end. The quota is full again. */
  lemma RollCatchesUp(u: UsageReport, now: Duration) returns (k: nat)
    requires Expired(u.periodWindow, now) && RollOver(u, now).1
    requires u.periodWindow.end - u.periodWindow.start >= u.periodWindow.window.Length()
    ensures var p := u.periodWindow;
            var r := RollOver(u, now).0;
            var q := r.periodWindow;
            && 1 <= k && q.start == p.start + k * p.window.Length() && q.end - q.start == p.end - p.start
            && q.start <= now < q.start + p.window.Length() <= q.end && q.window == p.window
            && r.leftHits == r.maxValue == u.maxValue
  {
    SecondsSuffice(u.periodWindow, now);
    RollShape(u, now);
    k := WindowsPassed(u.periodWindow, now);
    assert k == 0 ==> k * u.periodWindow.window.Length() == 0;
  }

  /** When the code's remark that at least one window has passed is true: exactly when a full window
      length has passed since the start, which the expiry test alone does not say. */
  lemma AtLeastOneWindowIff(u: UsageReport, now: Duration)
    requires Expired(u.periodWindow, now) && u.periodWindow.start <= now
    ensures 1 <= NumWindows(now - u.periodWindow.start, u.periodWindow.window)
       <==> u.periodWindow.start + u.periodWindow.window.Length() <= now
  {
    SecondsSuffice(u.periodWindow, now);
    var k := WindowsPassed(u.periodWindow, now);
    if 1 <= k {
      MulMono(u.periodWindow.window.Length(), 1, k);
    } else {
      assert 0 * u.periodWindow.window.Length() == 0;
    }
  }

  /** When the unwrapped subtraction behind RateLimit-Reset is defined: exactly when what is left of the
      current time after whole windows fits into the stored window; without a roll, when it has not ended. */
  lemma ResetIsDefinedIff(u: UsageReport, now: Duration)
    requires RollOver(u, now).1
    ensures var p := u.periodWindow;
            now <= RollOver(u, now).0.periodWindow.end
            <==> if Expired(p, now) then (now - p.start) % p.window.Length() <= p.end - p.start else now <= p.end
  {
    if Expired(u.periodWindow, now) {
      SecondsSuffice(u.periodWindow, now);
      RollShape(u, now);
    }
  }

  /** A month is 30 days to the window arithmetic, so a 28-day month one day over does not roll at all,
      and the subtraction fails, whether or not the request is within its limit. */
  lemma ShortMonthPanics(hits: nat, left: nat, max: nat)
    ensures var day := 86400 * NANOS;
            var u := UsageReport(PeriodWindow(0, 28 * day, Month), left, max);
            RollOver(u, 29 * day).0.periodWindow == u.periodWindow
            && Charge(u, hits, 29 * day, NO_INFO).1 == Panicked
  {
    var day := 86400 * NANOS;
    var u := UsageReport(PeriodWindow(0, 28 * day, Month), left, max);
    RollShape(u, 29 * day);
    assert 0 * Month.Length() == 0;
    DivUnique(29 * day, Month.Length(), 0);
  }

  /** Rolling twice at one time is rolling once. */
  lemma RollIsIdempotent(u: UsageReport, now: Duration)
    requires u.periodWindow.end - u.periodWindow.start >= u.periodWindow.window.Length() && RollOver(u, now).1
    ensures RollOver(RollOver(u, now).0, now) == RollOver(u, now)
  {
    if Expired(u.periodWindow, now) {
      var k := RollCatchesUp(u, now);
    }
  }

  lemma TwoRolls(d1: nat, d2: nat, length: nat)
    requires 0 < length <= d1 <= d2
    ensures 1 <= d1 / length <= d2 / length && (d1 / length) * length <= d1
  {
    DivBounds(d1, length);
    DivBounds(d2, length);
    if d1 / length < 1 {
      MulMono(length, d1 / length, 0);
    }
    if d2 / length < d1 / length {
      MulMono(length, d2 / length + 1, d1 / length);
    }
  }

  /** Path independence, exactly: rolling at `t1` and again at a later `t2` differs from one roll at `t2`
      only if the first roll moved the window and `t2` is that window's very end. */
  lemma RollIsPathIndependentIff(u: UsageReport, t1: Duration, t2: Duration)
    requires u.periodWindow.end == u.periodWindow.start + u.periodWindow.window.Length()
    requires t1 <= t2 && RollOver(u, t2).1
    ensures RollOver(u, t1).1
    ensures RollOver(RollOver(u, t1).0, t2) == RollOver(u, t2)
       <==> !(Expired(u.periodWindow, t1) && t2 == RollOver(u, t1).0.periodWindow.end)
  {
    if Expired(u.periodWindow, t1) {
      RollShape(u, t1);
      RollShape(u, t2);
      TwoRolls(t1 - u.periodWindow.start, t2 - u.periodWindow.start, u.periodWindow.window.Length());
      MulMono(u.periodWindow.window.Length(), WindowsPassed(u.periodWindow, t1), WindowsPassed(u.periodWindow, t2));
      SecondRoll(u, WindowsPassed(u.periodWindow, t1), t2);
    }
  }

  /** The second of two rolls, from the `k`-th window on. */
  lemma SecondRoll(u: UsageReport, k: nat, t: Duration)
    requires var p := u.periodWindow; p.end == p.start + p.window.Length() && Expired(p, t) && RollOver(u, t).1
    requires u.periodWindow.start + k * u.periodWindow.window.Length() <= t
    requires u.periodWindow.end + k * u.periodWindow.window.Length() <= DURATION_MAX
    ensures RollOver(Shifted(u, k), t) == RollOver(u, t)
       <==> t != u.periodWindow.end + k * u.periodWindow.window.Length()
  {
    var p := u.periodWindow;
    var length := p.window.Length();
    var r := Shifted(u, k);
    RollShape(u, t);
    ShiftedWindows(t - p.start, length, k);
    if Expired(r.periodWindow, t) {
      RollShape(r, t);
      assert t - r.periodWindow.start == t - p.start - k * length;
    }
  }

  lemma ShiftedWindows(d: int, length: int, k: nat)
    requires 0 < length && k * length <= d
    ensures var rest := d - k * length;
            && rest / length == d / length - k && k * length + (rest / length) * length == (d / length) * length
            && (rest < length ==> d / length == k) && (rest == length ==> d / length == k + 1)
            && (k + 1) * length == k * length + length
  {
    DivShift(d, length, k);
    if d - k * length < length {
      DivUnique(d - k * length, length, 0);
    } else if d - k * length == length {
      DivUnique(d - k * length, length, 1);
    }
  }

  // ---------------------------------------------------------------------------------------------
  // The outcome of the whole check.
  // ---------------------------------------------------------------------------------------------

  /** Nothing goes wrong with this metric's window: no overflow, and it does not end before now. */
  predicate Sane(u: UsageReport, now: Duration) {
    RollOver(u, now).1 && now <= RollOver(u, now).0.periodWindow.end
  }

  /** The metrics of the request that the application knows. */
  predicate Matched(m: string, order: seq<string>, usage: Usage) {
    m in order && m in usage
  }

  ghost predicate AllSane(order: seq<string>, usage: Usage, now: Duration) {
    forall m :: Matched(m, order, usage) ==> Sane(usage[m], now)
  }

  predicate Affordable(u: UsageReport, hits: nat, now: Duration) {
    hits <= RollOver(u, now).0.leftHits
  }

  /** The report after an authorized request. */
  function Charged(u: UsageReport, hits: nat, now: Duration): (r: UsageReport)
    requires Affordable(u, hits, now)
  {
    var rolled := RollOver(u, now).0;
    rolled.(leftHits := rolled.leftHits - hits)
  }

  ghost predicate AllAffordable(order: seq<string>, hits: map<string, nat>, usage: Usage, now: Duration)
    requires forall m :: m in order ==> m in hits
  {
    forall m :: Matched(m, order, usage) ==> Affordable(usage[m], hits[m], now)
  }

  function ChargedAll(order: seq<string>, hits: map<string, nat>, usage: Usage, now: Duration): Usage
    requires forall m :: m in order ==> m in hits
    requires AllAffordable(order, hits, usage, now)
  {
    map m | m in usage :: if Matched(m, order, usage) then Charged(usage[m], hits[m], now) else usage[m]
  }

  /** The headers that speak of this metric. */
  function InfoOf(u: UsageReport, remaining: nat, now: Duration): RateLimitInfo
    requires now <= u.periodWindow.end
  {
    RateLimitInfo(Some(u.maxValue), Some(remaining), Some(AsSecs(u.periodWindow.end - now)))
  }

  /** The headers after an authorized request: those of a metric with the smallest limit, or what they
      were if no limit is smaller. */
  ghost predicate Tightest(info: RateLimitInfo, from: RateLimitInfo, order: seq<string>, usage: Usage, after: Usage, now: Duration) {
    if forall m :: Matched(m, order, usage) ==> from.limit.Some? && from.limit.value <= usage[m].maxValue
    then info == from
    else exists m :: Matched(m, order, usage) && Names(info, m, after, now)
                     && (from.limit.Some? ==> usage[m].maxValue < from.limit.value)
                     && (forall n :: Matched(n, order, usage) ==> usage[m].maxValue <= usage[n].maxValue)
  }

  predicate Names(info: RateLimitInfo, m: string, after: Usage, now: Duration) {
    m in after && now <= after[m].periodWindow.end && info == InfoOf(after[m], after[m].leftHits, now)
  }

  /** The headers of a refusal: those of some metric that cannot afford its hits, with nothing left. */
  ghost predicate Refuses(info: RateLimitInfo, order: seq<string>, hits: map<string, nat>, usage: Usage, now: Duration)
    requires forall m :: m in order ==> m in hits
  {
    exists m :: Matched(m, order, usage) && Sane(usage[m], now) && !Affordable(usage[m], hits[m], now)
                && info == InfoOf(RollOver(usage[m], now).0, 0, now)
  }

  ghost predicate Distinct(order: seq<string>) {
    forall i, j :: 0 <= i < j < |order| ==> order[i] != order[j]
  }

  /** One known metric. */
  lemma ChargeOne(u: UsageReport, hits: nat, now: Duration, info: RateLimitInfo)
    requires Sane(u, now)
    ensures if Affordable(u, hits, now) then
              var after := Charged(u, hits, now);
              var info' := if info.limit.None? || u.maxValue < info.limit.value
                           then InfoOf(after, after.leftHits, now) else info;
              Charge(u, hits, now, info) == (after, Passed(info'))
            else
              var rolled := RollOver(u, now).0;
              Charge(u, hits, now, info) == (rolled, Limited(InfoOf(rolled, 0, now)))
    ensures RollOver(u, now).0.maxValue == u.maxValue
  {
  }

  /** Headers that are tightest for the rest, after one more metric, are tightest for all. */
  lemma TightestStep(info: RateLimitInfo, mid: RateLimitInfo, from: RateLimitInfo, order: seq<string>,
                     usage: Usage, usage': Usage, after: Usage, now: Duration)
    requires order != [] && order[0] in usage && order[0] !in order[1..]
    requires usage'.Keys == usage.Keys && (forall m :: m in usage ==> usage'[m].maxValue == usage[m].maxValue)
    requires if from.limit.None? || usage[order[0]].maxValue < from.limit.value
             then Names(mid, order[0], after, now) && mid.limit == Some(usage[order[0]].maxValue)
             else mid == from
    requires Tightest(info, mid, order[1..], usage', after, now)
    ensures Tightest(info, from, order, usage, after, now)
  {
    var first, rest := order[0], order[1..];
    assert forall m :: Matched(m, order, usage) <==> m == first || Matched(m, rest, usage');
    if forall m :: Matched(m, rest, usage') ==> mid.limit.Some? && mid.limit.value <= usage'[m].maxValue {
      if mid != from || from.limit.None? || usage[first].maxValue < from.limit.value {
        assert Matched(first, order, usage) && Names(info, first, after, now);
      }
    } else {
      var m :| Matched(m, rest, usage') && Names(info, m, after, now)
               && (mid.limit.Some? ==> usage'[m].maxValue < mid.limit.value)
               && (forall n :: Matched(n, rest, usage') ==> usage'[m].maxValue <= usage'[n].maxValue);
      assert Matched(m, order, usage);
    }
  }

  /** What the check does, whatever the order, when no window goes wrong: it authorizes if and only if every
      known metric can afford its hits; then it has charged exactly the known metrics of the request. */
  lemma {:induction false} CheckOutcome(order: seq<string>, hits: map<string, nat>, usage: Usage, now: Duration, info: RateLimitInfo)
    requires (forall m :: m in order ==> m in hits) && Distinct(order) && AllSane(order, usage, now)
    ensures var (after, v) := Check(order, hits, usage, now, info);
            if AllAffordable(order, hits, usage, now) then
              v.Passed? && after == ChargedAll(order, hits, usage, now)
              && Tightest(v.info, info, order, usage, after, now)
            else v.Limited? && Refuses(v.info, order, hits, usage, now)
    decreases |order|
  {
    if order == [] {
      assert ChargedAll(order, hits, usage, now) == usage;
    } else {
      var first, rest := order[0], order[1..];
      assert forall m :: m in order <==> m == first || m in rest;
      if first !in usage {
        assert forall m :: Matched(m, order, usage) <==> Matched(m, rest, usage);
        CheckOutcome(rest, hits, usage, now, info);
      } else {
        ChargeOne(usage[first], hits[first], now, info);
        assert Matched(first, order, usage);
        if Affordable(usage[first], hits[first], now) {
          CheckRest(order, hits, usage, now, info);
        }
      }
    }
  }

  lemma {:induction false} CheckRest(order: seq<string>, hits: map<string, nat>, usage: Usage, now: Duration, info: RateLimitInfo)
    requires (forall m :: m in order ==> m in hits) && Distinct(order) && AllSane(order, usage, now)
    requires order != [] && order[0] in usage && Affordable(usage[order[0]], hits[order[0]], now)
    ensures var (after, v) := Check(order, hits, usage, now, info);
            if AllAffordable(order, hits, usage, now) then
              v.Passed? && after == ChargedAll(order, hits, usage, now)
              && Tightest(v.info, info, order, usage, after, now)
            else v.Limited? && Refuses(v.info, order, hits, usage, now)
    decreases |order|, 0
  {
    var first, rest := order[0], order[1..];
    var after := Charged(usage[first], hits[first], now);
    var usage' := usage[first := after];
    var mid := Charge(usage[first], hits[first], now, info).1.info;
    ChargeOne(usage[first], hits[first], now, info);
    assert forall m :: Matched(m, order, usage) <==> m == first || Matched(m, rest, usage');
    assert forall m :: m in rest && m in usage ==> usage'[m] == usage[m];
    CheckOutcome(rest, hits, usage', now, mid);
    var (end, v) := Check(rest, hits, usage', now, mid);
    assert (end, v) == Check(order, hits, usage, now, info);
    AffordableRest(order, hits, usage, now);
    if AllAffordable(order, hits, usage, now) {
      ChargedRest(order, hits, usage, now);
      TightestStep(v.info, mid, info, order, usage, usage', end, now);
    } else {
      var m :| Matched(m, rest, usage') && Sane(usage'[m], now) && !Affordable(usage'[m], hits[m], now)
               && v.info == InfoOf(RollOver(usage'[m], now).0, 0, now);
      assert Matched(m, order, usage);
    }
  }

  lemma AffordableRest(order: seq<string>, hits: map<string, nat>, usage: Usage, now: Duration)
    requires (forall m :: m in order ==> m in hits) && Distinct(order)
    requires order != [] && order[0] in usage && Affordable(usage[order[0]], hits[order[0]], now)
    ensures var usage' := usage[order[0] := Charged(usage[order[0]], hits[order[0]], now)];
            AllAffordable(order, hits, usage, now) <==> AllAffordable(order[1..], hits, usage', now)
  {
    var usage' := usage[order[0] := Charged(usage[order[0]], hits[order[0]], now)];
    assert forall m :: Matched(m, order, usage) <==> m == order[0] || Matched(m, order[1..], usage');
  }

  lemma ChargedRest(order: seq<string>, hits: map<string, nat>, usage: Usage, now: Duration)
    requires (forall m :: m in order ==> m in hits) && Distinct(order)
    requires order != [] && order[0] in usage && AllAffordable(order, hits, usage, now)
    requires Affordable(usage[order[0]], hits[order[0]], now)
    requires var usage' := usage[order[0] := Charged(usage[order[0]], hits[order[0]], now)];
             AllAffordable(order[1..], hits, usage', now)
    ensures var usage' := usage[order[0] := Charged(usage[order[0]], hits[order[0]], now)];
            ChargedAll(order[1..], hits, usage', now) == ChargedAll(order, hits, usage, now)
  {
    assert Matched(order[0], order, usage);
  }

  /** The headers of an authorized request: none if it has no known metric; otherwise those of one metric
      with the smallest limit among the known ones, at its new state. */
  ghost predicate SmallestLimit(info: RateLimitInfo, order: seq<string>, usage: Usage, after: Usage, now: Duration) {
    if forall m :: !Matched(m, order, usage) then info == NO_INFO
    else exists m :: Matched(m, order, usage) && Names(info, m, after, now) && after[m].maxValue == usage[m].maxValue
                     && (forall n :: Matched(n, order, usage) ==> usage[m].maxValue <= usage[n].maxValue)
  }

  lemma AuthorizedHeaders(order: seq<string>, hits: map<string, nat>, usage: Usage, now: Duration)
    requires Enumerates(order, hits) && AllSane(order, usage, now) && AllAffordable(order, hits, usage, now)
    ensures var (after, v) := Check(order, hits, usage, now, NO_INFO);
            v.Passed? && after == ChargedAll(order, hits, usage, now)
            && SmallestLimit(v.info, order, usage, after, now)
  {
    CheckOutcome(order, hits, usage, now, NO_INFO);
    var (after, v) := Check(order, hits, usage, now, NO_INFO);
    if n0 :| Matched(n0, order, usage) {
      var m :| Matched(m, order, usage) && Names(v.info, m, after, now)
               && (forall n :: Matched(n, order, usage) ==> usage[m].maxValue <= usage[n].maxValue);
      ChargeOne(usage[m], hits[m], now, NO_INFO);
    }
  }

  /** The order in which the hash map is walked does not matter: same decision, and if authorized the same
      final state and the same limit, the smallest of the known metrics of the request. */
  lemma OrderDoesNotMatter(o1: seq<string>, o2: seq<string>, hits: map<string, nat>, usage: Usage, now: Duration)
    requires Enumerates(o1, hits) && Enumerates(o2, hits) && AllSane(o1, usage, now)
    ensures var (after1, v1) := Check(o1, hits, usage, now, NO_INFO);
            var (after2, v2) := Check(o2, hits, usage, now, NO_INFO);
            && v1.Passed? == v2.Passed? && v1.Limited? == v2.Limited? == !v1.Passed?
            && (v1.Passed? ==> after1 == after2 && v1.info.limit == v2.info.limit)
  {
    assert forall m :: Matched(m, o1, usage) <==> Matched(m, o2, usage);
    if AllAffordable(o1, hits, usage, now) {
      AuthorizedHeaders(o1, hits, usage, now);
      AuthorizedHeaders(o2, hits, usage, now);
      assert ChargedAll(o1, hits, usage, now) == ChargedAll(o2, hits, usage, now);
    } else {
      CheckOutcome(o1, hits, usage, now, NO_INFO);
      CheckOutcome(o2, hits, usage, now, NO_INFO);
    }
  }
}
