/** The limit check once more, from outside: for every input, also one whose windows overflow or have ended,
    what becomes of the windows, of the request and of the headers, in seconds and report fields. */
module LimitOutcome {
  import opened Wrappers
  import opened DivMod
  import opened RateLimit

  // ---------------------------------------------------------------------------------------------
  // Windows.
  // ---------------------------------------------------------------------------------------------

  function Fetched(window: Period, start: Duration, end: Duration, left: nat, max: nat): (u: UsageReport) {
    UsageReport(PeriodWindow(start, end, window), left, max)
  }

  /** The length of a window: an ended report whose start is less than this ago stays where it is, and one
      whose start is at least this but less than twice this ago moves by exactly this; whenever it ended. */
  ghost predicate Lasts(window: Period, length: nat) {
    forall start: Duration, end: Duration, now: Duration, left, max :: start <= now && end < now ==>
      && (now < start + length ==>
            RollOver(Fetched(window, start, end, left, max), now) == (Fetched(window, start, end, max, max), true))
      && (start + length <= now < start + 2 * length && end + length < 18446744073709551616 * 1_000_000_000 ==>
            RollOver(Fetched(window, start, end, left, max), now)
            == (Fetched(window, start + length, end + length, max, max), true))
  }

  lemma LastsItsLength(window: Period)
    requires window != Eternity
    ensures Lasts(window, window.Length())
  {
    var length := window.Length();
    forall start: Duration, end: Duration, now: Duration, left, max | start <= now && end < now
      ensures now < start + length ==>
                RollOver(Fetched(window, start, end, left, max), now) == (Fetched(window, start, end, max, max), true)
      ensures start + length <= now < start + 2 * length && end + length < 18446744073709551616 * 1_000_000_000 ==>
                RollOver(Fetched(window, start, end, left, max), now)
                == (Fetched(window, start + length, end + length, max, max), true)
    {
      MovesByOne(Fetched(window, start, end, left, max), now, length);
    }
  }

  lemma MovesByOne(u: UsageReport, now: Duration, length: nat)
    requires Expired(u.periodWindow, now) && u.periodWindow.start <= now && length == u.periodWindow.window.Length()
    ensures var p := u.periodWindow;
            && (now < p.start + length ==> RollOver(u, now) == (u.(leftHits := u.maxValue), true))
            && (p.start + length <= now < p.start + 2 * length && p.end + length <= DURATION_MAX ==>
                  RollOver(u, now) == (Shifted(u, 1), true))
  {
    var d := now - u.periodWindow.start;
    RollShape(u, now);
    if d < length {
      DivUnique(d, length, 0);
    } else if d < 2 * length {
      DivUnique(d, length, 1);
    }
  }

  /** A minute lasts 60 seconds, an hour 60 minutes, a day 24 hours, a week 7 days, a month 30 days and a year
      365 days. */
  lemma PeriodLengths()
    ensures Lasts(Minute, 60 * 1_000_000_000)
    ensures Lasts(Hour, 60 * 60 * 1_000_000_000)
    ensures Lasts(Day, 24 * 60 * 60 * 1_000_000_000)
    ensures Lasts(Week, 7 * 24 * 60 * 60 * 1_000_000_000)
    ensures Lasts(Month, 30 * 24 * 60 * 60 * 1_000_000_000)
    ensures Lasts(Year, 365 * 24 * 60 * 60 * 1_000_000_000)
  {
    LastsItsLength(Minute);
    LastsItsLength(Hour);
    LastsItsLength(Day);
    LastsItsLength(Week);
    LastsItsLength(Month);
    LastsItsLength(Year);
  }

  /** Every case of a roll. A window that never expires, or has not ended, is left alone. An ended one that
      starts in the future fails and is left alone. Otherwise both ends move by the same number `k` of whole
      windows, up to the last start not after now, and the quota is full again; if the new end cannot be
      represented, only the start has moved and the roll fails. */
  lemma RollCases(u: UsageReport, now: Duration) returns (k: nat)
    ensures var p := u.periodWindow;
            var (r, ok) := RollOver(u, now);
            if p.window == Eternity || now <= p.end then r == u && ok
            else if now < p.start then r == u && !ok
            else
              var d := k * p.window.Length();
              && p.start + d <= now < p.start + d + p.window.Length()
              && (ok <==> p.end + d < 18446744073709551616 * 1_000_000_000)
              && r.periodWindow.start == p.start + d && r.periodWindow.window == p.window && r.maxValue == u.maxValue
              && r.periodWindow.end == (if ok then p.end + d else p.end)
              && r.leftHits == (if ok then u.maxValue else u.leftHits)
  {
    k := 0;
    var p := u.periodWindow;
    if p.window != Eternity && p.start <= now && p.end < now {
      k := NumWindows(now - p.start, p.window);
      SecondsSuffice(p, now);
      RollShape(u, now);
      NumWindowsFit(now - p.start, p.window);
      FromSecsOfWindows(k, p.window);
    }
  }

  // ---------------------------------------------------------------------------------------------
  // The decision.
  // ---------------------------------------------------------------------------------------------

  predicate Known(order: seq<string>, usage: Usage, i: nat) {
    i < |order| && order[i] in usage
  }

  /** The limit of the `i`-th metric is smaller than those of all known metrics before it. */
  ghost predicate Tighter(order: seq<string>, usage: Usage, from: Option<nat>, i: nat)
    requires Known(order, usage, i)
  {
    && (from.Some? ==> usage[order[i]].maxValue < from.value)
    && (forall j :: 0 <= j < i && Known(order, usage, j) ==> usage[order[i]].maxValue < usage[order[j]].maxValue)
  }

  /** Nothing is wrong with the `i`-th metric: its window rolls, it affords its hits, and if the headers are
      to speak of it, its window has not ended. */
  ghost predicate Goes(order: seq<string>, hits: map<string, nat>, usage: Usage, now: Duration, from: Option<nat>, i: nat)
    requires forall m :: m in order ==> m in hits
  {
    Known(order, usage, i) ==>
      var (r, ok) := RollOver(usage[order[i]], now);
      ok && hits[order[i]] <= r.leftHits && (Tighter(order, usage, from, i) ==> now <= r.periodWindow.end)
  }

  /** How the check ends at a metric with which something is wrong, and the report it leaves of it. */
  ghost predicate EndsAt(u: UsageReport, hits: nat, now: Duration, after: UsageReport, v: Verdict) {
    var (r, ok) := RollOver(u, now);
    if !ok then v == DurationOverflow && after == r
    else if hits <= r.leftHits then v == Panicked && after == r.(leftHits := r.leftHits - hits)
    else if r.periodWindow.end < now then v == Panicked && after == r
    else
      && v.Limited? && after == r && v.info.limit == Some(u.maxValue) && v.info.remaining == Some(0) && v.info.reset.Some?
      && var seconds := v.info.reset.value;
         seconds * 1_000_000_000 <= r.periodWindow.end - now < (seconds + 1) * 1_000_000_000
  }

  /** The metrics after the first, seen from the whole and from the rest of the walk. */
  lemma GoesOn(order: seq<string>, hits: map<string, nat>, usage: Usage, now: Duration, info: RateLimitInfo, i: nat)
    requires (forall m :: m in order ==> m in hits) && Distinct(order) && 0 < i < |order|
    requires order[0] in usage ==> Charge(usage[order[0]], hits[order[0]], now, info).1.Passed?
    ensures var (usage', info') := AfterFirst(order, hits, usage, now, info);
            && (Known(order, usage, i) <==> Known(order[1..], usage', i - 1))
            && (Known(order, usage, i) ==>
                  && usage'[order[i]] == usage[order[i]]
                  && (Tighter(order, usage, info.limit, i) <==> Tighter(order[1..], usage', info'.limit, i - 1)))
            && (Goes(order, hits, usage, now, info.limit, i) <==> Goes(order[1..], hits, usage', now, info'.limit, i - 1))
  {
    var (usage', info') := AfterFirst(order, hits, usage, now, info);
    var rest := order[1..];
    assert forall j :: 0 <= j < |rest| ==> rest[j] == order[j + 1] && rest[j] != order[0];
    assert forall j :: 0 < j < |order| ==> (Known(order, usage, j) <==> Known(rest, usage', j - 1));
    if Known(order, usage, i) {
      TighterOn(order, usage, usage', info.limit, info'.limit, i);
    }
  }

  /** What the first metric leaves to the others. */
  function AfterFirst(order: seq<string>, hits: map<string, nat>, usage: Usage, now: Duration, info: RateLimitInfo)
    : (Usage, RateLimitInfo)
    requires order != [] && order[0] in hits
    requires order[0] in usage ==> Charge(usage[order[0]], hits[order[0]], now, info).1.Passed?
  {
    if order[0] in usage then
      var (u, v) := Charge(usage[order[0]], hits[order[0]], now, info);
      (usage[order[0] := u], v.info)
    else (usage, info)
  }

  lemma TighterOn(order: seq<string>, usage: Usage, usage': Usage, from: Option<nat>, from': Option<nat>, i: nat)
    requires 0 < i && Known(order, usage, i) && usage'.Keys == usage.Keys
    requires forall j :: 0 < j < |order| && order[j] in usage ==> usage'[order[j]].maxValue == usage[order[j]].maxValue
    requires from' == if order[0] in usage && (from.None? || usage[order[0]].maxValue < from.value)
                      then Some(usage[order[0]].maxValue) else from
    ensures Known(order[1..], usage', i - 1)
    ensures Tighter(order, usage, from, i) <==> Tighter(order[1..], usage', from', i - 1)
  {
    var rest := order[1..];
    assert forall j :: 0 <= j < |rest| ==> rest[j] == order[j + 1];
    if Tighter(order, usage, from, i) {
      assert Known(order, usage, 0) ==> usage[order[i]].maxValue < usage[order[0]].maxValue;
      forall j | 0 <= j < i - 1 && Known(rest, usage', j)
        ensures usage'[rest[i - 1]].maxValue < usage'[rest[j]].maxValue
      {
        assert Known(order, usage, j + 1);
      }
    }
    if Tighter(rest, usage', from', i - 1) {
      forall j | 0 <= j < i && Known(order, usage, j) ensures usage[order[i]].maxValue < usage[order[j]].maxValue {
        if j > 0 {
          assert Known(rest, usage', j - 1);
        }
      }
    }
  }

  /** The decision, for every input: the request is authorized if and only if nothing is wrong with any known
      metric. */
  lemma {:induction false} PassesIff(order: seq<string>, hits: map<string, nat>, usage: Usage, now: Duration, info: RateLimitInfo)
    requires (forall m :: m in order ==> m in hits) && Distinct(order)
    ensures Check(order, hits, usage, now, info).1.Passed?
       <==> forall i :: 0 <= i < |order| ==> Goes(order, hits, usage, now, info.limit, i)
    decreases |order|
  {
    if order != [] {
      FirstGoes(order, hits, usage, now, info);
      if Goes(order, hits, usage, now, info.limit, 0) {
        var (usage', info') := AfterFirst(order, hits, usage, now, info);
        PassesIff(order[1..], hits, usage', now, info');
        forall i | 0 < i < |order|
          ensures Goes(order, hits, usage, now, info.limit, i) <==> Goes(order[1..], hits, usage', now, info'.limit, i - 1)
        {
          GoesOn(order, hits, usage, now, info, i);
        }
        if forall i :: 0 <= i < |order| ==> Goes(order, hits, usage, now, info.limit, i) {
          forall i | 0 <= i < |order[1..]| ensures Goes(order[1..], hits, usage', now, info'.limit, i) {
            assert Goes(order, hits, usage, now, info.limit, i + 1);
          }
        }
      }
    }
  }

  lemma FirstGoes(order: seq<string>, hits: map<string, nat>, usage: Usage, now: Duration, info: RateLimitInfo)
    requires (forall m :: m in order ==> m in hits) && order != []
    ensures Goes(order, hits, usage, now, info.limit, 0)
       <==> (order[0] in usage ==> Charge(usage[order[0]], hits[order[0]], now, info).1.Passed?)
    ensures order[0] in usage ==>
              var (u, v) := Charge(usage[order[0]], hits[order[0]], now, info);
              if v.Passed? then true else EndsAt(usage[order[0]], hits[order[0]], now, u, v)
  {
    if order[0] in usage {
      var k := RollCases(usage[order[0]], now);
    }
  }

  /** And otherwise it ends at the first metric with which something is wrong: it is refused if that metric
      cannot afford its hits, with the limit and the reset of that metric. */
  lemma {:induction false} StopsAtFirst(order: seq<string>, hits: map<string, nat>, usage: Usage, now: Duration, info: RateLimitInfo, i: nat)
    requires (forall m :: m in order ==> m in hits) && Distinct(order) && i < |order|
    requires !Goes(order, hits, usage, now, info.limit, i)
    requires forall j :: 0 <= j < i ==> Goes(order, hits, usage, now, info.limit, j)
    ensures var (after, v) := Check(order, hits, usage, now, info);
            order[i] in usage && order[i] in after && EndsAt(usage[order[i]], hits[order[i]], now, after[order[i]], v)
    decreases |order|
  {
    FirstGoes(order, hits, usage, now, info);
    if i > 0 {
      assert Goes(order, hits, usage, now, info.limit, 0);
      var (usage', info') := AfterFirst(order, hits, usage, now, info);
      GoesOn(order, hits, usage, now, info, i);
      forall j | 0 <= j < i - 1 ensures Goes(order[1..], hits, usage', now, info'.limit, j) {
        assert Goes(order, hits, usage, now, info.limit, j + 1);
        GoesOn(order, hits, usage, now, info, j + 1);
      }
      StopsAtFirst(order[1..], hits, usage', now, info', i - 1);
    }
  }

  // ---------------------------------------------------------------------------------------------
  // What an authorized request leaves, and what its headers say.
  // ---------------------------------------------------------------------------------------------

  /** What a check that passes does to each metric: rolls it if the request uses it, takes the hits, and
      leaves the other metrics alone. */
  lemma {:induction false} PassedTakes(order: seq<string>, hits: map<string, nat>, usage: Usage, now: Duration,
                                       info: RateLimitInfo, m: string)
    requires (forall k :: k in order ==> k in hits) && Distinct(order)
    requires Check(order, hits, usage, now, info).1.Passed?
    ensures var after := Check(order, hits, usage, now, info).0;
            && (m in after <==> m in usage)
            && (m in usage ==>
                  if m in order then
                    var (r, ok) := RollOver(usage[m], now);
                    ok && hits[m] <= r.leftHits && after[m] == r.(leftHits := r.leftHits - hits[m])
                  else after[m] == usage[m])
    decreases |order|
  {
    if order != [] {
      var first, rest := order[0], order[1..];
      assert m in order <==> m == first || m in rest;
      if first in usage {
        var (u, v) := Charge(usage[first], hits[first], now, info);
        PassedTakes(rest, hits, usage[first := u], now, v.info, m);
      } else {
        PassedTakes(rest, hits, usage, now, info, m);
      }
    }
  }

  /** The headers speak of this report: its limit, what it has left, and the whole seconds to its end. */
  ghost predicate SpeaksOf(info: RateLimitInfo, u: UsageReport, now: Duration) {
    && info.limit == Some(u.maxValue) && info.remaining == Some(u.leftHits) && info.reset.Some?
    && var seconds := info.reset.value;
       seconds * 1_000_000_000 <= u.periodWindow.end - now < (seconds + 1) * 1_000_000_000
  }

  /** The metric the headers speak of: its limit is smaller than the given one and than those of all known
      metrics before it, and no known metric after it has a smaller one. */
  ghost predicate Smallest(order: seq<string>, usage: Usage, from: Option<nat>, i: nat) {
    && Known(order, usage, i) && Tighter(order, usage, from, i)
    && (forall j :: i < j < |order| && Known(order, usage, j) ==> usage[order[i]].maxValue <= usage[order[j]].maxValue)
  }

  lemma FirstSpeaks(u: UsageReport, hits: nat, now: Duration, info: RateLimitInfo)
    requires Charge(u, hits, now, info).1.Passed?
    ensures var (u', v) := Charge(u, hits, now, info);
            if info.limit.None? || u.maxValue < info.limit.value then SpeaksOf(v.info, u', now) else v.info == info
  {
    var k := RollCases(u, now);
  }

  /** The headers of an authorized request, for every input: those of the first known metric with the smallest
      limit, at its new state; and the ones it came with if none has a smaller limit. */
  lemma {:induction false} PassedHeaders(order: seq<string>, hits: map<string, nat>, usage: Usage, now: Duration,
                                         info: RateLimitInfo) returns (at: Option<nat>)
    requires (forall k :: k in order ==> k in hits) && Distinct(order)
    requires Check(order, hits, usage, now, info).1.Passed?
    ensures var (after, v) := Check(order, hits, usage, now, info);
            if at.Some? then
              && Smallest(order, usage, info.limit, at.value)
              && order[at.value] in after && SpeaksOf(v.info, after[order[at.value]], now)
            else
              && v.info == info
              && (forall i :: 0 <= i < |order| && Known(order, usage, i) ==>
                    info.limit.Some? && info.limit.value <= usage[order[i]].maxValue)
    decreases |order|
  {
    at := None;
    if order != [] {
      var first, rest := order[0], order[1..];
      var (usage', info') := AfterFirst(order, hits, usage, now, info);
      if first in usage {
        FirstSpeaks(usage[first], hits[first], now, info);
      }
      var later := PassedHeaders(rest, hits, usage', now, info');
      forall i | 0 < i < |order|
        ensures Known(order, usage, i) <==> Known(rest, usage', i - 1)
        ensures Known(order, usage, i) ==>
                  && usage'[order[i]] == usage[order[i]]
                  && (Tighter(order, usage, info.limit, i) <==> Tighter(rest, usage', info'.limit, i - 1))
      {
        GoesOn(order, hits, usage, now, info, i);
      }
      if later.Some? {
        at := Some(later.value + 1);
        LaterIsSmallest(order, usage, usage', info.limit, info'.limit, later.value);
      } else if first in usage && (info.limit.None? || usage[first].maxValue < info.limit.value) {
        at := Some(0);
        PassedTakes(rest, hits, usage', now, info', first);
      }
    }
  }

  lemma LaterIsSmallest(order: seq<string>, usage: Usage, usage': Usage, from: Option<nat>, from': Option<nat>, i: nat)
    requires order != [] && Smallest(order[1..], usage', from', i)
    requires forall j :: 0 < j < |order| ==>
               && (Known(order, usage, j) <==> Known(order[1..], usage', j - 1))
               && (Known(order, usage, j) ==>
                     && usage'[order[j]] == usage[order[j]]
                     && (Tighter(order, usage, from, j) <==> Tighter(order[1..], usage', from', j - 1)))
    ensures Smallest(order, usage, from, i + 1)
  {
    assert Known(order, usage, i + 1);
    forall j | i + 1 < j < |order| && Known(order, usage, j)
      ensures usage[order[i + 1]].maxValue <= usage[order[j]].maxValue
    {
      assert Known(order[1..], usage', j - 1);
    }
  }
}
