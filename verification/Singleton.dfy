/** The singleton service: it adds every message of the filter to the delta store, and turns the store into
    reports when it is full or when the clock ticks. */
module Singleton {
  import opened Wrappers
  import opened Keys
  import opened MapSums
  import opened Deltas

  /** What the filter sends. */
  datatype Message = Message(updateCacheFromSingleton: bool, data: ThreescaleData)

  /** The service between two callbacks, with all reports it ever built. */
  datatype Snapshot = Snapshot(deltas: DeltaMap, memory: nat, built: seq<Built>)

  // ---------------------------------------------------------------------------------------------
  // One callback.
  // ---------------------------------------------------------------------------------------------

  /** The whole store becomes reports, one for each service, and is then empty. */
  ghost predicate Flushes(s: Snapshot, t: Snapshot) {
    && t.deltas == map[] && t.memory == 0
    && s.built <= t.built && ReportsAll(s.deltas, t.built[|s.built|..])
  }

  function Filed(s: Snapshot, d: ThreescaleData, config: Config): Snapshot {
    Snapshot(Updated(s.deltas, d),
             s.memory + (if config.flushMode == Periodical then 0 else Increase(s.deltas, d, config.sizes)), s.built)
  }

  predicate Full(s: Snapshot, config: Config) {
    config.flushMode != Periodical && s.memory >= config.Limit()
  }

  /** A message arrives. */
  ghost predicate Consumes(s: Snapshot, t: Snapshot, d: ThreescaleData, config: Config) {
    if Full(Filed(s, d, config), config) then Flushes(Filed(s, d, config), t) else t == Filed(s, d, config)
  }

  /** The clock ticks. */
  ghost predicate Ticks(s: Snapshot, t: Snapshot, config: Config) {
    if config.flushMode != ContainerLimit then Flushes(s, t) else t == s
  }

  // ---------------------------------------------------------------------------------------------
  // The code.
  // ---------------------------------------------------------------------------------------------

  datatype Outcome = Consumed | Empty | Crashed

  class SingletonService {
    const deltaStore: DeltaStore
    var cacheKeys: map<string, string>       // the token to use for each application in the cache
    var reportRequests: map<nat, Report>     // reports under way, by the token of their http call
    ghost var built: seq<Built>

    constructor (config: Config)
      ensures fresh(deltaStore) && deltaStore.config == config
      ensures View() == Snapshot(map[], 0, []) && cacheKeys == map[] && reportRequests == map[]
    {
      deltaStore := new DeltaStore(config);
      cacheKeys, reportRequests, built := map[], map[], [];
    }

    ghost function View(): Snapshot
      reads this, deltaStore
    {
      Snapshot(deltaStore.deltas, deltaStore.memoryAllocated, built)
    }

    /** Every service key has a separator, so no report panics. */
    ghost predicate Valid()
      reads this, deltaStore
    {
      forall key :: key in deltaStore.deltas ==> SEPARATOR in key
    }

    /** One report is built and sent; `token` is what the host makes of its http call: a token, or a
        failure, after which the report is dropped. */
    method SendReport(key: string, apps: Apps, token: Option<nat>) returns (ghost b: Built)
      requires SEPARATOR in key
      modifies this`reportRequests, this`built
      ensures b.key == key && ReportFor(b.report, key, apps) && built == old(built) + [b]
      ensures reportRequests == if token.Some? then old(reportRequests)[token.value := b.report] else old(reportRequests)
    {
      var report := MakeReport(key, apps);
      b := Built(key, report.value);
      built := built + [b];
      match token {
        case Some(t) => reportRequests := reportRequests[t := report.value];
        case None =>
      }
    }

    /** `flush_local_cache`, up to its authorize calls; `call` says how the host takes each http call. */
    method FlushLocalCache(call: nat -> Option<nat>)
      requires Valid()
      modifies this, deltaStore
      ensures Valid() && Flushes(old(View()), View()) && cacheKeys == old(cacheKeys)
      ensures reportRequests == UnderWay(old(reportRequests), built[|old(built)|..], call)
    {
      var deltas := deltaStore.FlushDeltaStore();
      var rest := deltas.Keys;
      var calls := 0;
      ghost var more: seq<Built> := [];
      while rest != {}
        invariant rest <= deltas.Keys && built == old(built) + more
        invariant Reported(deltas, rest, more)
        invariant calls == |more| && reportRequests == UnderWay(old(reportRequests), more, call)
        invariant deltaStore.deltas == map[] && deltaStore.memoryAllocated == 0 && cacheKeys == old(cacheKeys)
      {
        var key :| key in rest;
        ghost var b := SendReport(key, deltas[key], call(calls));
        ReportedStep(deltas, rest, more, b);
        assert (more + [b])[..|more|] == more;
        more := more + [b];
        calls := calls + 1;
        rest := rest - {key};
      }
      ReportedAll(deltas, more);
      assert built[|old(built)|..] == more;
    }

    /** `on_queue_ready`. `entry` is what the queue yields, and `cacheUpdated` whether a cache update that
        the message asks for succeeds; if it does not, the callback panics before it files the hits. */
    method OnQueueReady(entry: Option<Message>, cacheUpdated: bool, call: nat -> Option<nat>) returns (r: Outcome)
      requires Valid()
      modifies this, deltaStore
      ensures Valid()
      ensures r == match entry
                   case None => Empty
                   case Some(m) => if m.updateCacheFromSingleton && !cacheUpdated then Crashed else Consumed
      ensures if r == Consumed then Consumes(old(View()), View(), entry.value.data, deltaStore.config)
              else View() == old(View()) && cacheKeys == old(cacheKeys) && reportRequests == old(reportRequests)
      ensures r == Consumed ==>
                var d := entry.value.data;
                var key := CacheKey(d.serviceId, d.appId).AsString();
                cacheKeys == if key in old(cacheKeys) then old(cacheKeys) else old(cacheKeys)[key := d.serviceToken]
    {
      match entry
      case None => return Empty;
      case Some(m) =>
        if m.updateCacheFromSingleton && !cacheUpdated {
          return Crashed;
        }
        var d := m.data;
        var cacheKey := CacheKey(d.serviceId, d.appId).AsString();
        if cacheKey !in cacheKeys {
          cacheKeys := cacheKeys[cacheKey := d.serviceToken];
        }
        var state := deltaStore.UpdateDeltaStore(d);
        if state == Flush {
          FlushLocalCache(call);
        }
        return Consumed;
    }

    /** `on_tick`. */
    method OnTick(call: nat -> Option<nat>)
      requires Valid()
      modifies this, deltaStore
      ensures Valid() && Ticks(old(View()), View(), deltaStore.config) && cacheKeys == old(cacheKeys)
    {
      if deltaStore.config.flushMode != ContainerLimit {
        FlushLocalCache(call);
      }
    }
  }

  /** The services not in `rest` have their reports. */
  ghost predicate Reported(deltas: DeltaMap, rest: set<string>, built: seq<Built>) {
    && (forall i :: 0 <= i < |built| ==>
          built[i].key in deltas && built[i].key !in rest && ReportFor(built[i].report, built[i].key, deltas[built[i].key]))
    && (forall i, j :: 0 <= i < j < |built| ==> built[i].key != built[j].key)
    && (forall k :: k in deltas && k !in rest ==> exists i :: 0 <= i < |built| && built[i].key == k)
  }

  lemma ReportedAll(deltas: DeltaMap, built: seq<Built>)
    requires Reported(deltas, {}, built)
    ensures ReportsAll(deltas, built)
  {
  }

  /** The requests under way after these reports were sent, in their order: a report whose call the host
      accepts is kept under the token of the call, and one whose call fails is dropped. */
  ghost function UnderWay(before: map<nat, Report>, sent: seq<Built>, call: nat -> Option<nat>): map<nat, Report> {
    if sent == [] then before
    else
      var n := |sent| - 1;
      var earlier := UnderWay(before, sent[..n], call);
      if call(n).Some? then earlier[call(n).value := sent[n].report] else earlier
  }

  lemma ReportedStep(deltas: DeltaMap, rest: set<string>, built: seq<Built>, b: Built)
    requires Reported(deltas, rest, built) && b.key in rest && b.key in deltas && ReportFor(b.report, b.key, deltas[b.key])
    ensures Reported(deltas, rest - {b.key}, built + [b])
  {
    var more := built + [b];
    assert more[|built|] == b;
    forall k | k in deltas && k !in rest - {b.key} ensures exists i :: 0 <= i < |more| && more[i].key == k {
      if k != b.key {
        var i :| 0 <= i < |built| && built[i].key == k;
        assert more[i].key == k;
      }
    }
  }

  // ---------------------------------------------------------------------------------------------
  // Whole runs.
  // ---------------------------------------------------------------------------------------------

  datatype Event = Queue(data: ThreescaleData) | Tick

  ghost predicate Happens(s: Snapshot, t: Snapshot, e: Event, config: Config) {
    match e
    case Queue(d) => Consumes(s, t, d, config)
    case Tick => Ticks(s, t, config)
  }

  /** A run of the service from its start, in any mixture of messages and ticks. */
  ghost predicate IsRun(states: seq<Snapshot>, events: seq<Event>, config: Config) {
    && |states| == |events| + 1 && states[0] == Snapshot(map[], 0, [])
    && (forall i :: 0 <= i < |events| ==> HappensAt(states, events, i, config))
  }

  ghost predicate HappensAt(states: seq<Snapshot>, events: seq<Event>, i: nat, config: Config)
    requires i < |events| < |states|
  {
    Happens(states[i], states[i + 1], events[i], config)
  }

  function EventHits(e: Event, key: string, app: string, metric: string): nat {
    if e.Queue? then HitsOf(e.data, key, app, metric) else 0
  }

  /** The hits that the first `n` events brought for a metric of an application under a service key. */
  function ConsumedHits(events: seq<Event>, n: nat, key: string, app: string, metric: string): nat
    requires n <= |events|
  {
    if n == 0 then 0 else ConsumedHits(events, n - 1, key, app, metric) + EventHits(events[n - 1], key, app, metric)
  }

  /** Reported so far and still pending. */
  function Accounted(s: Snapshot, key: string, app: string, metric: string): nat {
    ReportedHits(s.built, key, app, metric) + Pending(s.deltas, key, app, metric)
  }

  lemma FlushKeepsAccounts(s: Snapshot, t: Snapshot, key: string, app: string, metric: string)
    requires Flushes(s, t)
    ensures Accounted(t, key, app, metric) == Accounted(s, key, app, metric)
  {
    var more := t.built[|s.built|..];
    assert t.built == s.built + more;
    ReportedHitsAdd(s.built, more, key, app, metric);
    FlushReportsPending(s.deltas, more, key, app, metric);
  }

  lemma FilingAccounts(s: Snapshot, d: ThreescaleData, config: Config, key: string, app: string, metric: string)
    returns (wraps: nat)
    ensures Accounted(Filed(s, d, config), key, app, metric) + wraps * TWO_TO_64
         == Accounted(s, key, app, metric) + HitsOf(d, key, app, metric)
  {
    UpdateAddsHits(s.deltas, d, key, app, metric);
    wraps := Wraps(Pending(s.deltas, key, app, metric) + HitsOf(d, key, app, metric));
  }

  lemma Wraps(sum: nat) returns (wraps: nat)
    ensures sum == sum % TWO_TO_64 + wraps * TWO_TO_64
  {
    wraps := sum / TWO_TO_64;
  }

  lemma EventAccounts(s: Snapshot, t: Snapshot, e: Event, config: Config, key: string, app: string, metric: string)
    returns (wraps: nat)
    requires Happens(s, t, e, config)
    ensures Accounted(t, key, app, metric) + wraps * TWO_TO_64
         == Accounted(s, key, app, metric) + EventHits(e, key, app, metric)
  {
    match e
    case Tick =>
      wraps := 0;
      if config.flushMode != ContainerLimit {
        FlushKeepsAccounts(s, t, key, app, metric);
      }
    case Queue(d) =>
      var filed := Filed(s, d, config);
      wraps := FilingAccounts(s, d, config, key, app, metric);
      if Full(filed, config) {
        FlushKeepsAccounts(filed, t, key, app, metric);
      }
  }

  lemma AddUp(consumed: nat, accounted: nat, wraps: nat, hits: nat, accounted': nat, wraps': nat)
    requires consumed == accounted + wraps * TWO_TO_64 && accounted' + wraps' * TWO_TO_64 == accounted + hits
    ensures consumed + hits == accounted' + (wraps + wraps') * TWO_TO_64
  {
  }

  /** No hit is lost and none reported twice: in every run, for every metric of every application under every
      service key, the hits of all messages consumed are the hits in all reports built plus the hits still
      pending, but for whole wrap-arounds of a pending 64-bit sum. */
  lemma {:induction false} HitsAreConserved(states: seq<Snapshot>, events: seq<Event>, n: nat, config: Config,
                                            key: string, app: string, metric: string) returns (wraps: nat)
    requires IsRun(states, events, config) && n <= |events|
    ensures ConsumedHits(events, n, key, app, metric) == Accounted(states[n], key, app, metric) + wraps * TWO_TO_64
  {
    if n == 0 {
      wraps := 0;
    } else {
      var before := HitsAreConserved(states, events, n - 1, config, key, app, metric);
      assert HappensAt(states, events, n - 1, config);
      var more := EventAccounts(states[n - 1], states[n], events[n - 1], config, key, app, metric);
      AddUp(ConsumedHits(events, n - 1, key, app, metric), Accounted(states[n - 1], key, app, metric), before,
            EventHits(events[n - 1], key, app, metric), Accounted(states[n], key, app, metric), more);
      wraps := before + more;
    }
  }

  /** And if the hits consumed fit into 64 bits, there was no wrap-around and the two sides are equal. */
  lemma HitsAreConservedExactly(states: seq<Snapshot>, events: seq<Event>, n: nat, config: Config,
                                key: string, app: string, metric: string)
    requires IsRun(states, events, config) && n <= |events| && ConsumedHits(events, n, key, app, metric) < TWO_TO_64
    ensures ConsumedHits(events, n, key, app, metric)
         == ReportedHits(states[n].built, key, app, metric) + Pending(states[n].deltas, key, app, metric)
  {
    var wraps := HitsAreConserved(states, events, n, config, key, app, metric);
  }

  /** The store's own count of its size is right, and below capacity. */
  ghost predicate Measured(s: Snapshot, config: Config) {
    && s.memory == StoreSize(s.deltas, config.sizes)
    && (s.memory < config.Limit() || s.deltas == map[])
  }

  lemma EventMeasures(s: Snapshot, t: Snapshot, e: Event, config: Config)
    requires config.flushMode != Periodical && Measured(s, config) && Happens(s, t, e, config)
    ensures Measured(t, config)
  {
    if e.Queue? {
      IncreaseIsExact(s.deltas, e.data, config.sizes);
    }
  }

  /** Except in periodical mode, the size counted step by step is at all times the size recomputed from the
      nested maps (so much for every service, application and metric), and after every callback it is below
      the capacity, if that is positive and fits into 32 bits. */
  lemma {:induction false} MemoryIsExact(states: seq<Snapshot>, events: seq<Event>, n: nat, config: Config)
    requires IsRun(states, events, config) && n <= |events| && config.flushMode != Periodical
    ensures Measured(states[n], config)
    ensures states[n].memory == FlatSize(states[n].deltas, config.sizes)
    ensures 0 < config.capacity < 4294967296 ==> states[n].memory < config.capacity
  {
    StoreIsFlat(states[n].deltas, config.sizes);
    if n > 0 {
      MemoryIsExact(states, events, n - 1, config);
      assert HappensAt(states, events, n - 1, config);
      EventMeasures(states[n - 1], states[n], events[n - 1], config);
    }
  }

  /** When a message empties the store: exactly when, with its hits filed, so much for every service, every
      application and every metric in it reaches the capacity, cut to 32 bits. */
  lemma FlushesIffFull(states: seq<Snapshot>, events: seq<Event>, n: nat, config: Config)
    requires IsRun(states, events, config) && n < |events| && events[n].Queue?
    requires config.flushMode != Periodical
    ensures states[n + 1].deltas == map[]
       <==> FlatSize(Updated(states[n].deltas, events[n].data), config.sizes) >= config.capacity % 4294967296
  {
    assert HappensAt(states, events, n, config);
    MemoryIsExact(states, events, n, config);
    FiledSize(states[n], events[n].data, config);
    MessageFlushesIffFull(states[n], states[n + 1], events[n].data, config);
  }

  lemma FiledSize(s: Snapshot, d: ThreescaleData, config: Config)
    requires s.memory == StoreSize(s.deltas, config.sizes) && config.flushMode != Periodical
    ensures Filed(s, d, config).memory == FlatSize(Updated(s.deltas, d), config.sizes)
  {
    IncreaseIsExact(s.deltas, d, config.sizes);
    StoreIsFlat(Updated(s.deltas, d), config.sizes);
  }

  lemma MessageFlushesIffFull(s: Snapshot, t: Snapshot, d: ThreescaleData, config: Config)
    requires Consumes(s, t, d, config) && config.flushMode != Periodical
    ensures t.deltas == map[] <==> Filed(s, d, config).memory >= config.capacity % 4294967296
  {
    assert DeltaKey(d) in Filed(s, d, config).deltas;
  }

  /** What the flush mode decides. A tick empties the store in periodical and default mode, and does nothing
      in container-limit mode; in periodical mode no message empties it or makes a report. */
  lemma ModesDecide(states: seq<Snapshot>, events: seq<Event>, n: nat, config: Config)
    requires IsRun(states, events, config) && n < |events|
    ensures events[n].Tick? && (config.flushMode == Periodical || config.flushMode == Default) ==>
              states[n + 1].deltas == map[] && states[n].built <= states[n + 1].built
              && ReportsAll(states[n].deltas, states[n + 1].built[|states[n].built|..])
    ensures events[n].Tick? && config.flushMode == ContainerLimit ==> states[n + 1] == states[n]
    ensures events[n].Queue? && config.flushMode == Periodical ==>
              states[n + 1].deltas == Updated(states[n].deltas, events[n].data) && states[n + 1].built == states[n].built
  {
    assert HappensAt(states, events, n, config);
  }

  // ---------------------------------------------------------------------------------------------
  // Whose hits a report claims to be.
  // ---------------------------------------------------------------------------------------------

  /** One of the first `n` messages is filed under this key. */
  ghost predicate Sent(events: seq<Event>, n: nat, key: string)
    requires n <= |events|
  {
    exists i :: 0 <= i < n && events[i].Queue? && DeltaKey(events[i].data) == key
  }

  ghost predicate AllSent(s: Snapshot, events: seq<Event>, n: nat)
    requires n <= |events|
  {
    && (forall key :: key in s.deltas ==> Sent(events, n, key))
    && (forall b :: b in s.built ==>
          Sent(events, n, b.key) && Parse(b.key) == Some((b.report.serviceId, b.report.serviceToken)))
  }

  lemma FlushedReport(deltas: DeltaMap, more: seq<Built>, b: Built)
    requires ReportsAll(deltas, more) && b in more
    ensures b.key in deltas && Parse(b.key) == Some((b.report.serviceId, b.report.serviceToken))
  {
    var i :| 0 <= i < |more| && more[i] == b;
    assert ReportFor(more[i].report, more[i].key, deltas[more[i].key]);
  }

  lemma BuiltWasSent(s: Snapshot, events: seq<Event>, n: nat, more: seq<Built>, b: Built)
    requires n <= |events| && AllSent(s, events, n) && ReportsAll(s.deltas, more) && b in more
    ensures Sent(events, n, b.key) && Parse(b.key) == Some((b.report.serviceId, b.report.serviceToken))
  {
    FlushedReport(s.deltas, more, b);
  }

  lemma FlushSends(s: Snapshot, t: Snapshot, events: seq<Event>, n: nat)
    requires n <= |events| && AllSent(s, events, n) && Flushes(s, t)
    ensures AllSent(t, events, n)
  {
    var more := t.built[|s.built|..];
    assert t.built == s.built + more;
    forall b | b in more
      ensures Sent(events, n, b.key) && Parse(b.key) == Some((b.report.serviceId, b.report.serviceToken))
    {
      BuiltWasSent(s, events, n, more, b);
    }
  }

  lemma FilingSends(s: Snapshot, events: seq<Event>, n: nat, config: Config)
    requires n < |events| && AllSent(s, events, n) && events[n].Queue?
    ensures AllSent(Filed(s, events[n].data, config), events, n + 1)
  {
    SentStays(s, events, n);
    var d := events[n].data;
    assert Sent(events, n + 1, DeltaKey(d));
    assert Updated(s.deltas, d).Keys == s.deltas.Keys + {DeltaKey(d)};
  }

  lemma SentStays(s: Snapshot, events: seq<Event>, n: nat)
    requires n < |events| && AllSent(s, events, n)
    ensures AllSent(s, events, n + 1)
  {
    forall key | Sent(events, n, key) ensures Sent(events, n + 1, key) {
    }
  }

  lemma {:induction false} EverythingWasSent(states: seq<Snapshot>, events: seq<Event>, n: nat, config: Config)
    requires IsRun(states, events, config) && n <= |events|
    ensures AllSent(states[n], events, n)
  {
    if n > 0 {
      var s, t, e := states[n - 1], states[n], events[n - 1];
      EverythingWasSent(states, events, n - 1, config);
      assert HappensAt(states, events, n - 1, config);
      match e
      case Tick =>
        SentStays(s, events, n - 1);
        if config.flushMode != ContainerLimit {
          FlushSends(s, t, events, n);
        }
      case Queue(d) =>
        FilingSends(s, events, n - 1, config);
        if Full(Filed(s, d, config), config) {
          FlushSends(Filed(s, d, config), t, events, n);
        }
    }
  }

  /** If no service id or token holds a separator, every report names the service and token of messages that
      were consumed, and its key is theirs and nobody else's. */
  lemma ReportsNameTheirService(states: seq<Snapshot>, events: seq<Event>, n: nat, config: Config, b: Built)
    requires IsRun(states, events, config) && n <= |events| && b in states[n].built
    requires forall e :: e in events && e.Queue? ==> SEPARATOR !in e.data.serviceId && SEPARATOR !in e.data.serviceToken
    ensures exists i :: 0 <= i < n && events[i].Queue? && DeltaKey(events[i].data) == b.key
    ensures forall i :: 0 <= i < n && events[i].Queue? ==>
              (DeltaKey(events[i].data) == b.key <==>
                 events[i].data.serviceId == b.report.serviceId && events[i].data.serviceToken == b.report.serviceToken)
  {
    EverythingWasSent(states, events, n, config);
    assert Sent(events, n, b.key);
    var j :| 0 <= j < n && events[j].Queue? && DeltaKey(events[j].data) == b.key;
    RoundTripIff(events[j].data.serviceId, events[j].data.serviceToken);
    forall i | 0 <= i < n && events[i].Queue?
      ensures DeltaKey(events[i].data) == b.key <==>
                events[i].data.serviceId == b.report.serviceId && events[i].data.serviceToken == b.report.serviceToken
    {
      RoundTripIff(events[i].data.serviceId, events[i].data.serviceToken);
    }
  }

  // ---------------------------------------------------------------------------------------------
  // Under which identifier an application is reported.
  // ---------------------------------------------------------------------------------------------

  /** The store was empty after the `c`-th event. */
  predicate Cleared(states: seq<Snapshot>, c: nat) {
    c + 1 < |states| && states[c + 1].deltas == map[]
  }

  ghost predicate ClearedIn(states: seq<Snapshot>, from: nat, to: nat) {
    exists c :: from <= c < to && Cleared(states, c)
  }

  predicate IsFor(e: Event, key: string, app: string) {
    e.Queue? && Concerns(e.data, key, app)
  }

  /** The `i`-th event is the first message for this application since the store was last empty before the
      `m`-th. */
  ghost predicate Opens(states: seq<Snapshot>, events: seq<Event>, i: nat, m: nat, key: string, app: string) {
    && i < |events| && IsFor(events[i], key, app) && !ClearedIn(states, i, m)
    && (forall j :: 0 <= j < i && IsFor(events[j], key, app) ==> ClearedIn(states, j, i))
  }

  lemma EventFiles(s: Snapshot, t: Snapshot, e: Event, config: Config, key: string, app: string)
    requires Happens(s, t, e, config) && t.deltas != map[]
    ensures FiledAs(t.deltas, key, app)
         == if FiledAs(s.deltas, key, app).Some? then FiledAs(s.deltas, key, app)
            else if IsFor(e, key, app) then Some(e.data.appId) else None
  {
    if e.Queue? {
      UpdateKeepsIdentifiers(s.deltas, e.data, key, app);
    }
  }

  /** An application that is not filed has had no message since the store was last empty. */
  lemma {:induction false} NotFiled(states: seq<Snapshot>, events: seq<Event>, n: nat, config: Config, key: string, app: string, j: nat)
    requires IsRun(states, events, config) && n <= |events| && FiledAs(states[n].deltas, key, app).None?
    requires j < n && IsFor(events[j], key, app)
    ensures ClearedIn(states, j, n)
  {
    if Cleared(states, n - 1) {
      assert j <= n - 1 < n;
    } else {
      assert HappensAt(states, events, n - 1, config);
      EventFiles(states[n - 1], states[n], events[n - 1], config, key, app);
      NotFiled(states, events, n - 1, config, key, app, j);
    }
  }

  /** An application that is filed carries the identifier of the first message for it since the store was
      last empty. */
  lemma {:induction false} FiledUnderFirst(states: seq<Snapshot>, events: seq<Event>, n: nat, config: Config, key: string, app: string)
    returns (i: nat)
    requires IsRun(states, events, config) && n <= |events| && FiledAs(states[n].deltas, key, app).Some?
    ensures i < n && Opens(states, events, i, n, key, app)
    ensures FiledAs(states[n].deltas, key, app) == Some(events[i].data.appId)
  {
    assert n > 0;
    assert HappensAt(states, events, n - 1, config);
    assert !Cleared(states, n - 1);
    EventFiles(states[n - 1], states[n], events[n - 1], config, key, app);
    if FiledAs(states[n - 1].deltas, key, app).Some? {
      i := FiledUnderFirst(states, events, n - 1, config, key, app);
      assert !ClearedIn(states, i, n);
    } else {
      i := n - 1;
      forall j | 0 <= j < i && IsFor(events[j], key, app) ensures ClearedIn(states, j, i) {
        NotFiled(states, events, i, config, key, app, j);
      }
      assert !ClearedIn(states, i, n);
    }
  }

  lemma FlushedIdentifier(s: Snapshot, t: Snapshot, b: Built, app: string)
    requires Flushes(s, t) && b in t.built[|s.built|..] && app in b.report.usages
    ensures FiledAs(s.deltas, b.key, app) == Some(b.report.usages[app].identifier)
  {
    var more := t.built[|s.built|..];
    var i :| 0 <= i < |more| && more[i] == b;
    assert ReportFor(more[i].report, more[i].key, s.deltas[more[i].key]);
    assert UsageFor(b.report.usages[app], s.deltas[b.key][app]);
  }

  /** A report built at the `f`-th event carries, for each of its applications, the identifier of the first
      message for it since the store was last empty. */
  lemma ReportedUnderFirst(states: seq<Snapshot>, events: seq<Event>, f: nat, config: Config, b: Built, app: string)
    returns (i: nat)
    requires IsRun(states, events, config) && f < |events| && |states[f].built| <= |states[f + 1].built|
    requires b in states[f + 1].built[|states[f].built|..] && app in b.report.usages
    ensures i <= f && Opens(states, events, i, f, b.key, app)
    ensures b.report.usages[app].identifier == events[i].data.appId
  {
    var s, t := states[f], states[f + 1];
    assert HappensAt(states, events, f, config);
    match events[f]
    case Tick =>
      FlushedIdentifier(s, t, b, app);
      i := FiledUnderFirst(states, events, f, config, b.key, app);
    case Queue(d) =>
      assert Full(Filed(s, d, config), config);
      FlushedIdentifier(Filed(s, d, config), t, b, app);
      UpdateKeepsIdentifiers(s.deltas, d, b.key, app);
      if FiledAs(s.deltas, b.key, app).Some? {
        i := FiledUnderFirst(states, events, f, config, b.key, app);
      } else {
        i := f;
        forall j | 0 <= j < i && IsFor(events[j], b.key, app) ensures ClearedIn(states, j, i) {
          NotFiled(states, events, i, config, b.key, app, j);
        }
      }
  }

  lemma BuiltGrows(s: Snapshot, t: Snapshot, e: Event, config: Config)
    requires Happens(s, t, e, config)
    ensures s.built <= t.built
  {
  }

  /** Every report of every run names every application by the identifier of the first message for it since
      the store was last empty: if the messages came with an application key, so does the report. */
  lemma {:induction false} ReportsNameTheirApplications(states: seq<Snapshot>, events: seq<Event>, n: nat, config: Config,
                                                        b: Built, app: string) returns (f: nat, i: nat)
    requires IsRun(states, events, config) && n <= |events| && b in states[n].built && app in b.report.usages
    ensures i <= f < n && |states[f].built| <= |states[f + 1].built| && b in states[f + 1].built[|states[f].built|..]
    ensures Opens(states, events, i, f, b.key, app) && b.report.usages[app].identifier == events[i].data.appId
  {
    assert n > 0;
    assert HappensAt(states, events, n - 1, config);
    BuiltGrows(states[n - 1], states[n], events[n - 1], config);
    if b in states[n - 1].built {
      f, i := ReportsNameTheirApplications(states, events, n - 1, config, b, app);
    } else {
      f := n - 1;
      i := ReportedUnderFirst(states, events, f, config, b, app);
    }
  }
}
