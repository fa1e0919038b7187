/** The singleton's store of hits that 3scale has not been told about, and the reports made from it. */
module Deltas {
  import opened Wrappers
  import opened Keys
  import opened MapSums

  const TWO_TO_64: nat := 0x1_0000_0000_0000_0000
  const TWO_TO_32: nat := 0x1_0000_0000

  type u64 = n: nat | n < TWO_TO_64

  type Metrics = map<string, u64>

  /** An application's metrics, with the identifier it was first seen under: equal identifiers are filed
      under their common reference, and the hash map keeps the first. */
  datatype AppEntry = AppEntry(identifier: AppIdentifier, metrics: Metrics)

  type Apps = map<string, AppEntry>
  type DeltaMap = map<string, Apps>

  datatype ThreescaleData = ThreescaleData(serviceId: string, serviceToken: string, appId: AppIdentifier, metrics: Metrics)

  datatype FlushMode = ContainerLimit | Periodical | Default

  /** The sizes the compiler gives to the parts of the nested maps. */
  datatype Sizes = Sizes(str: nat, number: nat, appIdentifier: nat, metricsMap: nat, appsMap: nat)
  {
    /** The size of one metric. */
    function Metric(): nat {
      str + number
    }

    /** The size of `count` metrics. */
    function Metrics(count: nat): nat {
      if count == 0 then 0 else Metrics(count - 1) + Metric()
    }
  }

  /** So many times the size of a string and of a number. */
  lemma {:induction false} MetricsProduct(z: Sizes, count: nat)
    ensures z.Metrics(count) == count * (z.str + z.number)
  {
    if count > 0 {
      MetricsProduct(z, count - 1);
    }
  }

  lemma {:induction false} MoreMetrics(z: Sizes, a: nat, b: nat)
    ensures z.Metrics(a + b) == z.Metrics(a) + z.Metrics(b)
  {
    if b > 0 {
      MoreMetrics(z, a, b - 1);
    }
  }

  datatype Config = Config(capacity: u64, flushMode: FlushMode, sizes: Sizes)
  {
    /** The capacity as a 32-bit machine sees it. */
    function Limit(): nat {
      capacity % TWO_TO_32
    }
  }

  datatype DeltaStoreState = Flush | Ok

  function DeltaKey(d: ThreescaleData): string {
    Join(d.serviceId, d.serviceToken)
  }

  // ---------------------------------------------------------------------------------------------
  // What an update does.
  // ---------------------------------------------------------------------------------------------

  function WrappingAdd(a: u64, b: u64): u64 {
    (a + b) % TWO_TO_64
  }

  /** Metrics added into metrics; the sums wrap around. */
  function Merged(old_: Metrics, more: Metrics): (r: Metrics)
    ensures r.Keys == old_.Keys + more.Keys
  {
    map m | m in old_.Keys + more.Keys ::
      if m !in more then old_[m] else if m !in old_ then more[m] else WrappingAdd(old_[m], more[m])
  }

  function AppsAt(deltas: DeltaMap, key: string): Apps {
    if key in deltas then deltas[key] else map[]
  }

  function Updated(deltas: DeltaMap, d: ThreescaleData): DeltaMap {
    var apps, app := AppsAt(deltas, DeltaKey(d)), d.appId.AsRef();
    var entry := if app in apps then apps[app].(metrics := Merged(apps[app].metrics, d.metrics))
                 else AppEntry(d.appId, d.metrics);
    deltas[DeltaKey(d) := apps[app := entry]]
  }

  /** The hits pending for a metric of an application under a service key. */
  function Pending(deltas: DeltaMap, key: string, app: string, metric: string): nat {
    if key in deltas && app in deltas[key] && metric in deltas[key][app].metrics
    then deltas[key][app].metrics[metric] else 0
  }

  function HitsOf(d: ThreescaleData, key: string, app: string, metric: string): nat {
    if DeltaKey(d) == key && d.appId.AsRef() == app && metric in d.metrics then d.metrics[metric] else 0
  }

  /** An update adds exactly the hits of the message, to exactly its metrics, up to wrap-around. */
  lemma UpdateAddsHits(deltas: DeltaMap, d: ThreescaleData, key: string, app: string, metric: string)
    ensures Pending(Updated(deltas, d), key, app, metric)
         == (Pending(deltas, key, app, metric) + HitsOf(d, key, app, metric)) % 18446744073709551616
  {
  }

  /** Whose hits they are: those of the service with this id and token, and of the application with this id,
      whatever its key, or the user with this key. */
  lemma HitsOfMeans(service: string, token: string, id: string, key: Option<string>, metrics: Metrics, metric: string)
    requires metric in metrics
    ensures HitsOf(ThreescaleData(service, token, AppId(id, key), metrics), service + "_" + token, id, metric) == metrics[metric]
    ensures HitsOf(ThreescaleData(service, token, UserKey(id), metrics), service + "_" + token, id, metric) == metrics[metric]
  {
  }

  /** So two messages for one application, with different application keys, add up in one entry, under the
      identifier of the first. */
  lemma AppKeysShareAnEntry(first: ThreescaleData, second: ThreescaleData, id: string, k: Option<string>, l: Option<string>)
    requires first.serviceId == second.serviceId && first.serviceToken == second.serviceToken
    requires first.appId == AppId(id, k) && second.appId == AppId(id, l)
    ensures var deltas := Updated(Updated(map[], first), second);
            && deltas.Keys == {first.serviceId + "_" + first.serviceToken}
            && var apps := deltas[first.serviceId + "_" + first.serviceToken];
               && apps.Keys == {id} && apps[id].identifier == AppId(id, k)
               && apps[id].metrics.Keys == first.metrics.Keys + second.metrics.Keys
               && (forall m :: m in first.metrics && m in second.metrics ==>
                     apps[id].metrics[m] == (first.metrics[m] as int + second.metrics[m] as int) % 18446744073709551616)
  {
    var key := first.serviceId + "_" + first.serviceToken;
    assert DeltaKey(first) == key && DeltaKey(second) == key;
    var one := Updated(map[], first);
    assert one == map[key := map[id := AppEntry(AppId(id, k), first.metrics)]];
  }

  /** The identifier an application is filed under. */
  function FiledAs(deltas: DeltaMap, key: string, app: string): Option<AppIdentifier> {
    if key in deltas && app in deltas[key] then Some(deltas[key][app].identifier) else None
  }

  /** An update never changes the identifier of an application that is filed, and files a new one under the
      identifier of the message. */
  lemma UpdateKeepsIdentifiers(deltas: DeltaMap, d: ThreescaleData, key: string, app: string)
    ensures FiledAs(Updated(deltas, d), key, app)
         == if FiledAs(deltas, key, app).Some? then FiledAs(deltas, key, app)
            else if Concerns(d, key, app) then Some(d.appId) else None
  {
  }

  /** The message is for this application under this service key. */
  predicate Concerns(d: ThreescaleData, key: string, app: string) {
    && key == d.serviceId + "_" + d.serviceToken
    && app == match d.appId case AppId(id, _) => id case UserKey(userKey) => userKey
  }

  // ---------------------------------------------------------------------------------------------
  // The size of the store, recomputed from its contents.
  // ---------------------------------------------------------------------------------------------

  function EntrySize(e: AppEntry, z: Sizes): nat {
    z.appIdentifier + z.metricsMap + z.Metrics(|e.metrics|)
  }

  ghost function ServiceSize(apps: Apps, z: Sizes): nat {
    z.str + z.appsMap + Total(apps, e => EntrySize(e, z))
  }

  ghost function StoreSize(deltas: DeltaMap, z: Sizes): nat {
    Total(deltas, apps => ServiceSize(apps, z))
  }

  /** By how much an update enlarges the store, in the four cases: nothing new but metrics, a new
      application, a new service, or nothing new at all. */
  function Increase(deltas: DeltaMap, d: ThreescaleData, z: Sizes): nat {
    var apps, app := AppsAt(deltas, DeltaKey(d)), d.appId.AsRef();
    if app in apps then z.Metrics(|d.metrics.Keys - apps[app].metrics.Keys|)
    else (if DeltaKey(d) in deltas then 0 else z.str + z.appsMap) + EntrySize(AppEntry(d.appId, d.metrics), z)
  }

  lemma MergedSize(old_: Metrics, more: Metrics, z: Sizes)
    ensures z.Metrics(|Merged(old_, more)|) == z.Metrics(|old_|) + z.Metrics(|more.Keys - old_.Keys|)
  {
    MergedCount(old_, more);
    MoreMetrics(z, |old_|, |more.Keys - old_.Keys|);
  }

  lemma MergedCount(old_: Metrics, more: Metrics)
    ensures |Merged(old_, more)| == |old_| + |more.Keys - old_.Keys|
  {
    var merged := Merged(old_, more);
    assert merged.Keys == old_.Keys + (more.Keys - old_.Keys);
    assert |merged| == |merged.Keys| && |old_| == |old_.Keys|;
  }

  /** The increments add up to the size. */
  lemma IncreaseIsExact(deltas: DeltaMap, d: ThreescaleData, z: Sizes)
    ensures StoreSize(Updated(deltas, d), z) == StoreSize(deltas, z) + Increase(deltas, d, z)
  {
    var key, app := DeltaKey(d), d.appId.AsRef();
    var apps := AppsAt(deltas, key);
    var apps' := Updated(deltas, d)[key];
    var entry := apps'[app];
    TotalWith(deltas, (a: Apps) => ServiceSize(a, z), key, apps');
    TotalWith(apps, (e: AppEntry) => EntrySize(e, z), app, entry);
    if app in apps {
      MergedSize(apps[app].metrics, d.metrics, z);
    }
  }

  /** One more metric merged in. */
  lemma MergeOne(old_: Metrics, part: Metrics, m: string, hits: u64)
    requires m !in part
    ensures Merged(old_, part[m := hits])
         == Merged(old_, part)[m := if m in old_ then WrappingAdd(old_[m], hits) else hits]
    ensures m in Merged(old_, part) <==> m in old_
    ensures m in old_ ==> Merged(old_, part)[m] == old_[m]
  {
  }

  lemma OneMoreKey(old_: Metrics, part: Metrics, m: string, hits: u64)
    requires m !in part
    ensures |part[m := hits].Keys - old_.Keys| == |part.Keys - old_.Keys| + (if m in old_ then 0 else 1)
  {
    if m in old_ {
      assert part[m := hits].Keys - old_.Keys == part.Keys - old_.Keys;
    } else {
      assert part[m := hits].Keys - old_.Keys == (part.Keys - old_.Keys) + {m};
    }
  }

  /** The metrics not in `rest` have been merged and accounted for. */
  ghost predicate Progress(old_: Metrics, metrics: Metrics, rest: set<string>, r: Metrics, alloc: nat, z: Sizes) {
    && rest <= metrics.Keys && r == Merged(old_, metrics - rest)
    && alloc == z.Metrics(|(metrics - rest).Keys - old_.Keys|)
  }

  lemma ProgressStart(old_: Metrics, metrics: Metrics, z: Sizes)
    ensures Progress(old_, metrics, metrics.Keys, old_, 0, z)
  {
    assert metrics - metrics.Keys == map[];
    assert Merged(old_, map[]) == old_;
    assert |{} - old_.Keys| == 0;
  }

  lemma ProgressEnd(old_: Metrics, metrics: Metrics, r: Metrics, alloc: nat, z: Sizes)
    requires Progress(old_, metrics, {}, r, alloc, z)
    ensures r == Merged(old_, metrics) && alloc == z.Metrics(|metrics.Keys - old_.Keys|)
  {
    assert metrics - {} == metrics;
  }

  lemma ProgressStep(old_: Metrics, metrics: Metrics, rest: set<string>, m: string, r: Metrics, alloc: nat,
                     r': Metrics, alloc': nat, z: Sizes)
    requires Progress(old_, metrics, rest, r, alloc, z) && m in rest
    requires r' == r[m := if m in r then WrappingAdd(r[m], metrics[m]) else metrics[m]]
    requires alloc' == alloc + (if m in r then 0 else z.Metric())
    ensures Progress(old_, metrics, rest - {m}, r', alloc', z)
  {
    WithoutOne(metrics, rest, m);
    MergeOne(old_, metrics - rest, m, metrics[m]);
    OneMoreKey(old_, metrics - rest, m, metrics[m]);
  }

  lemma WithoutOne(metrics: Metrics, rest: set<string>, m: string)
    requires rest <= metrics.Keys && m in rest
    ensures metrics - (rest - {m}) == (metrics - rest)[m := metrics[m]] && m !in metrics - rest
  {
  }

  // ---------------------------------------------------------------------------------------------
  // The size once more, as one sum.
  // ---------------------------------------------------------------------------------------------

  ghost function MetricCount(apps: Apps): nat {
    Total(apps, (e: AppEntry) => |e.metrics|)
  }

  ghost function AllApps(deltas: DeltaMap): nat {
    Total(deltas, (apps: Apps) => |apps|)
  }

  ghost function AllMetrics(deltas: DeltaMap): nat {
    Total(deltas, (apps: Apps) => MetricCount(apps))
  }

  /** So much for every service, every application and every metric in the store. */
  ghost function FlatSize(deltas: DeltaMap, z: Sizes): nat {
    |deltas| * (z.str + z.appsMap) + AllApps(deltas) * (z.appIdentifier + z.metricsMap)
    + AllMetrics(deltas) * (z.str + z.number)
  }

  lemma EntriesLinear(apps: Apps, z: Sizes, d: nat, e: nat)
    requires d == z.appIdentifier + z.metricsMap && e == z.str + z.number
    ensures ServiceSize(apps, z) == (z.str + z.appsMap) + |apps| * d + MetricCount(apps) * e
  {
    var size, count := (e: AppEntry) => EntrySize(e, z), (e: AppEntry) => |e.metrics|;
    forall a: AppEntry ensures size(a) == d + count(a) * e + count(a) * 0 {
      MetricsProduct(z, |a.metrics|);
    }
    TotalLinear(apps, size, count, count, d, e, 0);
  }

  lemma StoreLinear(deltas: DeltaMap, z: Sizes, c: nat, d: nat, e: nat)
    requires c == z.str + z.appsMap && d == z.appIdentifier + z.metricsMap && e == z.str + z.number
    ensures StoreSize(deltas, z) == |deltas| * c + AllApps(deltas) * d + AllMetrics(deltas) * e
  {
    var size, apps, metrics := (a: Apps) => ServiceSize(a, z), (a: Apps) => |a|, (a: Apps) => MetricCount(a);
    forall a: Apps ensures size(a) == c + apps(a) * d + metrics(a) * e {
      EntriesLinear(a, z, d, e);
    }
    TotalLinear(deltas, size, apps, metrics, c, d, e);
  }

  /** The recomputed size is that sum. */
  lemma StoreIsFlat(deltas: DeltaMap, z: Sizes)
    ensures StoreSize(deltas, z) == FlatSize(deltas, z)
  {
    StoreLinear(deltas, z, z.str + z.appsMap, z.appIdentifier + z.metricsMap, z.str + z.number);
  }

  class DeltaStore {
    var deltas: DeltaMap
    var memoryAllocated: nat
    const config: Config

    constructor (config: Config)
      ensures this.config == config && deltas == map[] && memoryAllocated == 0
    {
      this.config, deltas, memoryAllocated := config, map[], 0;
    }

    /** `update_app_delta`: one metric after the other, in whatever order the hash map yields them. */
    static method UpdateAppDelta(appDelta: Metrics, metrics: Metrics, z: Sizes) returns (r: Metrics, alloc: nat)
      ensures r == Merged(appDelta, metrics)
      ensures alloc == z.Metrics(|metrics.Keys - appDelta.Keys|)
    {
      r, alloc := appDelta, 0;
      var rest := metrics.Keys;
      ProgressStart(appDelta, metrics, z);
      while rest != {}
        invariant Progress(appDelta, metrics, rest, r, alloc, z)
      {
        var metric :| metric in rest;
        ghost var before, allocBefore := r, alloc;
        if metric in r {
          r := r[metric := WrappingAdd(r[metric], metrics[metric])];
        } else {
          r := r[metric := metrics[metric]];
          alloc := alloc + z.Metric();
        }
        ProgressStep(appDelta, metrics, rest, metric, before, allocBefore, r, alloc, z);
        rest := rest - {metric};
      }
      ProgressEnd(appDelta, metrics, r, alloc, z);
    }

    /** `add_app_delta`: the application's first metrics. */
    static method AddAppDelta(service: Apps, d: ThreescaleData, z: Sizes) returns (r: Apps, alloc: nat)
      ensures r == service[d.appId.AsRef() := AppEntry(d.appId, d.metrics)]
      ensures alloc == EntrySize(AppEntry(d.appId, d.metrics), z)
      ensures alloc == z.appIdentifier + z.metricsMap + |d.metrics| * (z.str + z.number)
    {
      r := service[d.appId.AsRef() := AppEntry(d.appId, d.metrics)];
      MetricsProduct(z, |d.metrics|);
      var directAlloc := z.appIdentifier + z.metricsMap;
      var transitiveAlloc := |d.metrics| * z.Metric();
      alloc := directAlloc + transitiveAlloc;
    }

    /** A service's first application. */
    static method NewService(d: ThreescaleData, z: Sizes) returns (usages: Apps, alloc: nat)
      ensures usages == map[][d.appId.AsRef() := AppEntry(d.appId, d.metrics)]
      ensures alloc == z.str + z.appsMap + EntrySize(AppEntry(d.appId, d.metrics), z)
    {
      usages := map[][d.appId.AsRef() := AppEntry(d.appId, d.metrics)];
      MetricsProduct(z, |d.metrics|);
      var transitiveAlloc := (z.metricsMap + z.appIdentifier) + |d.metrics| * z.Metric();
      var directAlloc := z.str + z.appsMap;
      alloc := directAlloc + transitiveAlloc;
    }

    /** Files the message's metrics, under a new service or application if need be. */
    method File(d: ThreescaleData) returns (deltaIncrease: nat)
      modifies this`deltas
      ensures deltas == Updated(old(deltas), d) && deltaIncrease == Increase(old(deltas), d, config.sizes)
    {
      var z := config.sizes;
      var key, app := Join(d.serviceId, d.serviceToken), d.appId.AsRef();
      if key in deltas {
        var service := deltas[key];
        if app in service {
          var updated;
          updated, deltaIncrease := UpdateAppDelta(service[app].metrics, d.metrics, z);
          service := service[app := service[app].(metrics := updated)];
        } else {
          service, deltaIncrease := AddAppDelta(service, d, z);
        }
        deltas := deltas[key := service];
      } else {
        var usages;
        usages, deltaIncrease := NewService(d, z);
        deltas := deltas[key := usages];
      }
    }

    /** `update_delta_store`. */
    method UpdateDeltaStore(d: ThreescaleData) returns (state: DeltaStoreState)
      modifies this
      ensures deltas == Updated(old(deltas), d)
      ensures memoryAllocated == old(memoryAllocated) + (if config.flushMode == Periodical then 0
                                                         else Increase(old(deltas), d, config.sizes))
      ensures config.flushMode != Periodical && old(memoryAllocated) == FlatSize(old(deltas), config.sizes) ==>
                memoryAllocated == FlatSize(deltas, config.sizes)
      ensures state == Flush <==> config.flushMode != Periodical && memoryAllocated >= config.Limit()
      ensures state == Flush <==> config.flushMode != Periodical && memoryAllocated >= config.capacity % 4294967296
    {
      IncreaseIsExact(deltas, d, config.sizes);
      StoreIsFlat(deltas, config.sizes);
      StoreIsFlat(Updated(deltas, d), config.sizes);
      var deltaIncrease := File(d);
      if config.flushMode != Periodical {
        memoryAllocated := memoryAllocated + deltaIncrease;
        return if memoryAllocated >= config.capacity % TWO_TO_32 then Flush else Ok;
      }
      return Ok;
    }

    /** `flush_delta_store`. */
    method FlushDeltaStore() returns (flushed: DeltaMap)
      modifies this
      ensures flushed == old(deltas) && deltas == map[] && memoryAllocated == 0
    {
      flushed := deltas;
      deltas := map[];
      memoryAllocated := 0;
    }
  }

  // ---------------------------------------------------------------------------------------------
  // Reports.
  // ---------------------------------------------------------------------------------------------

  datatype AppUsage = AppUsage(identifier: AppIdentifier, usage: seq<(string, u64)>)

  datatype Report = Report(serviceId: string, serviceToken: string, usages: map<string, AppUsage>)

  /** The usage list names every metric once, with its hits. */
  ghost predicate ListsMetrics(usage: seq<(string, u64)>, metrics: Metrics) {
    && (forall i :: 0 <= i < |usage| ==> usage[i].0 in metrics && usage[i].1 == metrics[usage[i].0])
    && (forall i, j :: 0 <= i < j < |usage| ==> usage[i].0 != usage[j].0)
    && (forall m :: m in metrics ==> exists i :: 0 <= i < |usage| && usage[i].0 == m)
  }

  ghost predicate UsageFor(u: AppUsage, e: AppEntry) {
    u.identifier == e.identifier && ListsMetrics(u.usage, e.metrics)
  }

  ghost predicate ReportFor(r: Report, key: string, apps: Apps) {
    && Parse(key) == Some((r.serviceId, r.serviceToken)) && r.usages.Keys == apps.Keys
    && (forall a :: a in apps ==> UsageFor(r.usages[a], apps[a]))
  }

  /** The usage list of one application. */
  method CollectUsage(metrics: Metrics) returns (usage: seq<(string, u64)>)
    ensures ListsMetrics(usage, metrics)
  {
    usage := [];
    var rest := metrics.Keys;
    while rest != {}
      invariant rest <= metrics.Keys
      invariant forall i :: 0 <= i < |usage| ==>
                  usage[i].0 in metrics && usage[i].0 !in rest && usage[i].1 == metrics[usage[i].0]
      invariant forall i, j :: 0 <= i < j < |usage| ==> usage[i].0 != usage[j].0
      invariant forall m :: m in metrics && m !in rest ==> exists i :: 0 <= i < |usage| && usage[i].0 == m
    {
      var m :| m in rest;
      ghost var before := usage;
      usage := usage + [(m, metrics[m])];
      rest := rest - {m};
      assert usage[|before|].0 == m;
      assert forall i :: 0 <= i < |before| ==> usage[i] == before[i];
    }
  }

  /** `report`. A key without a separator would make it panic. */
  method MakeReport(key: string, apps: Apps) returns (r: Option<Report>)
    ensures r.Some? <==> SEPARATOR in key
    ensures r.Some? ==> ReportFor(r.value, key, apps)
  {
    var keys := Parse(key);
    var usages: map<string, AppUsage> := map[];
    var rest := apps.Keys;
    while rest != {}
      invariant rest <= apps.Keys && usages.Keys == apps.Keys - rest
      invariant forall a :: a in usages ==> UsageFor(usages[a], apps[a])
    {
      var app :| app in rest;
      var usage := CollectUsage(apps[app].metrics);
      usages := usages[app := AppUsage(apps[app].identifier, usage)];
      rest := rest - {app};
    }
    if keys.None? {
      return None;
    }
    return Some(Report(keys.value.0, keys.value.1, usages));
  }

  /** A report that was built, and the service key it was built for. */
  datatype Built = Built(key: string, report: Report)

  /** One report for every service of a flushed store, and no other. */
  ghost predicate ReportsAll(deltas: DeltaMap, built: seq<Built>) {
    && (forall i :: 0 <= i < |built| ==> built[i].key in deltas && ReportFor(built[i].report, built[i].key, deltas[built[i].key]))
    && (forall i, j :: 0 <= i < j < |built| ==> built[i].key != built[j].key)
    && (forall k :: k in deltas ==> exists i :: 0 <= i < |built| && built[i].key == k)
  }

  function UsageHits(usage: seq<(string, u64)>, metric: string): nat {
    if usage == [] then 0
    else UsageHits(usage[..|usage| - 1], metric)
         + (if usage[|usage| - 1].0 == metric then usage[|usage| - 1].1 else 0)
  }

  function ReportHits(r: Report, app: string, metric: string): nat {
    if app in r.usages then UsageHits(r.usages[app].usage, metric) else 0
  }

  /** Everything these reports say about a metric of an application under a service key. */
  function ReportedHits(built: seq<Built>, key: string, app: string, metric: string): nat {
    if built == [] then 0
    else
      var last := built[|built| - 1];
      ReportedHits(built[..|built| - 1], key, app, metric)
      + (if last.key == key then ReportHits(last.report, app, metric) else 0)
  }

  /** A name that does not occur adds nothing, and one that occurs once adds what it says there. */
  lemma {:induction false} UsageHitsOnce(usage: seq<(string, u64)>, metric: string, at: Option<nat>)
    requires forall i, j :: 0 <= i < j < |usage| ==> usage[i].0 != usage[j].0
    requires at.Some? ==> at.value < |usage| && usage[at.value].0 == metric
    requires at.None? ==> forall i :: 0 <= i < |usage| ==> usage[i].0 != metric
    ensures UsageHits(usage, metric) == if at.Some? then usage[at.value].1 else 0
    decreases |usage|
  {
    if usage != [] {
      UsageHitsOnce(usage[..|usage| - 1], metric, if at == Some(|usage| - 1) then None else at);
    }
  }

  lemma ReportTells(r: Report, key: string, apps: Apps, app: string, metric: string)
    requires ReportFor(r, key, apps)
    ensures ReportHits(r, app, metric) == if app in apps && metric in apps[app].metrics then apps[app].metrics[metric] else 0
  {
    if app in apps {
      assert UsageFor(r.usages[app], apps[app]);
      var usage := r.usages[app].usage;
      if metric in apps[app].metrics {
        var i :| 0 <= i < |usage| && usage[i].0 == metric;
        UsageHitsOnce(usage, metric, Some(i));
      } else {
        UsageHitsOnce(usage, metric, None);
      }
    }
  }

  lemma {:induction false} ReportedOnce(built: seq<Built>, key: string, app: string, metric: string, at: Option<nat>)
    requires forall i, j :: 0 <= i < j < |built| ==> built[i].key != built[j].key
    requires at.Some? ==> at.value < |built| && built[at.value].key == key
    requires at.None? ==> forall i :: 0 <= i < |built| ==> built[i].key != key
    ensures ReportedHits(built, key, app, metric) == if at.Some? then ReportHits(built[at.value].report, app, metric) else 0
    decreases |built|
  {
    if built != [] {
      ReportedOnce(built[..|built| - 1], key, app, metric, if at == Some(|built| - 1) then None else at);
    }
  }

  /** The reports of a flush say exactly what was pending: nothing is missing and nothing told twice. */
  lemma FlushReportsPending(deltas: DeltaMap, built: seq<Built>, key: string, app: string, metric: string)
    requires ReportsAll(deltas, built)
    ensures ReportedHits(built, key, app, metric) == Pending(deltas, key, app, metric)
  {
    if key in deltas {
      var i :| 0 <= i < |built| && built[i].key == key;
      ReportedOnce(built, key, app, metric, Some(i));
      ReportTells(built[i].report, key, deltas[key], app, metric);
    } else {
      ReportedOnce(built, key, app, metric, None);
    }
  }

  lemma {:induction false} ReportedHitsAdd(first: seq<Built>, more: seq<Built>, key: string, app: string, metric: string)
    ensures ReportedHits(first + more, key, app, metric)
         == ReportedHits(first, key, app, metric) + ReportedHits(more, key, app, metric)
    decreases |more|
  {
    if more == [] {
      assert first + more == first;
    } else {
      assert (first + more)[..|first + more| - 1] == first + more[..|more| - 1];
      ReportedHitsAdd(first, more[..|more| - 1], key, app, metric);
    }
  }
}
