/** The counter of shared memory: writing an application to the cache adds the change in stored bytes to a
    total that lives in the store itself and is updated by a second compare-and-swap. */
module MemoryCounter {
  import opened Wrappers
  import opened SharedData
  import opened DivMod

  const COUNTER_KEY := "SHARED_MEMORY_COUNTER"
  const INITIAL_SIZE: nat := 1000
  const U64_MAX: nat := 0xFFFF_FFFF_FFFF_FFFF
  const I32_MIN: int := -0x8000_0000
  const I32_MAX: int := 0x7FFF_FFFF

  type Byte = b: int | 0 <= b < 256
  type Bytes = seq<Byte>
  type Host = Store<Bytes>

  /** A cast to a signed 32-bit integer, which is also how its arithmetic wraps. */
  function AsI32(n: int): (r: int)
    ensures I32_MIN <= r <= I32_MAX
    ensures I32_MIN <= n <= I32_MAX ==> r == n
  {
    if I32_MIN <= n <= I32_MAX then n else (n - I32_MIN) % 0x1_0000_0000 + I32_MIN
  }

  // ---------------------------------------------------------------------------------------------
  // The total as eight big-endian bytes.
  // ---------------------------------------------------------------------------------------------

  function ToBeBytes(n: nat, width: nat): (b: Bytes)
    ensures |b| == width
  {
    if width == 0 then [] else ToBeBytes(n / 256, width - 1) + [n % 256]
  }

  function FromBeBytes(b: Bytes): nat {
    if b == [] then 0 else FromBeBytes(b[..|b| - 1]) * 256 + b[|b| - 1]
  }

  function Pow256(k: nat): nat {
    if k == 0 then 1 else Pow256(k - 1) * 256
  }

  lemma {:induction false} BytesRoundTrip(n: nat, width: nat)
    requires n < Pow256(width)
    ensures FromBeBytes(ToBeBytes(n, width)) == n
  {
    if width > 0 {
      BytesRoundTrip(n / 256, width - 1);
      assert ToBeBytes(n, width)[..width - 1] == ToBeBytes(n / 256, width - 1);
    }
  }

  lemma {:induction false} FromBeBytesFits(b: Bytes)
    ensures FromBeBytes(b) < Pow256(|b|)
  {
    if b != [] {
      FromBeBytesFits(b[..|b| - 1]);
    }
  }

  lemma Pow256Of8()
    ensures Pow256(8) == U64_MAX + 1
  {
    assert Pow256(4) == 0x1_0000_0000;
  }

  /** The bytes of a 64-bit integer. */
  const WIDTH: nat := 8

  function Encode(n: nat): (b: Bytes)
    ensures |b| == 8
  {
    ToBeBytes(n, WIDTH)
  }

  /** Reading back what was written. */
  lemma TotalRoundTrip(n: nat)
    requires n <= U64_MAX
    ensures ReadTotal(Encode(n)) == Some(n)
  {
    Pow256Of8();
    BytesRoundTrip(n, WIDTH);
  }

  /** Most significant byte first. */
  lemma {:induction false} BytesAt(n: nat, width: nat, i: nat)
    requires i < width
    ensures 0 < Pow256(width - 1 - i)
    ensures ToBeBytes(n, width)[i] == n / Pow256(width - 1 - i) % 256
  {
    if i < width - 1 {
      BytesAt(n / 256, width - 1, i);
      DivDiv(n, 256, Pow256(width - 2 - i));
    }
  }

  /** The initial size, as stored. */
  lemma InitialBytes()
    ensures Encode(INITIAL_SIZE) == [0, 0, 0, 0, 0, 0, 3, 232]
  {
    var b := Encode(INITIAL_SIZE);
    assert 1000 / 256 == 3 && 1000 % 256 == 232;
    assert b == ToBeBytes(1000 / 256 / 256, 6) + [3, 232];
    assert ToBeBytes(0, 6) == ToBeBytes(0, 3) + [0, 0, 0];
  }

  /** A cast to 32 bits gives the one number in range that differs by a multiple of 2 to the 32. */
  lemma I32Wraps(n: int) returns (q: int)
    ensures -2147483648 <= AsI32(n) <= 2147483647 && AsI32(n) == n + q * 4294967296
  {
    q := (AsI32(n) - n) / 4294967296;
  }

  // ---------------------------------------------------------------------------------------------
  // What the code does when nobody interferes.
  // ---------------------------------------------------------------------------------------------

  datatype UpdateError = NotEightBytes | SetFail | Panicked

  /** The new total; none where the negation of the smallest 32-bit integer fails to convert. */
  function NewTotal(used: nat, delta: int): (r: Option<nat>)
    requires used <= U64_MAX && I32_MIN <= delta <= I32_MAX
    ensures r.Some? ==> r.value <= U64_MAX
  {
    if delta == I32_MIN then None
    else if delta < 0 then Some(if used <= -delta then INITIAL_SIZE else used + delta)
    else Some(if used + delta <= U64_MAX then used + delta else U64_MAX)
  }

  function ReadTotal(b: Bytes): (r: Option<nat>)
    ensures r.Some? ==> r.value <= U64_MAX
  {
    if |b| != 8 then None
    else
      FromBeBytesFits(b);
      Pow256Of8();
      Some(FromBeBytes(b))
  }

  /** `update_shared_memory_size`. A missing total is written first, and then assumed to carry CAS 1. */
  function Update(s: Host, delta: int): (r: (Host, Result<nat, UpdateError>))
    requires I32_MIN <= delta <= I32_MAX
  {
    var (value, cas) := Get(s, COUNTER_KEY);
    if value.Some? && cas.Some? then
      var used := ReadTotal(value.value);
      if used.None? then (s, Failure(NotEightBytes)) else Commit(s, used.value, cas.value, delta)
    else
      Commit(Set(s, COUNTER_KEY, Some(Encode(INITIAL_SIZE)), OVERWRITE).0, INITIAL_SIZE, 1, delta)
  }

  function Commit(s: Host, used: nat, cas: nat, delta: int): (r: (Host, Result<nat, UpdateError>))
    requires used <= U64_MAX && I32_MIN <= delta <= I32_MAX
  {
    match NewTotal(used, delta)
    case None => (s, Failure(Panicked))
    case Some(total) =>
      var (s', status) := Set(s, COUNTER_KEY, Some(Encode(total)), cas);
      (s', if status == Ok then Success(total) else Failure(SetFail))
  }

  const TRIES: nat := 3

  /** Up to `tries` attempts; the result says whether one of them panicked. */
  function Retry(s: Host, delta: int, tries: nat): (r: (Host, bool))
    requires I32_MIN <= delta <= I32_MAX
    decreases tries
  {
    if tries == 0 then (s, false)
    else
      var (s', r) := Update(s, delta);
      if r.Success? then (s', false)
      else if r.error.Panicked? then (s', true)
      else Retry(s', delta, tries - 1)
  }

  /** The bytes of a stored pair; a key without a value counts as well. */
  function PairSize(key: string, value: Option<Bytes>): nat {
    |key| + (if value.Some? then |value.value| else 0)
  }

  function MemoryDelta(key: string, app: Bytes, prev: Option<Bytes>): (d: int)
    ensures I32_MIN <= d <= I32_MAX
    ensures |key| + |app| <= I32_MAX && PairSize(key, prev) <= I32_MAX ==>
              d == |app| - (if prev.Some? then |prev.value| else 0)
  {
    AsI32(AsI32(AsI32(|key|) + AsI32(|app|)) - AsI32(PairSize(key, prev)))
  }

  /** Whatever the lengths, the delta is new length less old, in 32 bits; the key's length cancels out. */
  lemma DeltaIsTheChange(key: string, app: Bytes, prev: Option<Bytes>) returns (q: int)
    ensures var change := |app| - (if prev.Some? then |prev.value| else 0);
            -2147483648 <= MemoryDelta(key, app, prev) <= 2147483647
            && MemoryDelta(key, app, prev) == change + q * 4294967296
  {
    var a := I32Wraps(|key|);
    var b := I32Wraps(|app|);
    var c := I32Wraps(AsI32(|key|) + AsI32(|app|));
    var d := I32Wraps(PairSize(key, prev));
    var e := I32Wraps(AsI32(AsI32(|key|) + AsI32(|app|)) - AsI32(PairSize(key, prev)));
    q := a + b + c - d + e;
  }

  /** What an update makes of the total. */
  lemma NewTotalMeans(used: nat, delta: int)
    requires used <= U64_MAX && -2147483648 <= delta <= 2147483647
    ensures NewTotal(used, delta).None? <==> delta == -2147483648
    ensures NewTotal(used, delta).Some? && 0 < used + delta <= 18446744073709551615 ==> NewTotal(used, delta).value == used + delta
    ensures NewTotal(used, delta).Some? && 18446744073709551615 < used + delta ==> NewTotal(used, delta).value == 18446744073709551615
    ensures NewTotal(used, delta).Some? && delta < 0 && used + delta <= 0 ==> NewTotal(used, delta).value == 1000
  {
  }

  datatype SetOutcome = Stored | Refused | Crashed

  /** `set_application_to_cache`. */
  function SetApplication(s: Host, key: string, app: Bytes, cas: nat): (r: (Host, SetOutcome)) {
    var delta := MemoryDelta(key, app, Get(s, key).0);
    var (s', status) := Set(s, key, Some(app), cas);
    if status == CasMismatch then (s, Refused)
    else
      var (s'', panicked) := Retry(s', delta, TRIES);
      (s'', if panicked then Crashed else Stored)
  }

  // ---------------------------------------------------------------------------------------------
  // The code, with other threads writing between any two of its host calls.
  // ---------------------------------------------------------------------------------------------

  /** CAS numbers come from below `next`, and 1 has been handed out. */
  ghost predicate HostOk(s: Host) {
    2 <= s.next && forall k :: k in s.entries ==> 1 <= s.entries[k].cas < s.next
  }

  lemma {:induction false} WritesKeepHostOk(s: Host, writes: seq<Write<Bytes>>)
    requires HostOk(s)
    ensures HostOk(Apply(s, writes))
    decreases |writes|
  {
    if writes != [] {
      WritesKeepHostOk(Set(s, writes[0].key, writes[0].value, writes[0].cas).0, writes[1..]);
    }
  }

  /** An accepted write of this thread to the counter, with what it replaced. */
  datatype Replaced = Replaced(before: Option<Bytes>, after: Bytes)

  /** The write added the delta to exactly the total it replaced. */
  predicate AddsDelta(w: Replaced, delta: int)
    requires I32_MIN <= delta <= I32_MAX
  {
    && w.before.Some? && ReadTotal(w.before.value).Some?
    && var total := NewTotal(ReadTotal(w.before.value).value, delta);
       total.Some? && w.after == Encode(total.value)
  }

  /** Writes that only put the initial size in place. */
  ghost predicate OnlyInitial(log: seq<Replaced>, from: nat, to: nat) {
    to <= |log| && forall i :: from <= i < to ==> log[i].after == Encode(INITIAL_SIZE)
  }

  /** From here on, at most one write adds the delta; the others only put the initial size in place. */
  ghost predicate AddsOnceOrNever(log: seq<Replaced>, from: nat, delta: int)
    requires I32_MIN <= delta <= I32_MAX
  {
    || OnlyInitial(log, from, |log|)
    || (from < |log| && AddsDelta(log[|log| - 1], delta) && OnlyInitial(log, from, |log| - 1))
  }

  // What the others do to the counter while it is being updated.

  ghost predicate Touches(batch: seq<Write<Bytes>>) {
    exists i :: 0 <= i < |batch| && batch[i].key == COUNTER_KEY
  }

  /** How many batches of other threads' writes write the counter. */
  ghost function Beating(schedule: seq<seq<Write<Bytes>>>): nat {
    if schedule == [] then 0 else (if Touches(schedule[0]) then 1 else 0) + Beating(schedule[1..])
  }

  /** Nobody erases the counter or writes something else in its place. */
  ghost predicate Sober(batch: seq<Write<Bytes>>) {
    forall i :: 0 <= i < |batch| && batch[i].key == COUNTER_KEY ==> batch[i].value.Some? && |batch[i].value.value| == 8
  }

  ghost predicate AllSober(schedule: seq<seq<Write<Bytes>>>) {
    forall i :: 0 <= i < |schedule| ==> Sober(schedule[i])
  }

  predicate InPlace(s: Host) {
    COUNTER_KEY in s.entries && s.entries[COUNTER_KEY].value.Some? && |s.entries[COUNTER_KEY].value.value| == 8
  }

  lemma {:induction false} SoberBatch(s: Host, batch: seq<Write<Bytes>>)
    requires Sober(batch) && InPlace(s)
    ensures InPlace(Apply(s, batch))
    ensures !Touches(batch) ==> Apply(s, batch).entries[COUNTER_KEY] == s.entries[COUNTER_KEY]
    decreases |batch|
  {
    if batch != [] {
      var t := Set(s, batch[0].key, batch[0].value, batch[0].cas).0;
      assert InPlace(t) && (!Touches(batch) ==> t.entries[COUNTER_KEY] == s.entries[COUNTER_KEY]);
      assert forall i :: 0 <= i < |batch[1..]| ==> batch[1..][i] == batch[i + 1];
      SoberBatch(t, batch[1..]);
    }
  }

  class SharedMemory {
    var store: Host
    var schedule: seq<seq<Write<Bytes>>>
    ghost var log: seq<Replaced>

    constructor (store: Host, schedule: seq<seq<Write<Bytes>>>)
      ensures this.store == store && this.schedule == schedule && log == []
    {
      this.store, this.schedule, log := store, schedule, [];
    }

    /** The counter is in place, and nobody is going to spoil it. */
    ghost predicate Healthy()
      reads this`store, this`schedule
    {
      InPlace(store) && AllSober(schedule)
    }

    /** The next batch of other threads' writes. */
    method Interfere()
      requires HostOk(store)
      modifies this`store, this`schedule
      ensures HostOk(store) && Extends(old(store), store)
      ensures old(schedule) == [] ==> store == old(store) && schedule == []
      ensures Beating(schedule) <= old(Beating(schedule))
      ensures old(Healthy()) ==>
                && Healthy()
                && (Beating(schedule) == old(Beating(schedule)) ==>
                      store.entries[COUNTER_KEY] == old(store).entries[COUNTER_KEY])
    {
      if schedule != [] {
        var rest := schedule[0];
        while rest != []
          invariant schedule == old(schedule) && Apply(store, rest) == Apply(old(store), schedule[0])
          decreases |rest|
        {
          store, rest := Set(store, rest[0].key, rest[0].value, rest[0].cas).0, rest[1..];
        }
        WritesKeepHostOk(old(store), schedule[0]);
        WritesExtend(old(store), schedule[0]);
        if InPlace(old(store)) && AllSober(schedule) {
          SoberBatch(old(store), schedule[0]);
        }
        schedule := schedule[1..];
      }
    }

    method SetSharedData(key: string, value: Bytes, cas: nat) returns (status: Status)
      requires HostOk(store)
      modifies this`store, this`schedule, this`log
      ensures HostOk(store)
      ensures old(schedule) == [] ==> (store, status) == Set(old(store), key, Some(value), cas) && schedule == []
      ensures status == Ok ==> Get(store, key).0 == Some(value)
      ensures status == Ok && cas != OVERWRITE && key in old(store).entries ==>
                cas == old(store).entries[key].cas || old(store).next <= cas
      ensures cas == OVERWRITE ==> status == Ok
      ensures cas == 1 && key in old(store).entries && 2 <= old(store).entries[key].cas ==> status == CasMismatch
      ensures status == CasMismatch || key != COUNTER_KEY ==> log == old(log)
      ensures Beating(schedule) <= old(Beating(schedule))
      ensures old(Healthy()) && (key == COUNTER_KEY ==> |value| == 8) ==> Healthy()
      ensures old(Healthy()) && key == COUNTER_KEY && cas == old(store).entries[COUNTER_KEY].cas && status == CasMismatch ==>
                Beating(schedule) < old(Beating(schedule))
      ensures status == Ok && key == COUNTER_KEY ==>
                && |log| == |old(log)| + 1 && old(log) <= log
                && var w := log[|old(log)|];
                   w.after == value
                   && (cas != OVERWRITE && key in old(store).entries && cas == old(store).entries[key].cas ==>
                         w.before == old(store).entries[key].value)
    {
      Interfere();
      ghost var before := Get(store, key).0;
      var (store', status') := Set(store, key, Some(value), cas);
      store, status := store', status';
      if key == COUNTER_KEY && status == Ok {
        log := log + [Replaced(before, value)];
      }
    }

    /** The total and the CAS to write it back with, put in place first if it is missing. */
    method ReadOrInitialise() returns (r: Result<(nat, nat), UpdateError>)
      requires HostOk(store)
      modifies this`store, this`schedule, this`log
      ensures HostOk(store)
      ensures COUNTER_KEY in store.entries && r.Success? ==>
                r.value.0 <= U64_MAX
                && if r.value.1 == store.entries[COUNTER_KEY].cas
                   then store.entries[COUNTER_KEY].value.Some?
                        && ReadTotal(store.entries[COUNTER_KEY].value.value) == Some(r.value.0)
                   else r.value.1 == 1 && 2 <= store.entries[COUNTER_KEY].cas
      ensures r.Success? ==> COUNTER_KEY in store.entries && 1 <= r.value.1 < store.next
      ensures r.Failure? ==> r.error == NotEightBytes
      ensures Beating(schedule) <= old(Beating(schedule))
      ensures old(Healthy()) ==> Healthy() && r.Success? && r.value.1 == store.entries[COUNTER_KEY].cas
      ensures old(log) <= log && OnlyInitial(log, |old(log)|, |log|)
      ensures old(schedule) == [] ==>
                && schedule == []
                && var (value, cas) := Get(old(store), COUNTER_KEY);
                   if value.Some? && cas.Some? then
                     store == old(store)
                     && (if ReadTotal(value.value).Some? then r == Success((ReadTotal(value.value).value, cas.value))
                         else r.Failure?)
                   else store == Set(old(store), COUNTER_KEY, Some(Encode(INITIAL_SIZE)), OVERWRITE).0
                        && r == Success((INITIAL_SIZE, 1))
    {
      Interfere();
      var value, cas := Get(store, COUNTER_KEY).0, Get(store, COUNTER_KEY).1;
      if value.Some? && cas.Some? {
        var used := ReadTotal(value.value);
        if used.None? {
          return Failure(NotEightBytes);
        }
        return Success((used.value, cas.value));
      }
      var status := SetSharedData(COUNTER_KEY, Encode(INITIAL_SIZE), OVERWRITE);
      TotalRoundTrip(INITIAL_SIZE);
      return Success((INITIAL_SIZE, 1));
    }

    /** The new size, as the code computes it. */
    static method AddDelta(memoryUsed: nat, delta: int) returns (finalSize: Option<nat>)
      requires memoryUsed <= U64_MAX && I32_MIN <= delta <= I32_MAX
      ensures finalSize == NewTotal(memoryUsed, delta)
    {
      if delta < 0 {
        if delta == I32_MIN {
          return None;
        }
        if memoryUsed <= -delta {
          return Some(INITIAL_SIZE);
        }
        return Some(memoryUsed + delta);
      }
      return Some(if memoryUsed + delta <= U64_MAX then memoryUsed + delta else U64_MAX);
    }

    /** `update_shared_memory_size`. If it succeeds, it has added the delta, once, to exactly the total that
        its write replaced; if it fails, the delta was not added. */
    method UpdateSharedMemorySize(delta: int) returns (r: Result<nat, UpdateError>)
      requires HostOk(store) && I32_MIN <= delta <= I32_MAX
      modifies this`store, this`schedule, this`log
      ensures HostOk(store)
      ensures old(log) <= log
      ensures if r.Success?
              then |old(log)| < |log| && AddsDelta(log[|log| - 1], delta)
                   && OnlyInitial(log, |old(log)|, |log| - 1)
                   && r.value <= U64_MAX && log[|log| - 1].after == Encode(r.value)
              else OnlyInitial(log, |old(log)|, |log|)
      ensures old(schedule) == [] ==> schedule == [] && (store, r) == Update(old(store), delta)
      ensures old(Healthy()) && delta != -2147483648 ==>
                Healthy() && (if r.Success? then Beating(schedule) <= old(Beating(schedule))
                              else r.error == SetFail && Beating(schedule) < old(Beating(schedule)))
    {
      var read := ReadOrInitialise();
      if read.Failure? {
        return Failure(read.error);
      }
      var memoryUsed, cas := read.value.0, read.value.1;
      var newSize := AddDelta(memoryUsed, delta);
      if newSize.None? {
        return Failure(Panicked);
      }
      var finalSize := newSize.value;
      var status := SetSharedData(COUNTER_KEY, Encode(finalSize), cas);
      if status == CasMismatch {
        return Failure(SetFail);
      }
      return Success(finalSize);
    }

    /** `get_cache_pair_size`, up to adding the lengths. */
    method ReadStored(key: string) returns (value: Option<Bytes>)
      requires HostOk(store)
      modifies this`store, this`schedule
      ensures HostOk(store) && Extends(old(store), store) && value == Get(store, key).0
      ensures old(schedule) == [] ==> store == old(store) && schedule == []
      ensures Beating(schedule) <= old(Beating(schedule)) && (old(Healthy()) ==> Healthy())
    {
      Interfere();
      value := Get(store, key).0;
    }

    /** The loop of three tries. A counter in place gets the delta if the others write it in at most two
        batches: each of these beats at most one try. */
    method TryThreeTimes(delta: int) returns (panicked: bool)
      requires HostOk(store) && I32_MIN <= delta <= I32_MAX
      modifies this`store, this`schedule, this`log
      ensures HostOk(store)
      ensures old(log) <= log && AddsOnceOrNever(log, |old(log)|, delta)
      ensures old(schedule) == [] ==> schedule == [] && (store, panicked) == Retry(old(store), delta, TRIES)
      ensures old(Healthy()) && old(Beating(schedule)) <= 2 && delta != -2147483648 ==>
                !panicked && |old(log)| < |log| && AddsDelta(log[|log| - 1], delta)
    {
      for numTry := 0 to TRIES
        invariant HostOk(store)
        invariant old(log) <= log && OnlyInitial(log, |old(log)|, |log|)
        invariant old(schedule) == [] ==>
                    schedule == [] && Retry(old(store), delta, TRIES) == Retry(store, delta, TRIES - numTry)
        invariant old(Healthy()) && delta != -2147483648 ==> Healthy() && Beating(schedule) + numTry <= old(Beating(schedule))
      {
        var r := UpdateSharedMemorySize(delta);
        if r.Success? {
          return false;
        } else if r.error.Panicked? {
          return true;
        }
      }
      return false;
    }

    /** `set_application_to_cache`. Whatever the others do meanwhile, of up to three tries at most one adds
        the delta to the counter, and it adds it to exactly the total it replaces. */
    method SetApplicationToCache(key: string, app: Bytes, cas: nat) returns (outcome: SetOutcome, ghost delta: int)
      requires HostOk(store) && key != COUNTER_KEY
      modifies this`store, this`schedule, this`log
      ensures HostOk(store) && I32_MIN <= delta <= I32_MAX
      ensures outcome == Refused ==> log == old(log)
      ensures old(log) <= log && AddsOnceOrNever(log, |old(log)|, delta)
      ensures old(schedule) == [] ==>
                && schedule == [] && (store, outcome) == SetApplication(old(store), key, app, cas)
                && delta == MemoryDelta(key, app, Get(old(store), key).0)
      ensures old(Healthy()) && old(Beating(schedule)) <= 2 && delta != -2147483648 && outcome != Refused ==>
                outcome == Stored && |old(log)| < |log| && AddsDelta(log[|log| - 1], delta)
    {
      var stored := ReadStored(key);
      var memoryDelta := MemoryDelta(key, app, stored);
      delta := memoryDelta;
      var status := SetSharedData(key, app, cas);
      if status == CasMismatch {
        return Refused, delta;
      }
      var panicked := TryThreeTimes(memoryDelta);
      return if panicked then Crashed else Stored, delta;
    }
  }

  // ---------------------------------------------------------------------------------------------
  // Runs of one thread.
  // ---------------------------------------------------------------------------------------------

  datatype Op = SetApp(key: string, app: Bytes, cas: nat) | RemoveApp(key: string) | OtherWrite(write: Write<Bytes>)

  function Do(s: Host, op: Op): Host {
    match op
    case SetApp(key, app, cas) => SetApplication(s, key, app, cas).0
    case RemoveApp(key) => Set(s, key, None, OVERWRITE).0
    case OtherWrite(w) => Set(s, w.key, w.value, w.cas).0
  }

  /** The store before, between and after the operations. */
  ghost predicate IsRun(states: seq<Host>, ops: seq<Op>) {
    |states| == |ops| + 1 && forall i :: 0 <= i < |ops| ==> Happens(states, ops, i)
  }

  ghost predicate Happens(states: seq<Host>, ops: seq<Op>, i: nat)
    requires i < |ops| < |states|
  {
    states[i + 1] == Do(states[i], ops[i])
  }

  /** The store after the singleton has put the counter in place. */
  function Booted(): Host {
    Set(Store(map[], 1), COUNTER_KEY, Some(Encode(INITIAL_SIZE)), OVERWRITE).0
  }

  function LengthAt(s: Host, key: string): nat {
    var value := Get(s, key).0;
    if value.Some? then |value.value| else 0
  }

  /** The total length of the applications in the cache. */
  function LiveBytes(s: Host, keys: seq<string>): nat {
    if keys == [] then 0 else LiveBytes(s, keys[..|keys| - 1]) + LengthAt(s, keys[|keys| - 1])
  }

  /** The total length of the applications that were in the cache when they were removed. */
  function LostBytes(states: seq<Host>, ops: seq<Op>, n: nat): nat
    requires n <= |ops| < |states|
  {
    if n == 0 then 0 else LostBytes(states, ops, n - 1) + LostTo(states[n - 1], ops[n - 1])
  }

  function LostTo(s: Host, op: Op): nat {
    if op.RemoveApp? then LengthAt(s, op.key) else 0
  }

  /** The applications live under these keys, the counter and everything else under others; the lengths
      fit into 32 bits. */
  predicate Proper(op: Op, keys: seq<string>) {
    match op
    case SetApp(key, app, _) => key in keys && |key| + |app| <= I32_MAX
    case RemoveApp(key) => key in keys
    case OtherWrite(w) => w.key !in keys && w.key != COUNTER_KEY
  }

  predicate AllProper(ops: seq<Op>, keys: seq<string>) {
    forall i :: 0 <= i < |ops| ==> Proper(ops[i], keys)
  }

  ghost predicate AppKeys(keys: seq<string>) {
    && COUNTER_KEY !in keys && (forall k :: k in keys ==> |k| <= I32_MAX)
    && (forall i, j :: 0 <= i < j < |keys| ==> keys[i] != keys[j])
  }

  lemma {:induction false} LiveBytesChange(s: Host, t: Host, keys: seq<string>, key: string)
    requires AppKeys(keys)
    requires forall k :: k in keys && k != key ==> LengthAt(t, k) == LengthAt(s, k)
    ensures LiveBytes(t, keys) - LiveBytes(s, keys) == if key in keys then LengthAt(t, key) - LengthAt(s, key) else 0
    decreases |keys|
  {
    if keys != [] {
      var rest := keys[..|keys| - 1];
      assert forall k :: k in rest ==> k in keys;
      LiveBytesChange(s, t, rest, key);
      assert key in keys <==> key in rest || key == keys[|keys| - 1];
    }
  }

  lemma {:induction false} LengthIsLive(s: Host, keys: seq<string>, key: string)
    requires key in keys
    ensures LengthAt(s, key) <= LiveBytes(s, keys)
    decreases |keys|
  {
    if key != keys[|keys| - 1] {
      LengthIsLive(s, keys[..|keys| - 1], key);
    }
  }

  /** With the total in place and no overflow either way, an update adds exactly the delta. */
  lemma UpdateIsExact(s: Host, total: nat, delta: int)
    requires Get(s, COUNTER_KEY).0 == Some(Encode(total)) && total <= U64_MAX && I32_MIN < delta <= I32_MAX
    requires 0 < total + delta <= U64_MAX
    ensures Update(s, delta).1 == Success(total + delta)
    ensures Update(s, delta).0 == Set(s, COUNTER_KEY, Some(Encode(total + delta)), s.entries[COUNTER_KEY].cas).0
  {
    TotalRoundTrip(total);
  }

  /** What holds between two operations. */
  ghost predicate Counted(s: Host, keys: seq<string>, total: nat) {
    && Get(s, COUNTER_KEY).0 == Some(Encode(total)) && INITIAL_SIZE + LiveBytes(s, keys) <= total <= U64_MAX
    && (forall k :: k in keys ==> |k| + LengthAt(s, k) <= I32_MAX)
  }

  /** The branch that the code calls theoretically not possible is not taken. */
  lemma ResetIsUnreachable(s: Host, keys: seq<string>, total: nat, key: string, app: Bytes)
    requires Counted(s, keys, total) && key in keys && |key| + |app| <= I32_MAX
    ensures var delta := MemoryDelta(key, app, Get(s, key).0);
            delta == |app| - LengthAt(s, key) && I32_MIN < delta && INITIAL_SIZE <= total + delta
  {
    LengthIsLive(s, keys, key);
  }

  /** What an operation may change: one application's value, or one value that is no application's; and the
      counter, by the difference, unless the value is erased. */
  predicate Effect(s: Host, t: Host, keys: seq<string>, total: nat, total': nat, key: string, lost: nat) {
    && key != COUNTER_KEY && total' <= total + I32_MAX && total' <= U64_MAX
    && Get(t, COUNTER_KEY).0 == Some(Encode(total'))
    && (key in keys ==> |key| + LengthAt(t, key) <= I32_MAX
                        && total' == total + LengthAt(t, key) - LengthAt(s, key) + lost)
    && (key !in keys ==> total' == total && lost == 0)
  }

  ghost predicate OnlyAt(s: Host, t: Host, keys: seq<string>, key: string) {
    forall k :: k in keys && k != key ==> LengthAt(t, k) == LengthAt(s, k)
  }

  /** One accepted write of an application: the pair and the new total are in the store, and nothing else
      has changed. */
  lemma SetAppEffect(s: Host, keys: seq<string>, total: nat, key: string, app: Bytes, cas: nat)
    requires AppKeys(keys) && Counted(s, keys, total) && key in keys && |key| + |app| <= I32_MAX
    requires total + |app| <= U64_MAX && Accepts(s, key, cas)
    ensures var (t, outcome) := SetApplication(s, key, app, cas);
            && outcome == Stored && Get(t, key).0 == Some(app) && 0 <= total + |app| - LengthAt(s, key)
            && Effect(s, t, keys, total, total + |app| - LengthAt(s, key), key, 0) && OnlyAt(s, t, keys, key)
  {
    var delta := MemoryDelta(key, app, Get(s, key).0);
    var s1 := Set(s, key, Some(app), cas).0;
    ResetIsUnreachable(s, keys, total, key, app);
    UpdateIsExact(s1, total, delta);
    assert Retry(s1, delta, TRIES) == (Update(s1, delta).0, false);
  }

  lemma RefusedHasEffect(s: Host, keys: seq<string>, total: nat, key: string, app: Bytes, cas: nat)
    requires Counted(s, keys, total) && key in keys && key != COUNTER_KEY && !Accepts(s, key, cas)
    ensures SetApplication(s, key, app, cas) == (s, Refused)
    ensures Effect(s, s, keys, total, total, key, 0) && OnlyAt(s, s, keys, key)
  {
  }

  lemma SetAppHasEffect(s: Host, keys: seq<string>, total: nat, key: string, app: Bytes, cas: nat) returns (total': nat)
    requires AppKeys(keys) && Counted(s, keys, total) && key in keys && |key| + |app| <= I32_MAX
    requires total + I32_MAX <= U64_MAX
    ensures var t := SetApplication(s, key, app, cas).0;
            Effect(s, t, keys, total, total', key, 0) && OnlyAt(s, t, keys, key)
  {
    if Accepts(s, key, cas) {
      SetAppEffect(s, keys, total, key, app, cas);
      total' := total + |app| - LengthAt(s, key);
    } else {
      total' := total;
      RefusedHasEffect(s, keys, total, key, app, cas);
    }
  }

  lemma WriteHasEffect(s: Host, keys: seq<string>, total: nat, w: Write<Bytes>)
    requires Counted(s, keys, total) && w.key != COUNTER_KEY && total + I32_MAX <= U64_MAX
    requires w.key in keys ==> w.value == None && w.cas == OVERWRITE
    requires forall k :: k in keys ==> |k| <= I32_MAX
    ensures var t := Set(s, w.key, w.value, w.cas).0;
            Effect(s, t, keys, total, total, w.key, if w.key in keys then LengthAt(s, w.key) else 0)
            && OnlyAt(s, t, keys, w.key)
  {
  }

  /** An operation has that effect. */
  lemma OpEffect(s: Host, keys: seq<string>, total: nat, op: Op) returns (key: string, total': nat)
    requires AppKeys(keys) && Counted(s, keys, total) && Proper(op, keys) && total + I32_MAX <= U64_MAX
    ensures Effect(s, Do(s, op), keys, total, total', key, LostTo(s, op)) && OnlyAt(s, Do(s, op), keys, key)
  {
    match op
    case SetApp(k, app, cas) => key := k; total' := SetAppHasEffect(s, keys, total, k, app, cas);
    case RemoveApp(k) => key, total' := k, total; WriteHasEffect(s, keys, total, Write(k, None, OVERWRITE));
    case OtherWrite(w) => key, total' := w.key, total; WriteHasEffect(s, keys, total, w);
  }

  /** With that effect, the counter still counts. */
  lemma EffectCounts(s: Host, t: Host, keys: seq<string>, total: nat, total': nat, key: string, lost: nat)
    requires AppKeys(keys) && Counted(s, keys, total)
    requires Effect(s, t, keys, total, total', key, lost) && OnlyAt(s, t, keys, key)
    ensures Counted(t, keys, total') && total' == total + LiveBytes(t, keys) - LiveBytes(s, keys) + lost
  {
    LiveBytesChange(s, t, keys, key);
    forall k | k in keys ensures |k| + LengthAt(t, k) <= I32_MAX {
      if k != key {
        assert LengthAt(t, k) == LengthAt(s, k);
      }
    }
  }

  /** The counter is what it should be after `count` operations. */
  ghost predicate Exact(keys: seq<string>, s: Host, lost: nat, count: nat) {
    var total := INITIAL_SIZE + LiveBytes(s, keys) + lost;
    Counted(s, keys, total) && total <= INITIAL_SIZE + count * I32_MAX
  }

  lemma ExactStep(keys: seq<string>, s: Host, t: Host, total': nat, key: string, lost: nat, more: nat, count: nat)
    requires AppKeys(keys) && Exact(keys, s, lost, count)
    requires Effect(s, t, keys, INITIAL_SIZE + LiveBytes(s, keys) + lost, total', key, more) && OnlyAt(s, t, keys, key)
    ensures Exact(keys, t, lost + more, count + 1)
  {
    EffectCounts(s, t, keys, INITIAL_SIZE + LiveBytes(s, keys) + lost, total', key, more);
  }

  lemma {:induction false} ExactAtBoot(keys: seq<string>)
    requires AppKeys(keys)
    ensures Exact(keys, Booted(), 0, 0)
  {
    NothingLive(keys);
  }

  lemma OpStaysExact(keys: seq<string>, states: seq<Host>, ops: seq<Op>, i: nat)
    requires i < |ops| < |states| && i < 0xFFFF_FFFF && Happens(states, ops, i)
    requires AppKeys(keys) && Proper(ops[i], keys) && Exact(keys, states[i], LostBytes(states, ops, i), i)
    ensures Exact(keys, states[i + 1], LostBytes(states, ops, i + 1), i + 1)
  {
    var s, op, lost := states[i], ops[i], LostBytes(states, ops, i);
    var key, total' := OpEffect(s, keys, INITIAL_SIZE + LiveBytes(s, keys) + lost, op);
    ExactStep(keys, s, states[i + 1], total', key, lost, LostTo(s, op), i);
    assert LostBytes(states, ops, i + 1) == lost + LostTo(s, op);
  }

  lemma {:induction false} CounterStaysExact(keys: seq<string>, states: seq<Host>, ops: seq<Op>, n: nat)
    requires IsRun(states, ops) && n <= |ops| <= 0xFFFF_FFFF
    requires AppKeys(keys) && Exact(keys, states[0], 0, 0) && AllProper(ops, keys)
    ensures Exact(keys, states[n], LostBytes(states, ops, n), n)
  {
    if n > 0 {
      CounterStaysExact(keys, states, ops, n - 1);
      OpStaysExact(keys, states, ops, n - 1);
    }
  }

  /** In every run of one thread on applications whose lengths fit, the counter is the initial size plus
      what is in the cache plus what was in the cache when it was removed. */
  lemma CounterIsExact(keys: seq<string>, states: seq<Host>, ops: seq<Op>)
    requires IsRun(states, ops) && states[0] == Booted() && |ops| <= 0xFFFF_FFFF
    requires AppKeys(keys) && AllProper(ops, keys)
    ensures Exact(keys, states[|ops|], LostBytes(states, ops, |ops|), |ops|)
  {
    ExactAtBoot(keys);
    CounterStaysExact(keys, states, ops, |ops|);
  }

  /** So the counter is the initial size plus what is in the cache if and only if nothing was lost to
      removals. */
  lemma CounterShowsLosses(keys: seq<string>, s: Host, lost: nat, count: nat)
    requires Exact(keys, s, lost, count)
    ensures Get(s, COUNTER_KEY).0 == Some(Encode(INITIAL_SIZE + LiveBytes(s, keys))) <==> lost == 0
  {
    TotalRoundTrip(INITIAL_SIZE + LiveBytes(s, keys) + lost);
    TotalRoundTrip(INITIAL_SIZE + LiveBytes(s, keys));
  }

  lemma {:induction false} NothingLive(keys: seq<string>)
    requires COUNTER_KEY !in keys
    ensures LiveBytes(Booted(), keys) == 0
    decreases |keys|
  {
    if keys != [] {
      NothingLive(keys[..|keys| - 1]);
    }
  }

  /** A missing total: the write that follows its initialisation assumes CAS 1, so it succeeds if and only
      if the initialisation was the first write ever. Otherwise the first try fails, and the second adds
      the delta to the initial size. */
  lemma MissingCounterCostsOneTry(s: Host, delta: int)
    requires Get(s, COUNTER_KEY).0 == None && 1 <= s.next && I32_MIN < delta <= I32_MAX
    ensures Update(s, delta).1.Success? <==> s.next == 1
    ensures var t := Retry(s, delta, TRIES).0;
            Get(t, COUNTER_KEY).0 == Some(Encode(NewTotal(INITIAL_SIZE, delta).value)) && !Retry(s, delta, TRIES).1
  {
    var (s1, r1) := Update(s, delta);
    TotalRoundTrip(INITIAL_SIZE);
    if s.next != 1 {
      assert Get(s1, COUNTER_KEY).0 == Some(Encode(INITIAL_SIZE));
      var (s2, r2) := Update(s1, delta);
      assert r2.Success?;
      assert Retry(s1, delta, 2) == (s2, false);
    }
  }
}
