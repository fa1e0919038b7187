/** The host's shared key-value store, as the filter's own notes describe it: every entry pairs an
    optional value with a CAS number, and `set` is refused only when the entry exists and the caller
    passed a nonzero CAS other than the stored one. Both calls are atomic in the host. */
module SharedData {
  import opened Wrappers

  datatype Entry<V> = Entry(value: Option<V>, cas: nat)

  /** `next` is the CAS number the next successful write will get; numbers are never reused. */
  datatype Store<V> = Store(entries: map<string, Entry<V>>, next: nat)

  datatype Status = Ok | CasMismatch

  /** The CAS a caller passes to overwrite whatever is there (`None` in the SDK). */
  const OVERWRITE: nat := 0

  /** What `get_shared_data` returns: an absent key yields neither value nor CAS. */
  function Get<V>(s: Store<V>, key: string): (r: (Option<V>, Option<nat>)) {
    if key in s.entries then (s.entries[key].value, Some(s.entries[key].cas)) else (None, None)
  }

  /** Whether `set_shared_data` accepts this CAS for this key. */
  predicate Accepts<V>(s: Store<V>, key: string, cas: nat) {
    key in s.entries ==> cas == OVERWRITE || cas == s.entries[key].cas
  }

  /** `set_shared_data`. Erasing a value keeps the entry, with a new CAS. */
  function Set<V>(s: Store<V>, key: string, value: Option<V>, cas: nat): (r: (Store<V>, Status)) {
    if Accepts(s, key, cas)
    then (Store(s.entries[key := Entry(value, s.next)], s.next + 1), Ok)
    else (s, CasMismatch)
  }

  /** The host's contract, seen from outside: a write is refused exactly when the key is there, the caller
      names a CAS, and it is not the stored one; then nothing changes. An accepted write is what the next
      `get` of that key returns, under a CAS never seen before, and no other key is touched. */
  lemma SetMeans<V>(s: Store<V>, key: string, value: Option<V>, cas: nat, other: string)
    requires forall k :: k in s.entries ==> s.entries[k].cas < s.next
    ensures var (t, status) := Set(s, key, value, cas);
            && (status == CasMismatch <==> exists stored :: Get(s, key).1 == Some(stored) && cas != 0 && cas != stored)
            && (status == CasMismatch ==> t == s)
            && (status == Ok ==> Get(t, key).0 == value && Get(t, key).1.Some?
                                 && (forall k :: k in s.entries ==> s.entries[k].cas < Get(t, key).1.value < t.next))
            && (other != key ==> Get(t, other) == Get(s, other))
  {
    if key in s.entries {
      assert Get(s, key).1 == Some(s.entries[key].cas);
    }
  }

  /** Every stored CAS was handed out before `next`, and none is 0 or 1. */
  ghost predicate Sound<V>(s: Store<V>) {
    && 2 <= s.next
    && forall k :: k in s.entries ==> 2 <= s.entries[k].cas < s.next
  }

  /** One write request of some thread. */
  datatype Write<V> = Write(key: string, value: Option<V>, cas: nat)

  function Apply<V>(s: Store<V>, writes: seq<Write<V>>): (r: Store<V>)
    decreases |writes|
  {
    if writes == [] then s
    else Apply(Set(s, writes[0].key, writes[0].value, writes[0].cas).0, writes[1..])
  }

  /** Nothing disappears, and whatever changed carries a CAS that did not exist before. */
  ghost predicate Extends<V>(s: Store<V>, t: Store<V>) {
    && s.next <= t.next
    && s.entries.Keys <= t.entries.Keys
    && (forall k :: k in t.entries ==>
          (k in s.entries && t.entries[k] == s.entries[k]) || s.next <= t.entries[k].cas < t.next)
  }

  lemma {:induction false} WritesExtend<V>(s: Store<V>, writes: seq<Write<V>>)
    ensures Extends(s, Apply(s, writes))
    decreases |writes|
  {
    if writes != [] {
      var t := Set(s, writes[0].key, writes[0].value, writes[0].cas).0;
      assert Extends(s, t);
      WritesExtend(t, writes[1..]);
    }
  }

  lemma {:induction false} WritesKeepSound<V>(s: Store<V>, writes: seq<Write<V>>)
    requires Sound(s)
    ensures Sound(Apply(s, writes))
    decreases |writes|
  {
    if writes != [] {
      WritesKeepSound(Set(s, writes[0].key, writes[0].value, writes[0].cas).0, writes[1..]);
    }
  }

  /** ABA-freedom of the store: after any writes by anybody, an entry that shows the CAS it showed
      before was never touched; so a `set` guarded by that CAS replaces exactly the value read. */
  lemma CasIdentifiesEntry<V>(s: Store<V>, writes: seq<Write<V>>, key: string)
    requires Sound(s) && key in s.entries
    ensures var t := Apply(s, writes);
            key in t.entries && (t.entries[key].cas == s.entries[key].cas <==> t.entries[key] == s.entries[key])
  {
    WritesExtend(s, writes);
  }
}
