/** The strings under which things are filed: a service id, an underscore, and a token or an application id.
    Printing is not checked for underscores inside the parts, so what can be read back, and what can be
    confused, depends on them. */
module Keys {
  import opened Wrappers

  const SEPARATOR: char := '_'

  function Join(id: string, rest: string): (key: string)
    ensures SEPARATOR in key
  {
    var key := id + [SEPARATOR] + rest;
    assert key[|id|] == SEPARATOR;
    key
  }

  /** `str::split` on one character: never empty, and one piece more than there are separators. */
  function Split(s: string): (pieces: seq<string>)
    ensures pieces != []
    ensures |pieces| == 1 <==> SEPARATOR !in s
    decreases |s|
  {
    if s == [] then [""]
    else
      var pieces := Split(s[1..]);
      if s[0] == SEPARATOR then [""] + pieces else [[s[0]] + pieces[0]] + pieces[1..]
  }

  /** The pair that `report` reads from a delta key: its first two pieces. */
  function Parse(key: string): (r: Option<(string, string)>)
    ensures r.Some? <==> SEPARATOR in key
  {
    var pieces := Split(key);
    if |pieces| < 2 then None else Some((pieces[0], pieces[1]))
  }

  /** The part of a string before its first separator. */
  function Head(s: string): (h: string)
    decreases |s|
  {
    if s == [] || s[0] == SEPARATOR then [] else [s[0]] + Head(s[1..])
  }

  lemma {:induction false} HeadIsWhole(s: string)
    ensures Head(s) == s <==> SEPARATOR !in s
    decreases |s|
  {
    if s != [] {
      HeadIsWhole(s[1..]);
      assert s == [s[0]] + s[1..];
      if s[0] != SEPARATOR && Head(s) == s {
        assert Head(s)[1..] == Head(s[1..]);
      }
    }
  }

  lemma {:induction false} SplitFirst(s: string)
    ensures Split(s)[0] == Head(s)
    decreases |s|
  {
    if s != [] {
      SplitFirst(s[1..]);
    }
  }

  lemma {:induction false} SplitJoined(id: string, rest: string)
    requires SEPARATOR !in id
    ensures Split(Join(id, rest)) == [id] + Split(rest)
    decreases |id|
  {
    var key := Join(id, rest);
    if id == [] {
      assert key[1..] == rest;
    } else {
      assert key[1..] == Join(id[1..], rest);
      SplitJoined(id[1..], rest);
      assert [id[0]] + id[1..] == id;
    }
  }

  /** What reading a printed key returns, always: the id up to its first separator; then the token up to its
      first separator, unless the id had a separator of its own. */
  lemma ParseJoined(id: string, token: string)
    ensures Parse(Join(id, token)).Some?
    ensures Parse(Join(id, token)).value.0 == Head(id)
    ensures SEPARATOR !in id ==> Parse(Join(id, token)).value.1 == Head(token)
  {
    var key := Join(id, token);
    SplitFirst(key);
    HeadOfJoined(id, token);
    if SEPARATOR !in id {
      SplitJoined(id, token);
      SplitFirst(token);
    }
  }

  lemma {:induction false} HeadOfJoined(id: string, rest: string)
    ensures Head(Join(id, rest)) == Head(id)
    decreases |id|
  {
    var key := Join(id, rest);
    if id != [] {
      assert key[1..] == Join(id[1..], rest);
      HeadOfJoined(id[1..], rest);
    }
  }

  /** Printing and reading a service key are inverse exactly when neither part holds a separator. */
  lemma RoundTripIff(id: string, token: string)
    ensures Parse(Join(id, token)) == Some((id, token)) <==> SEPARATOR !in id && SEPARATOR !in token
  {
    ParseJoined(id, token);
    HeadIsWhole(id);
    HeadIsWhole(token);
  }

  /** The second pair is the first with a piece moved across the separator. */
  predicate Shifted(a: string, b: string, c: string, d: string) {
    && |c| < |a| && a[..|c|] == c && a[|c|] == SEPARATOR
    && d == Join(a[|c| + 1..], b)
  }

  /** Two pairs print alike only if they are the same or one is the other shifted. */
  lemma CollideIff(a: string, b: string, c: string, d: string)
    ensures Join(a, b) == Join(c, d) <==> (a == c && b == d) || Shifted(a, b, c, d) || Shifted(c, d, a, b)
  {
    if Join(a, b) == Join(c, d) {
      if |a| == |c| {
        SameLength(a, b, c, d);
      } else if |c| < |a| {
        ShiftedWhenLonger(a, b, c, d);
      } else {
        ShiftedWhenLonger(c, d, a, b);
      }
    }
    if Shifted(a, b, c, d) {
      JoinShifted(a, b, c, d);
    }
    if Shifted(c, d, a, b) {
      JoinShifted(c, d, a, b);
    }
  }

  lemma SameLength(a: string, b: string, c: string, d: string)
    requires Join(a, b) == Join(c, d) && |a| == |c|
    ensures a == c && b == d
  {
    assert a == Join(a, b)[..|a|] && c == Join(c, d)[..|a|];
    assert b == Join(a, b)[|a| + 1..] && d == Join(c, d)[|a| + 1..];
  }

  lemma ShiftedWhenLonger(a: string, b: string, c: string, d: string)
    requires Join(a, b) == Join(c, d) && |c| < |a|
    ensures Shifted(a, b, c, d)
  {
    var key := Join(a, b);
    assert a[..|c|] == key[..|c|] && c == Join(c, d)[..|c|];
    assert a[|c|] == key[|c|] && key[|c|] == Join(c, d)[|c|];
    assert d == Join(c, d)[|c| + 1..];
    assert key[|c| + 1..] == Join(a[|c| + 1..], b);
  }

  lemma JoinShifted(a: string, b: string, c: string, d: string)
    requires Shifted(a, b, c, d)
    ensures Join(a, b) == Join(c, d)
  {
    assert a == c + [SEPARATOR] + a[|c| + 1..];
  }

  /** So with ids free of separators no two services share a key, whatever their tokens. */
  lemma KeysAreInjective(a: string, b: string, c: string, d: string)
    requires SEPARATOR !in a && SEPARATOR !in c
    ensures Join(a, b) == Join(c, d) <==> a == c && b == d
  {
    CollideIff(a, b, c, d);
  }

  /** Without that they can, and what is read back names neither of them. */
  lemma IdsCanCollide()
    ensures Join("a_b", "c") == Join("a", "b_c")
    ensures Parse(Join("a_b", "c")) == Some(("a", "b"))
  {
    SplitJoined("a", "b_c");
    assert Join("b", "c") == "b_c";
    SplitJoined("b", "c");
    assert Join("a", "b_c") == Join("a_b", "c");
  }

  // ---------------------------------------------------------------------------------------------
  // Application identifiers and cache keys.
  // ---------------------------------------------------------------------------------------------

  datatype AppIdentifier = AppId(id: string, key: Option<string>) | UserKey(userKey: string)
  {
    /** All that equality and hashing look at. */
    function AsRef(): string {
      match this
      case AppId(id, _) => id
      case UserKey(userKey) => userKey
    }
  }

  datatype CacheKey = CacheKey(serviceId: string, appId: AppIdentifier)
  {
    function AsString(): string {
      Join(serviceId, appId.AsRef())
    }
  }

  predicate SameCacheKey(a: CacheKey, b: CacheKey) {
    a.AsString() == b.AsString()
  }

  /** How a cache key prints: the service id, an underscore, and the application id or the user key; the
      application key is not in it. */
  lemma CacheKeyPrints(s: string, id: string, key: Option<string>, userKey: string)
    ensures CacheKey(s, AppId(id, key)).AsString() == s + "_" + id
    ensures CacheKey(s, UserKey(userKey)).AsString() == s + "_" + userKey
  {
  }

  /** Cache keys are equal exactly when the service ids are, and the application ids or user keys, if service
      ids hold no underscore; application keys never matter, nor does it whether an equal string is an
      application id or a user key. */
  lemma SameCacheKeyIff(s: string, t: string, i: string, k: Option<string>, j: string, l: Option<string>)
    requires '_' !in s && '_' !in t
    ensures SameCacheKey(CacheKey(s, AppId(i, k)), CacheKey(t, AppId(j, l))) <==> s == t && i == j
    ensures SameCacheKey(CacheKey(s, AppId(i, k)), CacheKey(t, UserKey(j))) <==> s == t && i == j
    ensures SameCacheKey(CacheKey(s, UserKey(i)), CacheKey(t, UserKey(j))) <==> s == t && i == j
  {
    KeysAreInjective(s, i, t, j);
  }

  const LOCK_PREFIX := "CL"

  /** The key of the callout lock for a cache key. */
  function LockKey(k: CacheKey): string {
    Join(LOCK_PREFIX, k.AsString())
  }

  /** Locks of different cache keys are different, and a lock shares its key with an application exactly
      when that application belongs to a service called like the prefix. */
  lemma LockKeysAreApart(k: CacheKey, l: CacheKey)
    ensures LockKey(k) == "CL_" + k.AsString()
    ensures LockKey(k) == LockKey(l) <==> SameCacheKey(k, l)
    ensures '_' !in l.serviceId ==>
              (LockKey(k) == l.AsString() <==>
                 l.serviceId == "CL" && (l.appId == UserKey(k.AsString()) || (l.appId.AppId? && l.appId.id == k.AsString())))
  {
    assert LockKey(k) == "CL_" + k.AsString();
    assert SEPARATOR !in LOCK_PREFIX;
    KeysAreInjective(LOCK_PREFIX, k.AsString(), LOCK_PREFIX, l.AsString());
    if SEPARATOR !in l.serviceId {
      KeysAreInjective(LOCK_PREFIX, k.AsString(), l.serviceId, l.appId.AsRef());
    }
  }

  /** And exactly one application id, or user key, is filed where the memory counter is. */
  lemma CounterKeyIsAnAppKey(s: string, id: string, key: Option<string>)
    requires '_' !in s
    ensures CacheKey(s, AppId(id, key)).AsString() == "SHARED_MEMORY_COUNTER" <==> s == "SHARED" && id == "MEMORY_COUNTER"
    ensures CacheKey(s, UserKey(id)).AsString() == "SHARED_MEMORY_COUNTER" <==> s == "SHARED" && id == "MEMORY_COUNTER"
  {
    var service, app := "SHARED", "MEMORY_COUNTER";
    assert Join(service, app) == "SHARED_MEMORY_COUNTER";
    assert SEPARATOR !in service;
    KeysAreInjective(s, id, service, app);
  }
}
