/** The in-process TTL/LRU cache: an ordered dictionary, oldest use first, with byte and
    per-namespace counters that are maintained incrementally. */
module TtlCache {
  import opened Prelude
  import opened Sorting

  /** One entry of the ordered dictionary, with its key. */
  datatype Entry<V> = Entry(key: string, value: V, expiresAt: real, size: nat, namespace: string)

  // ---------------------------------------------------------------- the true sums

  function TotalSize<V>(entries: seq<Entry<V>>): nat {
    if entries == [] then 0 else TotalSize(Front(entries)) + Last(entries).size
  }

  function CountIn<V>(entries: seq<Entry<V>>, ns: string): nat {
    if entries == [] then 0 else CountIn(Front(entries), ns) + if Last(entries).namespace == ns then 1 else 0
  }

  function SizeIn<V>(entries: seq<Entry<V>>, ns: string): nat {
    if entries == [] then 0
    else SizeIn(Front(entries), ns) + if Last(entries).namespace == ns then Last(entries).size else 0
  }

  ghost predicate KeysDistinct<V>(entries: seq<Entry<V>>) {
    entries == [] || (KeysDistinct(Front(entries)) && forall e | e in Front(entries) :: e.key != Last(entries).key)
  }

  // ---------------------------------------------------------------- what the methods do to the entries

  function Find<V>(entries: seq<Entry<V>>, key: string): Option<Entry<V>> {
    if entries == [] then None
    else if Last(entries).key == key then Some(Last(entries))
    else Find(Front(entries), key)
  }

  function Without<V>(entries: seq<Entry<V>>, key: string): seq<Entry<V>> {
    if entries == [] then []
    else if Last(entries).key == key then Without(Front(entries), key)
    else Without(Front(entries), key) + [Last(entries)]
  }

  /** What is left once the keys have been removed. */
  function Dropped<V>(entries: seq<Entry<V>>, keys: seq<string>): seq<Entry<V>> {
    if entries == [] then []
    else if Last(entries).key in keys then Dropped(Front(entries), keys)
    else Dropped(Front(entries), keys) + [Last(entries)]
  }

  /** A hit: present and not past its expiry. */
  function Hit<V>(entries: seq<Entry<V>>, key: string, now: real): Option<V> {
    match Find(entries, key)
    case None => None
    case Some(e) => if now > e.expiresAt then None else Some(e.value)
  }

  /** A hit moves the entry to the end, an expired entry is dropped, a miss changes nothing. */
  function AfterGet<V>(entries: seq<Entry<V>>, key: string, now: real): seq<Entry<V>> {
    match Find(entries, key)
    case None => entries
    case Some(e) => if now > e.expiresAt then Without(entries, key) else Without(entries, key) + [e]
  }

  predicate Fits<V>(entries: seq<Entry<V>>, maxEntries: int, maxBytes: int) {
    |entries| <= maxEntries && TotalSize(entries) <= maxBytes
  }

  /** Drops least recently used entries until the rest fits or is empty. */
  function Evicted<V>(entries: seq<Entry<V>>, maxEntries: int, maxBytes: int): seq<Entry<V>> {
    if entries == [] || Fits(entries, maxEntries, maxBytes) then entries
    else Evicted(entries[1..], maxEntries, maxBytes)
  }

  function AfterSet<V>(entries: seq<Entry<V>>, e: Entry<V>, maxEntries: int, maxBytes: int): seq<Entry<V>> {
    Evicted(Without(entries, e.key) + [e], maxEntries, maxBytes)
  }

  // ---------------------------------------------------------------- facts about them

  /** Eviction removes exactly the shortest least-recently-used prefix that restores the limits. */
  lemma {:induction false} EvictsShortestPrefix<V>(entries: seq<Entry<V>>, maxEntries: int, maxBytes: int)
    returns (k: nat)
    ensures k <= |entries| && Evicted(entries, maxEntries, maxBytes) == entries[k..]
    ensures Fits(entries[k..], maxEntries, maxBytes) || k == |entries|
    ensures forall j | 0 <= j < k :: !Fits(entries[j..], maxEntries, maxBytes)
  {
    if entries == [] || Fits(entries, maxEntries, maxBytes) {
      k := 0;
      assert entries[0..] == entries;
    } else {
      var n := EvictsShortestPrefix(entries[1..], maxEntries, maxBytes);
      k := n + 1;
      assert entries[1..][n..] == entries[k..];
      forall j | 0 <= j < k ensures !Fits(entries[j..], maxEntries, maxBytes) {
        assert j > 0 ==> entries[j..] == entries[1..][j - 1..];
        assert j == 0 ==> entries[j..] == entries;
      }
    }
  }

  lemma {:induction false} SumsConcat<V>(a: seq<Entry<V>>, b: seq<Entry<V>>, ns: string)
    ensures TotalSize(a + b) == TotalSize(a) + TotalSize(b)
    ensures CountIn(a + b, ns) == CountIn(a, ns) + CountIn(b, ns)
    ensures SizeIn(a + b, ns) == SizeIn(a, ns) + SizeIn(b, ns)
  {
    if b == [] {
      assert a + b == a;
    } else {
      assert Front(a + b) == a + Front(b);
      SumsConcat(a, Front(b), ns);
    }
  }

  lemma {:induction false} FindIs<V>(entries: seq<Entry<V>>, key: string)
    ensures Find(entries, key).Some? ==> Find(entries, key).value in entries && Find(entries, key).value.key == key
    ensures Find(entries, key).None? ==> forall e | e in entries :: e.key != key
  {
    if entries != [] {
      FindIs(Front(entries), key);
      assert entries == Front(entries) + [Last(entries)];
    }
  }

  lemma {:induction false} FilterMembers<T>(xs: seq<T>, keep: T -> bool, x: T)
    ensures x in Filter(xs, keep) <==> x in xs && keep(x)
  {
    if xs != [] {
      FilterMembers(Front(xs), keep, x);
      assert xs == Front(xs) + [Last(xs)];
    }
  }

  lemma {:induction false} FilterKeepsDistinct<V>(entries: seq<Entry<V>>, keep: Entry<V> -> bool)
    requires KeysDistinct(entries)
    ensures KeysDistinct(Filter(entries, keep))
  {
    if entries != [] {
      var front := Filter(Front(entries), keep);
      FilterKeepsDistinct(Front(entries), keep);
      if keep(Last(entries)) {
        assert Front(front + [Last(entries)]) == front;
        forall e | e in front ensures e.key != Last(entries).key { FilterMembers(Front(entries), keep, e); }
      }
    }
  }

  lemma {:induction false} AbsentWithout<V>(entries: seq<Entry<V>>, key: string)
    requires forall e | e in entries :: e.key != key
    ensures Without(entries, key) == entries
  {
    if entries != [] {
      assert entries == Front(entries) + [Last(entries)] && Last(entries) in entries;
      AbsentWithout(Front(entries), key);
    }
  }

  /** Removing a key takes its one entry out of every sum. */
  lemma {:induction false} SumsWithout<V>(entries: seq<Entry<V>>, key: string, ns: string)
    requires KeysDistinct(entries) && Find(entries, key).Some?
    ensures
      var e := Find(entries, key).value;
      && TotalSize(Without(entries, key)) == TotalSize(entries) - e.size
      && CountIn(Without(entries, key), ns) == CountIn(entries, ns) - (if e.namespace == ns then 1 else 0)
      && SizeIn(Without(entries, key), ns) == SizeIn(entries, ns) - (if e.namespace == ns then e.size else 0)
  {
    var front := Front(entries);
    if Last(entries).key == key {
      AbsentWithout(front, key);
    } else {
      SumsWithout(front, key, ns);
      SumsConcat(Without(front, key), [Last(entries)], ns);
    }
  }

  lemma {:induction false} WithoutMembers<V>(entries: seq<Entry<V>>, key: string, e: Entry<V>)
    ensures e in Without(entries, key) <==> e in entries && e.key != key
  {
    if entries != [] {
      WithoutMembers(Front(entries), key, e);
      assert entries == Front(entries) + [Last(entries)];
    }
  }

  lemma {:induction false} WithoutKeepsDistinct<V>(entries: seq<Entry<V>>, key: string)
    requires KeysDistinct(entries)
    ensures KeysDistinct(Without(entries, key))
  {
    if entries != [] {
      var front, last := Without(Front(entries), key), Last(entries);
      WithoutKeepsDistinct(Front(entries), key);
      if last.key != key {
        assert Front(front + [last]) == front;
        forall e | e in front ensures e.key != last.key { WithoutMembers(Front(entries), key, e); }
      }
    }
  }

  /** Dropping the least recently used entry is removing its key. */
  lemma {:induction false} WithoutFirst<V>(entries: seq<Entry<V>>)
    requires KeysDistinct(entries) && entries != []
    ensures Without(entries, entries[0].key) == entries[1..]
  {
    if |entries| == 1 {
      assert Front(entries) == [];
    } else {
      WithoutFirst(Front(entries));
      assert Front(entries)[0] in Front(entries);
      assert entries[1..] == Front(entries)[1..] + [Last(entries)];
    }
  }

  lemma {:induction false} FilterAgrees<T>(xs: seq<T>, p: T -> bool, q: T -> bool)
    requires forall x | x in xs :: p(x) == q(x)
    ensures Filter(xs, p) == Filter(xs, q)
  {
    if xs != [] {
      assert Last(xs) in xs && forall x | x in Front(xs) :: x in xs;
      FilterAgrees(Front(xs), p, q);
    }
  }

  /** Whatever a `get` answers is a stored value that has not expired. */
  lemma HitIsStored<V>(entries: seq<Entry<V>>, key: string, now: real)
    requires Hit(entries, key, now).Some?
    ensures exists e :: e in entries && e.key == key && e.value == Hit(entries, key, now).value && now <= e.expiresAt
  {
    FindIs(entries, key);
  }

  /** A `get` adds nothing. */
  lemma GetKeepsOnlyOld<V>(entries: seq<Entry<V>>, key: string, now: real, e: Entry<V>)
    requires e in AfterGet(entries, key, now)
    ensures e in entries
  {
    FindIs(entries, key);
    WithoutMembers(entries, key, e);
  }

  /** A `set` adds its own entry and drops every other entry of its key. */
  lemma SetKeepsOnlyOld<V>(entries: seq<Entry<V>>, added: Entry<V>, maxEntries: int, maxBytes: int, e: Entry<V>)
    requires e in AfterSet(entries, added, maxEntries, maxBytes)
    ensures e == added || (e in entries && e.key != added.key)
  {
    var full := Without(entries, added.key) + [added];
    var k := EvictsShortestPrefix(full, maxEntries, maxBytes);
    assert e in full;
    WithoutMembers(entries, added.key, e);
  }

  /** After a `set` both limits hold, or nothing is left. */
  lemma SetRestoresLimits<V>(entries: seq<Entry<V>>, added: Entry<V>, maxEntries: int, maxBytes: int)
    ensures
      var after := AfterSet(entries, added, maxEntries, maxBytes);
      after == [] || Fits(after, maxEntries, maxBytes)
  {
    var full := Without(entries, added.key) + [added];
    var k := EvictsShortestPrefix(full, maxEntries, maxBytes);
  }

  /** The part of a key before its first colon. */
  function NamespaceOf(key: string): string {
    if ':' in key then BeforeColon(key) else "default"
  }

  function BeforeColon(key: string): string {
    if key == [] || key[0] == ':' then [] else [key[0]] + BeforeColon(key[1..])
  }

  /** The namespace that was asked for, or the key's own. */
  function NamespaceFor(namespace: Option<string>, key: string): string {
    if namespace.Some? && namespace.value != "" then namespace.value else NamespaceOf(key)
  }

  function KeysWhere<V>(entries: seq<Entry<V>>, matches: Entry<V> -> bool): seq<string> {
    if entries == [] then []
    else if matches(Last(entries)) then KeysWhere(Front(entries), matches) + [Last(entries).key]
    else KeysWhere(Front(entries), matches)
  }

  lemma {:induction false} KeysWhereAre<V>(entries: seq<Entry<V>>, matches: Entry<V> -> bool, e: Entry<V>)
    requires KeysDistinct(entries) && e in entries
    ensures e.key in KeysWhere(entries, matches) <==> matches(e)
  {
    var front, last := Front(entries), Last(entries);
    assert entries == front + [last];
    if e in front {
      KeysWhereAre(front, matches, e);
    } else {
      KeysWhereOnly(front, matches, e.key);
    }
  }

  lemma {:induction false} KeysWhereOnly<V>(entries: seq<Entry<V>>, matches: Entry<V> -> bool, key: string)
    requires key in KeysWhere(entries, matches)  || (forall e | e in entries :: e.key != key)
    ensures key in KeysWhere(entries, matches) ==> exists e :: e in entries && e.key == key
  {
    if entries != [] {
      var front, last := Front(entries), Last(entries);
      assert entries == front + [last];
      if key in KeysWhere(front, matches) {
        KeysWhereOnly(front, matches, key);
      } else if key in KeysWhere(entries, matches) {
        assert last in entries && last.key == key;
      }
    }
  }

  // ---------------------------------------------------------------- the cache

  function Count(m: map<string, int>, ns: string): int {
    if ns in m then m[ns] else 0
  }

  class Cache<V> {
    var data: seq<Entry<V>>
    var enabled: bool
    var defaultTtl: real
    var maxEntries: int
    var maxBytes: int
    var bytes: int
    var nsEntries: map<string, int>
    var nsBytes: map<string, int>

    /** The counters equal the true sums. */
    ghost predicate Valid()
      reads this
    {
      && KeysDistinct(data)
      && bytes == TotalSize(data)
      && (forall ns :: Count(nsEntries, ns) == CountIn(data, ns))
      && (forall ns :: Count(nsBytes, ns) == SizeIn(data, ns))
    }

    constructor (defaultTtl: real, maxEntries: int, maxBytes: int, enabled: bool)
      ensures Valid() && data == [] && this.enabled == enabled
      ensures this.defaultTtl == defaultTtl && this.maxEntries == maxEntries && this.maxBytes == maxBytes
    {
      data, bytes, nsEntries, nsBytes := [], 0, map[], map[];
      this.defaultTtl, this.maxEntries, this.maxBytes, this.enabled := defaultTtl, maxEntries, maxBytes, enabled;
    }

    method AccountAdd(e: Entry<V>)
      modifies `bytes, `nsEntries, `nsBytes
      ensures bytes == old(bytes) + e.size
      ensures forall ns :: Count(nsEntries, ns) == old(Count(nsEntries, ns)) + if ns == e.namespace then 1 else 0
      ensures forall ns :: Count(nsBytes, ns) == old(Count(nsBytes, ns)) + if ns == e.namespace then e.size else 0
    {
      bytes := bytes + e.size;
      nsEntries := nsEntries[e.namespace := Count(nsEntries, e.namespace) + 1];
      nsBytes := nsBytes[e.namespace := Count(nsBytes, e.namespace) + e.size];
    }

    /** The clamps at 0 never bite while the counters cover the entry. */
    method AccountRemove(e: Entry<V>)
      requires e.size <= bytes && 1 <= Count(nsEntries, e.namespace) && e.size <= Count(nsBytes, e.namespace)
      modifies `bytes, `nsEntries, `nsBytes
      ensures bytes == old(bytes) - e.size
      ensures forall ns :: Count(nsEntries, ns) == old(Count(nsEntries, ns)) - if ns == e.namespace then 1 else 0
      ensures forall ns :: Count(nsBytes, ns) == old(Count(nsBytes, ns)) - if ns == e.namespace then e.size else 0
    {
      bytes := Max(0, bytes - e.size);
      nsEntries := nsEntries[e.namespace := Max(0, Count(nsEntries, e.namespace) - 1)];
      nsBytes := nsBytes[e.namespace := Max(0, Count(nsBytes, e.namespace) - e.size)];
    }

    method Remove(key: string) returns (removed: bool)
      requires Valid()
      modifies `data, `bytes, `nsEntries, `nsBytes
      ensures Valid() && data == Without(old(data), key)
      ensures removed <==> Find(old(data), key).Some?
    {
      var found := Find(data, key);
      if found.None? {
        FindIs(data, key);
        AbsentWithout(data, key);
        return false;
      }
      var e := found.value;
      SumsWithout(data, key, e.namespace);
      AccountRemove(e);
      forall ns { SumsWithout(data, key, ns); }
      WithoutKeepsDistinct(data, key);
      data := Without(data, key);
      return true;
    }

    method Get(key: string, now: real) returns (r: Option<V>)
      requires Valid()
      modifies `data, `bytes, `nsEntries, `nsBytes
      ensures Valid()
      ensures r == if enabled then Hit(old(data), key, now) else None
      ensures data == if enabled then AfterGet(old(data), key, now) else old(data)
    {
      if !enabled { return None; }
      var found := Find(data, key);
      if found.None? { return None; }
      if now > found.value.expiresAt {
        var _ := Remove(key);
        return None;
      }
      MoveToEnd(key);
      return Some(found.value.value);
    }

    method MoveToEnd(key: string)
      requires Valid() && Find(data, key).Some?
      modifies `data
      ensures Valid() && data == Without(old(data), key) + [Find(old(data), key).value]
    {
      var e := Find(data, key).value;
      var rest := Without(data, key);
      FindIs(data, key);
      SumsWithout(data, key, e.namespace);
      SumsConcat(rest, [e], e.namespace);
      forall ns
        ensures CountIn(rest + [e], ns) == CountIn(data, ns) && SizeIn(rest + [e], ns) == SizeIn(data, ns)
      {
        SumsWithout(data, key, ns);
        SumsConcat(rest, [e], ns);
      }
      WithoutKeepsDistinct(data, key);
      assert Front(rest + [e]) == rest;
      forall x | x in rest ensures x.key != key { WithoutMembers(data, key, x); }
      data := rest + [e];
    }

    /** `estimate` is the encoded size of the value. */
    method Set(key: string, value: V, estimate: nat, ttl: Option<real>, namespace: Option<string>, now: real)
      requires Valid()
      modifies `data, `bytes, `nsEntries, `nsBytes
      ensures Valid()
      ensures
        var seconds := if ttl.Some? then ttl.value else defaultTtl;
        data ==
          if !enabled || seconds <= 0.0 then old(data)
          else
            var e := Entry(key, value, now + seconds, estimate + |key|, NamespaceFor(namespace, key));
            AfterSet(old(data), e, maxEntries, maxBytes)
    {
      if !enabled { return; }
      var seconds := if ttl.None? then defaultTtl else ttl.value;
      if seconds <= 0.0 { return; }
      var e := Entry(key, value, now + seconds, estimate + |key|, NamespaceFor(namespace, key));
      Put(e);
    }

    /** Replaces the entry under the key, at the end, and makes room. */
    method Put(e: Entry<V>)
      requires Valid()
      modifies `data, `bytes, `nsEntries, `nsBytes
      ensures Valid() && data == AfterSet(old(data), e, maxEntries, maxBytes)
    {
      ghost var was := data;
      var _ := Remove(e.key);
      forall x | x in data ensures x.key != e.key { WithoutMembers(was, e.key, x); }
      Append(e);
      Evict();
    }

    method Append(e: Entry<V>)
      requires Valid() && forall x | x in data :: x.key != e.key
      modifies `data, `bytes, `nsEntries, `nsBytes
      ensures Valid() && data == old(data) + [e]
    {
      ghost var rest := data;
      assert Front(rest + [e]) == rest;
      data := data + [e];
      AccountAdd(e);
      forall n { SumsConcat(rest, [e], n); }
    }

    method Evict()
      requires Valid()
      modifies `data, `bytes, `nsEntries, `nsBytes
      ensures Valid() && data == Evicted(old(data), maxEntries, maxBytes)
    {
      while data != [] && (|data| > maxEntries || bytes > maxBytes)
        invariant Valid() && Evicted(data, maxEntries, maxBytes) == Evicted(old(data), maxEntries, maxBytes)
        decreases |data|
      {
        WithoutFirst(data);
        var _ := Remove(data[0].key);
      }
    }

    method RemoveAll(keys: seq<string>)
      requires Valid()
      modifies `data, `bytes, `nsEntries, `nsBytes
      ensures Valid() && data == Dropped(old(data), keys)
    {
      DroppedNone(data);
      for n := 0 to |keys|
        invariant Valid() && data == Dropped(old(data), keys[..n])
      {
        var _ := Remove(keys[n]);
        WithoutDropped(old(data), keys[..n], keys[n]);
        assert keys[..n + 1] == keys[..n] + [keys[n]];
      }
      assert keys[..|keys|] == keys;
    }

    method DeletePrefix(prefix: string) returns (count: nat)
      requires Valid()
      modifies `data, `bytes, `nsEntries, `nsBytes
      ensures Valid() && data == Filter(old(data), (e: Entry<V>) => !(prefix <= e.key))
      ensures count == |old(data)| - |data|
    {
      var matches := (e: Entry<V>) => prefix <= e.key;
      var keys := KeysWhere(data, matches);
      RemoveMatching(data, matches);
      FilterAgrees(data, (e: Entry<V>) => !matches(e), (e: Entry<V>) => !(prefix <= e.key));
      RemoveAll(keys);
      count := |keys|;
    }

    method CleanupExpired(now: real) returns (count: nat)
      requires Valid()
      modifies `data, `bytes, `nsEntries, `nsBytes
      ensures Valid() && data == Filter(old(data), (e: Entry<V>) => !(now > e.expiresAt))
      ensures count == |old(data)| - |data|
    {
      var matches := (e: Entry<V>) => now > e.expiresAt;
      var keys := KeysWhere(data, matches);
      RemoveMatching(data, matches);
      FilterAgrees(data, (e: Entry<V>) => !matches(e), (e: Entry<V>) => !(now > e.expiresAt));
      RemoveAll(keys);
      count := |keys|;
    }
  }

  lemma {:induction false} DroppedNone<V>(entries: seq<Entry<V>>)
    ensures Dropped(entries, []) == entries
  {
    if entries != [] { DroppedNone(Front(entries)); }
  }

  lemma {:induction false} WithoutDropped<V>(entries: seq<Entry<V>>, keys: seq<string>, key: string)
    ensures Without(Dropped(entries, keys), key) == Dropped(entries, keys + [key])
  {
    if entries != [] {
      WithoutDropped(Front(entries), keys, key);
      var kept := Dropped(Front(entries), keys);
      assert Front(kept + [Last(entries)]) == kept;
    }
  }

  lemma {:induction false} DroppedAgrees<V>(entries: seq<Entry<V>>, keys: seq<string>, matches: Entry<V> -> bool)
    requires forall e | e in entries :: e.key in keys <==> matches(e)
    ensures Dropped(entries, keys) == Filter(entries, (e: Entry<V>) => !matches(e))
  {
    if entries != [] {
      assert forall e | e in Front(entries) :: e in entries;
      DroppedAgrees(Front(entries), keys, matches);
    }
  }

  lemma {:induction false} CountMatching<V>(entries: seq<Entry<V>>, matches: Entry<V> -> bool)
    ensures |KeysWhere(entries, matches)| == |entries| - |Filter(entries, (e: Entry<V>) => !matches(e))|
  {
    if entries != [] { CountMatching(Front(entries), matches); }
  }

  /** Removing the keys of the matching entries one by one removes exactly the matching entries. */
  lemma RemoveMatching<V>(entries: seq<Entry<V>>, matches: Entry<V> -> bool)
    requires KeysDistinct(entries)
    ensures Dropped(entries, KeysWhere(entries, matches)) == Filter(entries, (e: Entry<V>) => !matches(e))
    ensures |KeysWhere(entries, matches)| == |entries| - |Filter(entries, (e: Entry<V>) => !matches(e))|
  {
    CountMatching(entries, matches);
    forall e | e in entries ensures e.key in KeysWhere(entries, matches) <==> matches(e) {
      KeysWhereAre(entries, matches, e);
    }
    DroppedAgrees(entries, KeysWhere(entries, matches), matches);
  }
}
