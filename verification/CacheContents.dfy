/** What the cache holds and answers, said of its entries: when a get hits, what a read files and for how long,
    exactly what an invalidation leaves, and what the keys look like. */
module CacheContents {
  import opened Prelude
  import opened Sorting
  import opened JsonRoutes
  import opened Query
  import opened CacheKeys
  import opened TtlCache
  import opened CachedReads

  // ---------------------------------------------------------------- hits

  lemma {:induction false} FindUnique<V>(entries: seq<Entry<V>>, e: Entry<V>)
    requires KeysDistinct(entries) && e in entries
    ensures Find(entries, e.key) == Some(e)
  {
    var front, last := Front(entries), Last(entries);
    assert entries == front + [last];
    if e in front { FindUnique(front, e); }
  }

  /** A HIT, exactly: a stored entry of that key whose time has not run out. */
  lemma HitExactly<V>(entries: seq<Entry<V>>, key: string, now: real, v: V)
    requires KeysDistinct(entries)
    ensures Hit(entries, key, now) == Some(v) <==>
            exists e :: e in entries && e.key == key && e.value == v && now <= e.expiresAt
  {
    FindIs(entries, key);
    if e :| e in entries && e.key == key && e.value == v && now <= e.expiresAt { FindUnique(entries, e); }
  }

  /** A get takes nothing away but an expired entry of its key. */
  lemma GetLeaves<V>(entries: seq<Entry<V>>, key: string, now: real, e: Entry<V>)
    requires KeysDistinct(entries)
    ensures e in AfterGet(entries, key, now) <==> e in entries && (e.key == key ==> now <= e.expiresAt)
  {
    FindIs(entries, key);
    WithoutMembers(entries, key, e);
    if e in entries { FindUnique(entries, e); }
  }

  lemma LastSurvives<V>(entries: seq<Entry<V>>, e: Entry<V>, maxEntries: int, maxBytes: int)
    requires maxEntries >= 1 && e.size <= maxBytes
    ensures Evicted(entries + [e], maxEntries, maxBytes) != []
    ensures Last(Evicted(entries + [e], maxEntries, maxBytes)) == e
  {
    var all := entries + [e];
    var k := EvictsShortestPrefix(all, maxEntries, maxBytes);
    assert all[|entries|..] == [e] && Front([e]) == [];
    assert Fits([e], maxEntries, maxBytes);
  }

  /** SET, THEN GET.  What was set is answered until its time runs out, and not after. */
  lemma SetThenGet<V>(entries: seq<Entry<V>>, e: Entry<V>, maxEntries: int, maxBytes: int, now: real)
    requires KeysDistinct(entries) && maxEntries >= 1 && e.size <= maxBytes
    ensures Hit(AfterSet(entries, e, maxEntries, maxBytes), e.key, now) ==
            if now <= e.expiresAt then Some(e.value) else None
  {
    LastSurvives(Without(entries, e.key), e, maxEntries, maxBytes);
  }

  /** NOTHING IS EVICTED NEEDLESSLY: if everything fits, a set removes only what stood under its key. */
  lemma NothingEvictedNeedlessly<V>(entries: seq<Entry<V>>, e: Entry<V>, maxEntries: int, maxBytes: int)
    requires |Without(entries, e.key) + [e]| <= maxEntries && TotalSize(Without(entries, e.key) + [e]) <= maxBytes
    ensures AfterSet(entries, e, maxEntries, maxBytes) == Without(entries, e.key) + [e]
  {
  }

  /** A LIST shows the listing from the offset on, as many as the limit allows, and its whole length. */
  lemma ListExactly(db: Db, coll: nat, limit: nat, offset: nat, str: Json -> string)
    ensures
      var listed, body := Listing(Rows(db, coll)), Uncached(db, ListDocs(coll, limit, offset), str);
      && body.Some? && body.value.PageBody?
      && body.value.page.total == |listed| && body.value.page.limit == limit && body.value.page.offset == offset
      && |body.value.page.items| == Min(limit, Max(0, |listed| - offset))
      && forall k | 0 <= k < |body.value.page.items| :: body.value.page.items[k] == listed[offset + k]
  {
  }

  // ---------------------------------------------------------------- what a read files

  lemma FiledLast(entries: seq<Entry<Body>>, key: string, ttl: real, tag: string, answer: Option<Body>, estimate: nat,
                  now: real, maxEntries: int, maxBytes: int)
    requires Hit(entries, key, now).None? && answer.Some? && ttl > 0.0
    requires maxEntries >= 1 && estimate + |key| <= maxBytes
    ensures
      var filed := ReadThrough(entries, key, ttl, tag, answer, estimate, now, maxEntries, maxBytes);
      filed != [] && Last(filed) == Entry(key, answer.value, now + ttl, estimate + |key|, tag)
  {
    var e := Entry(key, answer.value, now + ttl, estimate + |key|, tag);
    MissFiles(entries, key, ttl, tag, answer, estimate, now, maxEntries, maxBytes);
    LastSurvives(Without(AfterGet(entries, key, now), key), e, maxEntries, maxBytes);
  }

  /** WHAT A MISS FILES: the computed answer under the read's key, for the document's time if it is a document
      and for the queries' time if it is a list or query. */
  lemma MissIsFiled(w: World, env: Env, read: Read, estimate: nat, body: Body)
    requires Hit(w.entries, Render(KeyOf(env, read)), w.now).None? && Uncached(w.db, read, env.str) == Some(body)
    requires (if read.GetDoc? then env.docTtl else env.queryTtl) > 0.0
    requires env.maxEntries >= 1 && estimate + |Render(KeyOf(env, read))| <= env.maxBytes
    ensures
      var entries, ttl := AfterRead(w, env, read, estimate).entries, if read.GetDoc? then env.docTtl else env.queryTtl;
      && entries != [] && Last(entries).key == Render(KeyOf(env, read)) && Last(entries).value == body
      && Last(entries).expiresAt == w.now + ttl && Last(entries).size == estimate + |Last(entries).key|
  {
    FiledLast(w.entries, Render(KeyOf(env, read)), TtlOf(env, read), Tag(KeyOf(env, read)),
              Uncached(w.db, read, env.str), estimate, w.now, env.maxEntries, env.maxBytes);
  }

  /** A hit, an error or a time that is not positive files nothing. */
  lemma NothingFiled(w: World, env: Env, read: Read, estimate: nat, e: Entry<Body>)
    requires || Hit(w.entries, Render(KeyOf(env, read)), w.now).Some?
             || Uncached(w.db, read, env.str).None?
             || (if read.GetDoc? then env.docTtl else env.queryTtl) <= 0.0
    requires e in AfterRead(w, env, read, estimate).entries
    ensures e in w.entries
  {
    GetKeepsOnlyOld(w.entries, Render(KeyOf(env, read)), w.now, e);
  }

  // ---------------------------------------------------------------- what an invalidation leaves

  lemma SameKey(a: Key, b: Key)
    ensures Render(a) == Render(b) <==> a == b
  {
    if Render(a) == Render(b) { KeysAreInjective(a, b); }
  }

  lemma LeftByDocument(entries: seq<Entry<Body>>, key: string, lists: string, queries: string, e: Entry<Body>)
    ensures e in DropPrefix(DropPrefix(DropKey(entries, key), lists), queries) <==>
            e in entries && e.key != key && !(lists <= e.key) && !(queries <= e.key)
  {
    DropPrefixMembers(DropPrefix(DropKey(entries, key), lists), queries, e);
    DropPrefixMembers(DropKey(entries, key), lists, e);
    WithoutMembers(entries, key, e);
  }

  /** AFTER A DOCUMENT WRITE the cache keeps exactly the entries that are neither the document's nor a list or
      query of its collection. */
  lemma DocumentInvalidationExactly(entries: seq<Entry<Body>>, coll: nat, docId: string, e: Entry<Body>, k: Key)
    requires e.key == Render(k)
    ensures e in InvalidateDocument(entries, coll, docId) <==>
            e in entries && k != DocumentKey(coll, docId) && !(k.coll == coll && (k.ListKey? || k.QueryKey?))
  {
    var key, lists, queries := Render(DocumentKey(coll, docId)), Prefix("json_list", coll), Prefix("json_query", coll);
    LeftByDocument(entries, key, lists, queries, e);
    SameKey(k, DocumentKey(coll, docId));
    PrefixIsExact("json_list", coll, k);
    PrefixIsExact("json_query", coll, k);
    TagNames(k);
  }

  lemma TagNames(k: Key)
    ensures Tag(k) == "json_list" <==> k.ListKey?
    ensures Tag(k) == "json_query" <==> k.QueryKey?
    ensures Tag(k) == "json_doc" <==> k.DocumentKey?
  {
  }

  /** AFTER A BATCH OR A SETTING it keeps exactly the entries of other collections. */
  lemma CollectionInvalidationExactly(entries: seq<Entry<Body>>, coll: nat, e: Entry<Body>, k: Key)
    requires e.key == Render(k)
    ensures e in InvalidateCollection(entries, coll) <==> e in entries && k.coll != coll
  {
    var first := DropPrefix(entries, Prefix("json_doc", coll));
    var second := DropPrefix(first, Prefix("json_list", coll));
    DropPrefixMembers(second, Prefix("json_query", coll), e);
    DropPrefixMembers(first, Prefix("json_list", coll), e);
    DropPrefixMembers(entries, Prefix("json_doc", coll), e);
    PrefixIsExact("json_doc", coll, k);
    PrefixIsExact("json_list", coll, k);
    PrefixIsExact("json_query", coll, k);
  }

  /** WHICH WRITES INVALIDATE: served document writes of the owner's and by-id routes their document, batches,
      settings and new collections their collection; publishable-key writes and refusals nothing. */
  lemma InvalidatesExactly(entries: seq<Entry<Body>>, after: Db, request: Request)
    ensures
      match request
      case DocumentRequest(caller, coll, write, _, _, answer) =>
        Invalidated(entries, after, request) ==
          if !caller.KeyRoute? && answer.Success? then InvalidateDocument(entries, coll, write.id) else entries
      case BatchRequest(coll, _, _, _) => Invalidated(entries, after, request) == InvalidateCollection(entries, coll)
      case SettingsRequest(entry) => Invalidated(entries, after, request) == InvalidateCollection(entries, entry.coll)
      case CollectionRequest(_, _, _) =>
        Invalidated(entries, after, request) == InvalidateCollection(entries, after.lastColl)
  {
  }

  // ---------------------------------------------------------------- what the keys look like

  /** The number that a decimal notation stands for. */
  function Number(digits: string): nat {
    if digits == "" then 0
    else 10 * Number(Front(digits)) +
         match Last(digits)
         case '1' => 1
         case '2' => 2
         case '3' => 3
         case '4' => 4
         case '5' => 5
         case '6' => 6
         case '7' => 7
         case '8' => 8
         case '9' => 9
         case _ => 0
  }

  /** Decimal notation is that of the number. */
  lemma {:induction false} DecimalIsNumber(n: nat)
    ensures Number(Decimal(n)) == n
  {
    if n < 10 {
      assert Front(Decimal(n)) == "" && Last(Decimal(n)) == DIGITS[n];
      OneDigit(n);
    } else {
      DecimalIsNumber(n / 10);
      OneDigit(n % 10);
      assert Front(Decimal(n)) == Decimal(n / 10) && Last(Decimal(n)) == DIGITS[n % 10];
    }
  }

  lemma OneDigit(d: nat)
    requires d < 10
    ensures Number([DIGITS[d]]) == d
  {
    assert Front([DIGITS[d]]) == "";
  }

  lemma Regroup(p: string, a: string, b: string)
    ensures p + (a + ":" + b) == p + a + ":" + b
  {
  }

  /** The keys as other code spells them. */
  lemma DocumentKeyText(env: Env, c: nat, d: string)
    ensures Render(KeyOf(env, GetDoc(c, d))) == "json_doc" + ":" + Decimal(c) + ":" + d
  {
  }

  lemma ListKeyText(env: Env, c: nat, limit: nat, offset: nat)
    ensures Render(KeyOf(env, ListDocs(c, limit, offset))) ==
            "json_list" + ":" + Decimal(c) + ":" + Decimal(limit) + ":" + Decimal(offset)
  {
    Regroup("json_list" + ":" + Decimal(c) + ":", Decimal(limit), Decimal(offset));
  }

  lemma QueryKeyText(env: Env, c: nat, q: QuerySpec)
    ensures Render(KeyOf(env, QueryDocs(c, q))) == "json_query" + ":" + Decimal(c) + ":" + env.digest(q)
  {
  }

  lemma {:induction false} BeforeColonIs(key: string) returns (rest: string)
    requires ':' in key
    ensures key == BeforeColon(key) + ":" + rest && ':' !in BeforeColon(key)
  {
    if key[0] == ':' {
      rest := key[1..];
    } else {
      rest := BeforeColonIs(key[1..]);
      assert key == [key[0]] + key[1..];
    }
  }

  /** An entry is in the namespace that was asked for, or else in that of its key: what stands before the first
      colon, or the default. */
  lemma NamespaceIs(key: string)
    ensures ':' in key ==> ':' !in NamespaceOf(key) && NamespaceOf(key) + ":" <= key
    ensures ':' !in key ==> NamespaceOf(key) == "default"
    ensures forall ns: string :: ns != "" ==> NamespaceFor(Some(ns), key) == ns
    ensures NamespaceFor(None, key) == NamespaceFor(Some(""), key) == NamespaceOf(key)
  {
    if ':' in key {
      var rest := BeforeColonIs(key);
    }
  }
}
