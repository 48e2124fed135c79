/** That the order of the cache's entries is the order of their last use, so that what is evicted is what
    was least recently used. */
module LruOrder {
  import opened Prelude
  import opened Sorting
  import opened TtlCache

  /** A use of the cache.  Deletions, prefix deletions and cleanups all keep some entries and drop the rest. */
  datatype Use<!V> = GetUse(key: string, now: real) | SetUse(e: Entry<V>) | DropUse(keep: Entry<V> -> bool)

  /** `Remove` drops the entry under one key: it is one of these. */
  lemma {:induction false} RemovalIsDrop<V>(entries: seq<Entry<V>>, key: string)
    ensures Without(entries, key) == Filter(entries, (e: Entry<V>) => e.key != key)
  {
    if entries != [] { RemovalIsDrop(Front(entries), key); }
  }

  function AfterUse<V>(entries: seq<Entry<V>>, use: Use<V>, maxEntries: int, maxBytes: int): seq<Entry<V>> {
    match use
    case GetUse(key, now) => AfterGet(entries, key, now)
    case SetUse(e) => AfterSet(entries, e, maxEntries, maxBytes)
    case DropUse(keep) => Filter(entries, keep)
  }

  function AfterUses<V>(uses: seq<Use<V>>, maxEntries: int, maxBytes: int): seq<Entry<V>> {
    if uses == [] then [] else AfterUse(AfterUses(Front(uses), maxEntries, maxBytes), Last(uses), maxEntries, maxBytes)
  }

  /** A hit uses its key, and so does a set. */
  predicate Touches<V>(entries: seq<Entry<V>>, use: Use<V>, key: string) {
    match use
    case GetUse(k, now) => k == key && Hit(entries, key, now).Some?
    case SetUse(e) => e.key == key
    case DropUse(_) => false
  }

  /** When a key was last used: the number of that use, or 0. */
  function LastTouch<V>(uses: seq<Use<V>>, maxEntries: int, maxBytes: int, key: string): (r: nat)
    ensures r <= |uses|
  {
    if uses == [] then 0
    else if Touches(AfterUses(Front(uses), maxEntries, maxBytes), Last(uses), key) then |uses|
    else LastTouch(Front(uses), maxEntries, maxBytes, key)
  }

  /** The settings of one cache and what was done with it. */
  datatype History<!V> = History(uses: seq<Use<V>>, maxEntries: int, maxBytes: int) {
    function Entries(): seq<Entry<V>> {
      AfterUses(uses, maxEntries, maxBytes)
    }

    function Touch(key: string): nat {
      LastTouch(uses, maxEntries, maxBytes, key)
    }
  }

  /** Along the entries the last uses rise. */
  ghost predicate InOrder<V>(entries: seq<Entry<V>>, h: History<V>) {
    entries == [] ||
    (InOrder(Front(entries), h) && forall e | e in Front(entries) :: h.Touch(e.key) < h.Touch(Last(entries).key))
  }

  lemma {:induction false} OrderAt<V>(entries: seq<Entry<V>>, h: History<V>, i: nat, j: nat)
    requires InOrder(entries, h) && i < j < |entries|
    ensures h.Touch(entries[i].key) < h.Touch(entries[j].key)
  {
    if j < |entries| - 1 {
      OrderAt(Front(entries), h, i, j);
    } else {
      assert entries[i] == Front(entries)[i];
    }
  }

  lemma {:induction false} OrderAgrees<V>(entries: seq<Entry<V>>, h: History<V>, later: History<V>)
    requires InOrder(entries, h) && forall e | e in entries :: h.Touch(e.key) == later.Touch(e.key)
    ensures InOrder(entries, later)
  {
    if entries != [] {
      assert forall e | e in Front(entries) :: e in entries;
      assert Last(entries) in entries;
      OrderAgrees(Front(entries), h, later);
    }
  }

  lemma {:induction false} OrderFiltered<V>(entries: seq<Entry<V>>, h: History<V>, keep: Entry<V> -> bool)
    requires InOrder(entries, h)
    ensures InOrder(Filter(entries, keep), h)
  {
    if entries != [] {
      var kept := Filter(Front(entries), keep);
      OrderFiltered(Front(entries), h, keep);
      assert Front(kept + [Last(entries)]) == kept;
      forall e | e in kept ensures e in Front(entries) { FilterMembers(Front(entries), keep, e); }
    }
  }

  lemma {:induction false} OrderWithout<V>(entries: seq<Entry<V>>, h: History<V>, key: string)
    requires InOrder(entries, h)
    ensures InOrder(Without(entries, key), h)
  {
    if entries != [] {
      var kept := Without(Front(entries), key);
      OrderWithout(Front(entries), h, key);
      assert Front(kept + [Last(entries)]) == kept;
      forall e | e in kept ensures e in Front(entries) { WithoutMembers(Front(entries), key, e); }
    }
  }

  lemma {:induction false} OrderSuffix<V>(entries: seq<Entry<V>>, h: History<V>, k: nat)
    requires InOrder(entries, h) && k <= |entries|
    ensures InOrder(entries[k..], h)
  {
    if k < |entries| {
      assert Front(entries[k..]) == Front(entries)[k..];
      OrderSuffix(Front(entries), h, k);
    }
  }

  /** The entry that is used now goes behind the others, and so comes last. */
  lemma UseGoesLast<V>(before: History<V>, h: History<V>, use: Use<V>, e: Entry<V>)
    requires h == before.(uses := before.uses + [use]) && InOrder(before.Entries(), before)
    requires forall key :: Touches(before.Entries(), use, key) <==> key == e.key
    ensures InOrder(Without(before.Entries(), e.key) + [e], h)
  {
    var rest := Without(before.Entries(), e.key);
    assert Front(h.uses) == before.uses && Front(rest + [e]) == rest;
    OrderWithout(before.Entries(), before, e.key);
    forall x | x in rest ensures x.key != e.key { WithoutMembers(before.Entries(), e.key, x); }
    OrderAgrees(rest, before, h);
  }

  /** LAST USE.  Whatever is done with a cache, its entries stand in the order of their last use. */
  lemma {:induction false} EntriesAreInOrder<V>(h: History<V>)
    ensures InOrder(h.Entries(), h)
    decreases |h.uses|
  {
    if h.uses != [] {
      var before, use := h.(uses := Front(h.uses)), Last(h.uses);
      assert h.uses == before.uses + [use];
      EntriesAreInOrder(before);
      var entries := before.Entries();
      match use
      case GetUse(key, now) =>
        if Hit(entries, key, now).Some? {
          FindIs(entries, key);
          UseGoesLast(before, h, use, Find(entries, key).value);
        } else {
          OrderWithout(entries, before, key);
          OrderAgrees(h.Entries(), before, h);
        }
      case SetUse(e) =>
        UseGoesLast(before, h, use, e);
        var added := Without(entries, e.key) + [e];
        var k := EvictsShortestPrefix(added, h.maxEntries, h.maxBytes);
        OrderSuffix(added, h, k);
      case DropUse(keep) =>
        OrderFiltered(entries, before, keep);
        OrderAgrees(h.Entries(), before, h);
    }
  }

  lemma BeforeSuffix<T>(xs: seq<T>, k: nat, x: T) returns (i: nat)
    requires k <= |xs| && x in xs && x !in xs[k..]
    ensures i < k && xs[i] == x
  {
    assert xs == xs[..k] + xs[k..];
    i :| 0 <= i < |xs[..k]| && xs[..k][i] == x;
  }

  /** LEAST RECENTLY USED.  An entry that a set evicts was last used before every entry that stays. */
  lemma EvictedBeforeKept<V>(before: History<V>, added: Entry<V>, evicted: Entry<V>, kept: Entry<V>)
    requires evicted in Without(before.Entries(), added.key) + [added]
    requires evicted !in AfterSet(before.Entries(), added, before.maxEntries, before.maxBytes)
    requires kept in AfterSet(before.Entries(), added, before.maxEntries, before.maxBytes)
    ensures
      var h := before.(uses := before.uses + [SetUse(added)]);
      h.Touch(evicted.key) < h.Touch(kept.key)
  {
    var h := before.(uses := before.uses + [SetUse(added)]);
    var all := Without(before.Entries(), added.key) + [added];
    EntriesAreInOrder(before);
    UseGoesLast(before, h, SetUse(added), added);
    var k := EvictsShortestPrefix(all, h.maxEntries, h.maxBytes);
    PrefixIsOlder(all, h, k, evicted, kept);
  }

  lemma PrefixIsOlder<V>(entries: seq<Entry<V>>, h: History<V>, k: nat, x: Entry<V>, y: Entry<V>)
    requires InOrder(entries, h) && k <= |entries| && x in entries && x !in entries[k..] && y in entries[k..]
    ensures h.Touch(x.key) < h.Touch(y.key)
  {
    var i := BeforeSuffix(entries, k, x);
    var j :| 0 <= j < |entries[k..]| && entries[k..][j] == y;
    OrderAt(entries, h, i, k + j);
  }
}
