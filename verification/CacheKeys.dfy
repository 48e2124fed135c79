/** The string keys of the JSON DB cache, and why deleting by prefix hits exactly one collection. */
module CacheKeys {
  import opened Prelude

  const DIGITS := "0123456789"

  /** Decimal notation. */
  function Decimal(n: nat): string {
    if n < 10 then [DIGITS[n]] else Decimal(n / 10) + [DIGITS[n % 10]]
  }

  /** The keys of one collection.  The digest of a query stands for its hash. */
  datatype Key =
    | DocumentKey(coll: nat, docId: string)
    | ListKey(coll: nat, limit: nat, offset: nat)
    | QueryKey(coll: nat, digest: string)

  function Tag(k: Key): string {
    match k
    case DocumentKey(_, _) => "json_doc"
    case ListKey(_, _, _) => "json_list"
    case QueryKey(_, _) => "json_query"
  }

  function Rest(k: Key): string {
    match k
    case DocumentKey(_, d) => d
    case ListKey(_, l, o) => Decimal(l) + ":" + Decimal(o)
    case QueryKey(_, h) => h
  }

  /** `json_doc:{c}:`, `json_list:{c}:`, `json_query:{c}:`. */
  function Prefix(tag: string, coll: nat): string {
    tag + ":" + Decimal(coll) + ":"
  }

  function Render(k: Key): string {
    Prefix(Tag(k), k.coll) + Rest(k)
  }

  // ---------------------------------------------------------------- decimal notation is injective

  lemma DigitsDistinct(i: nat, j: nat)
    requires i < 10 && j < 10 && DIGITS[i] == DIGITS[j]
    ensures i == j
  {
  }

  lemma {:induction false} DecimalIsPlain(n: nat)
    ensures Decimal(n) != "" && ':' !in Decimal(n)
  {
    if n >= 10 { DecimalIsPlain(n / 10); }
  }

  lemma {:induction false} DecimalIsInjective(m: nat, n: nat)
    requires Decimal(m) == Decimal(n)
    ensures m == n
  {
    DecimalIsPlain(m / 10);
    DecimalIsPlain(n / 10);
    assert m >= 10 ==> |Decimal(m)| > 1;
    assert n >= 10 ==> |Decimal(n)| > 1;
    if m >= 10 {
      assert Last(Decimal(m)) == DIGITS[m % 10] && Last(Decimal(n)) == DIGITS[n % 10];
      assert Front(Decimal(m)) == Decimal(m / 10) && Front(Decimal(n)) == Decimal(n / 10);
      DigitsDistinct(m % 10, n % 10);
      DecimalIsInjective(m / 10, n / 10);
    } else {
      DigitsDistinct(m, n);
    }
  }

  // ---------------------------------------------------------------- the first colon splits a key

  lemma ColonSplits(a: string, x: string, b: string, y: string)
    requires ':' !in a && ':' !in b && a + ":" + x == b + ":" + y
    ensures a == b && x == y
  {
    var s := a + ":" + x;
    assert s[|a|] == ':' && s[|b|] == ':';
    assert forall i | 0 <= i < |a| :: s[i] == a[i] && a[i] in a;
    assert forall i | 0 <= i < |b| :: s[i] == b[i] && b[i] in b;
    assert |a| == |b|;
    assert a == s[..|a|] && b == s[..|b|];
    assert x == s[|a| + 1..] && y == s[|b| + 1..];
  }

  /** Any key of the three builders names its kind, its collection and the rest, unambiguously. */
  lemma PrefixDecomposes(tag: string, coll: nat, x: string, k: Key)
    requires ':' !in tag && Prefix(tag, coll) + x == Render(k)
    ensures tag == Tag(k) && coll == k.coll && x == Rest(k)
  {
    DecimalIsPlain(coll);
    DecimalIsPlain(k.coll);
    assert Prefix(tag, coll) + x == tag + ":" + (Decimal(coll) + ":" + x);
    assert Render(k) == Tag(k) + ":" + (Decimal(k.coll) + ":" + Rest(k));
    ColonSplits(tag, Decimal(coll) + ":" + x, Tag(k), Decimal(k.coll) + ":" + Rest(k));
    ColonSplits(Decimal(coll), x, Decimal(k.coll), Rest(k));
    DecimalIsInjective(coll, k.coll);
  }

  /** Deleting by the prefix of a kind and a collection hits the keys of that kind and collection,
      and no others: collection 1 is not confused with 12, whatever the document ids contain. */
  lemma PrefixIsExact(tag: string, coll: nat, k: Key)
    requires ':' !in tag
    ensures Prefix(tag, coll) <= Render(k) <==> tag == Tag(k) && coll == k.coll
  {
    var p, s := Prefix(tag, coll), Render(k);
    if p <= s {
      assert s == p + s[|p|..];
      PrefixDecomposes(tag, coll, s[|p|..], k);
    }
  }

  /** No two keys collide. */
  lemma KeysAreInjective(a: Key, b: Key)
    requires Render(a) == Render(b)
    ensures a == b
  {
    PrefixDecomposes(Tag(a), a.coll, Rest(a), b);
    if a.ListKey? {
      DecimalIsPlain(a.limit);
      DecimalIsPlain(b.limit);
      ColonSplits(Decimal(a.limit), Decimal(a.offset), Decimal(b.limit), Decimal(b.offset));
      DecimalIsInjective(a.limit, b.limit);
      DecimalIsInjective(a.offset, b.offset);
    }
  }
}
