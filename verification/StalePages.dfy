/** When a cached list or query is stale: what a write to a document that it shows does for good, and what
    the other documents of the collection can still do. */
module StalePages {
  import opened Prelude
  import opened Sorting
  import opened OperationLog
  import opened JsonRoutes
  import opened Query
  import opened CacheKeys
  import opened TtlCache
  import opened CachedReads

  // ---------------------------------------------------------------- what a page shows

  /** The rows of a listing are the live documents, as the document route answers them. */
  lemma {:induction false} RowIsStored(db: Db, order: seq<DocKey>, coll: nat, r: Row)
    requires r in RowsIn(db.docs, db.stamps, order, coll)
    ensures
      var key := (coll, r.id);
      key in db.docs && key in db.stamps && r == Row(r.id, db.docs[key], db.stamps[key])
  {
    if r in RowsIn(db.docs, db.stamps, Front(order), coll) { RowIsStored(db, Front(order), coll, r); }
  }

  lemma {:induction false} ReversedMembers<T>(xs: seq<T>, x: T)
    ensures x in Reversed(xs) <==> x in xs
  {
    if xs != [] {
      assert xs == Front(xs) + [Last(xs)];
      ReversedMembers(Front(xs), x);
    }
  }

  lemma ListedIsLive(rows: seq<Row>, r: Row)
    ensures r in Listing(rows) <==> r in rows && !r.doc.deleted
  {
    var live := Filter(rows, (x: Row) => !x.doc.deleted);
    FilterMembers(rows, (x: Row) => !x.doc.deleted, r);
    ReversedMembers(live, r);
    SortMembers(Reversed(live), NewerFirst);
  }

  lemma SliceMembers<T>(xs: seq<T>, offset: nat, limit: nat, x: T)
    requires x in Slice(xs, offset, limit)
    ensures x in xs
  {
  }

  lemma OrderedMembers(rows: seq<Row>, q: QuerySpec, str: Json -> string, r: Row)
    requires Ordered(rows, q, str).Success? && r in Ordered(rows, q, str).value
    ensures r in rows
  {
    var matched := Matched(rows, q.where, str);
    if q.orderBy.Some? { SortMembers(matched, OrderOf(q.orderBy.value, q.descending)); }
    FilterMembers(rows, (x: Row) => Matches(x, q.where, str), r);
  }

  /** A list or query answered with this page. */
  predicate Pages(db: Db, read: Read, str: Json -> string, page: Page) {
    !read.GetDoc? && Uncached(db, read, str) == Some(PageBody(page))
  }

  lemma ShownIsListed(db: Db, read: Read, str: Json -> string, page: Page, r: Row)
    requires Pages(db, read, str, page) && r in page.items
    ensures r in Listing(Rows(db, read.coll))
  {
    var listed := Listing(Rows(db, read.coll));
    if read.ListDocs? {
      SliceMembers(listed, read.offset, read.limit, r);
    } else {
      SliceMembers(Ordered(listed, read.query, str).value, read.query.offset, read.query.limit, r);
      OrderedMembers(listed, read.query, str, r);
    }
  }

  /** What a page shows of a document is what the document's own route answers. */
  lemma ShownIsAnswered(db: Db, read: Read, str: Json -> string, page: Page, r: Row)
    requires Pages(db, read, str, page) && r in page.items
    ensures Uncached(db, GetDoc(read.coll, r.id), str) == Some(DocumentBody(r))
  {
    ShownIsListed(db, read, str, page, r);
    ListedIsLive(Rows(db, read.coll), r);
    RowIsStored(db, db.order, read.coll, r);
  }

  // ---------------------------------------------------------------- a write to a document on the page

  /** Event `k` is a committed request that may have changed document `d` of collection `c`. */
  predicate Writes(e: Event, c: nat, d: string) {
    e.WriteEvent? && MayChange(e.request, (c, d))
  }

  /** STALE FOR GOOD.  Once a single write has changed a document that a page shows, no later answer is that
      page again. */
  lemma WriteOnPageStales(run: seq<World>, events: seq<Event>, env: Env, j: nat, k: nat, i: nat, read: Read,
                          page: Page, r: Row)
    requires Run(run, events, env) && j <= k < i < |run| && Pages(run[j].db, read, env.str, page)
    requires r in page.items && Writes(events[k], read.coll, r.id) && events[k].request.DocumentRequest?
    ensures Uncached(run[i].db, read, env.str) != Some(PageBody(page))
  {
    ShownIsAnswered(run[j].db, read, env.str, page, r);
    WriteChangesAnswer(run, events, env, j, k, i, read.coll, r.id);
    if Uncached(run[i].db, read, env.str) == Some(PageBody(page)) {
      ShownIsAnswered(run[i].db, read, env.str, page, r);
    }
  }

  function Ids(rows: seq<Row>): (r: seq<string>)
    ensures |r| == |rows|
    ensures forall k | 0 <= k < |rows| :: r[k] == rows[k].id
  {
    if rows == [] then [] else Ids(Front(rows)) + [Last(rows).id]
  }

  /** The answer names the same documents in the same places, out of as many. */
  predicate SameOutline(answer: Option<Body>, page: Page) {
    && answer.Some? && answer.value.PageBody?
    && answer.value.page.total == page.total && Ids(answer.value.page.items) == Ids(page.items)
  }

  /** No request between the two moments changed a document that the page shows. */
  ghost predicate ShownUnwritten(events: seq<Event>, j: nat, i: nat, c: nat, page: Page)
    requires i <= |events|
  {
    forall k, r | j <= k < i && r in page.items :: !Writes(events[k], c, r.id)
  }

  /** Unwritten documents look as they did. */
  lemma UnwrittenShowsSame(run: seq<World>, events: seq<Event>, env: Env, j: nat, i: nat, read: Read, page: Page,
                           now: Page, n: nat)
    requires Run(run, events, env) && j <= i < |run|
    requires Pages(run[j].db, read, env.str, page) && Pages(run[i].db, read, env.str, now)
    requires n < |page.items| && n < |now.items| && page.items[n].id == now.items[n].id
    requires forall k | j <= k < i :: !Writes(events[k], read.coll, page.items[n].id)
    ensures page.items[n] == now.items[n]
  {
    var d := page.items[n].id;
    ShownIsAnswered(run[j].db, read, env.str, page, page.items[n]);
    ShownIsAnswered(run[i].db, read, env.str, now, now.items[n]);
    UntouchedKeepsAnswer(run, events, env, j, i, GetDoc(read.coll, d));
  }

  lemma OutlineKeepsPage(run: seq<World>, events: seq<Event>, env: Env, j: nat, i: nat, read: Read, page: Page)
    requires Run(run, events, env) && j <= i < |run| && Pages(run[j].db, read, env.str, page)
    requires SameOutline(Uncached(run[i].db, read, env.str), page)
    requires ShownUnwritten(events, j, i, read.coll, page)
    ensures Uncached(run[i].db, read, env.str) == Some(PageBody(page))
  {
    var now := Uncached(run[i].db, read, env.str).value.page;
    assert |now.items| == |Ids(now.items)| == |Ids(page.items)| == |page.items|;
    forall n | 0 <= n < |page.items| ensures page.items[n] == now.items[n] {
      assert page.items[n].id == Ids(page.items)[n] == Ids(now.items)[n] == now.items[n].id;
      assert page.items[n] in page.items;
      UnwrittenShowsSame(run, events, env, j, i, read, page, now, n);
    }
    assert now.items == page.items;
  }

  /** A batch drops every page of its collection, so what touches a cached page is a single write by key. */
  lemma WritersOfPage(run: seq<World>, events: seq<Event>, env: Env, i: nat, e: Entry<Body>, read: Read, j: nat, k: nat,
                      d: string)
    requires Run(run, events, env) && i < |run| && FiledAt(run, events, env, i, e, read, j)
    requires e.key == Render(KeyOf(env, read)) && !read.GetDoc? && j <= k < i && Writes(events[k], read.coll, d)
    ensures ByKey(events[k].request) && events[k].request.DocumentRequest?
  {
    OnlyKeyWritesTouch(run, events, env, i, e, read, j, k);
  }

  /** STALENESS of lists and queries, exactly.  A cached page, filed at step `j`, is what the uncached route
      answers now if and only if the documents on it are still the ones to show, out of as many, and no
      committed request since `j` changed one of them; any that did was a publishable-key write. */
  lemma PageIsFreshIffUnwritten(run: seq<World>, events: seq<Event>, env: Env, i: nat, read: Read)
    returns (j: nat, e: Entry<Body>)
    requires Run(run, events, env) && i < |run| && NoCollision(events, i, env, read) && !read.GetDoc?
    requires Hit(run[i].entries, Render(KeyOf(env, read)), run[i].now).Some?
    ensures FiledAt(run, events, env, i, e, read, j) && run[i].now <= e.expiresAt
    ensures e.value.PageBody? && Answer(run[i], env, read) == Some(e.value)
    ensures Answer(run[i], env, read) == Uncached(run[i].db, read, env.str) <==>
            SameOutline(Uncached(run[i].db, read, env.str), e.value.page)
            && ShownUnwritten(events, j, i, read.coll, e.value.page)
    ensures forall k, r | j <= k < i && r in e.value.page.items && Writes(events[k], read.coll, r.id) ::
              ByKey(events[k].request)
  {
    j, e := HitWasFiled(run, events, env, i, read);
    var page := e.value.page;
    forall k, r | j <= k < i && r in page.items && Writes(events[k], read.coll, r.id)
      ensures ByKey(events[k].request) && Uncached(run[i].db, read, env.str) != Some(PageBody(page))
    {
      WritersOfPage(run, events, env, i, e, read, j, k, r.id);
      WriteOnPageStales(run, events, env, j, k, i, read, page, r);
    }
    if SameOutline(Uncached(run[i].db, read, env.str), page) && ShownUnwritten(events, j, i, read.coll, page) {
      OutlineKeepsPage(run, events, env, j, i, read, page);
    }
  }

  // ---------------------------------------------------------------- complete lists

  lemma {:induction false} EveryDbIsConsistent(run: seq<World>, events: seq<Event>, env: Env, i: nat)
    requires Run(run, events, env) && i < |run| && Consistent(run[0].db)
    ensures Consistent(run[i].db)
  {
    if i > 0 {
      EveryDbIsConsistent(run, events, env, i - 1);
      assert StepAt(run, events, env, i - 1);
      if events[i - 1].WriteEvent? { StepKeepsConsistent(run[i - 1].db, run[i].db, events[i - 1].request); }
    }
  }

  lemma {:induction false} BatchAppends(served: seq<Db>, coll: nat, writes: seq<Write>, now: int, i: nat)
    requires OneByOne(served, coll, writes, now) && i < |served|
    ensures served[0].order <= served[i].order
  {
    if i > 0 {
      BatchAppends(served, coll, writes, now, i - 1);
      assert OneServed(served[i - 1], served[i], coll, writes[i - 1], now);
    }
  }

  /** New rows come after the old ones. */
  lemma StepAppends(a: Db, b: Db, request: Request)
    requires Steps(a, b, request)
    ensures a.order <= b.order
  {
    if request.BatchRequest? {
      BatchAppends(request.served, request.coll, request.writes, request.now, |request.served| - 1);
    }
  }

  lemma {:induction false} OrderAppends(run: seq<World>, events: seq<Event>, env: Env, j: nat, i: nat)
    requires Run(run, events, env) && j <= i < |run|
    ensures run[j].db.order <= run[i].db.order
  {
    if j < i {
      OrderAppends(run, events, env, j, i - 1);
      assert StepAt(run, events, env, i - 1);
      if events[i - 1].WriteEvent? { StepAppends(run[i - 1].db, run[i].db, events[i - 1].request); }
    }
  }

  /** The live rows of a collection, in primary-key order. */
  function LiveIn(db: Db, order: seq<DocKey>, coll: nat): seq<Row> {
    Filter(RowsIn(db.docs, db.stamps, order, coll), (r: Row) => !r.doc.deleted)
  }

  /** What the document route answers, from the row alone. */
  function Found(db: Db, key: DocKey): Option<Body> {
    if key in db.docs && key in db.stamps && !db.docs[key].deleted
    then Some(DocumentBody(Row(key.1, db.docs[key], db.stamps[key]))) else None
  }

  lemma FilterAdds<T>(xs: seq<T>, x: T, keep: T -> bool)
    ensures Filter(xs + [x], keep) == Filter(xs, keep) + if keep(x) then [x] else []
  {
    assert Front(xs + [x]) == xs;
  }

  lemma LiveInLast(db: Db, order: seq<DocKey>, coll: nat)
    requires order != []
    ensures LiveIn(db, order, coll) == LiveIn(db, Front(order), coll) +
      if Last(order).0 == coll && Found(db, Last(order)).Some? then [Found(db, Last(order)).value.row] else []
  {
    var key := Last(order);
    var front := RowsIn(db.docs, db.stamps, Front(order), coll);
    if key.0 == coll && key in db.docs && key in db.stamps {
      var row := Row(key.1, db.docs[key], db.stamps[key]);
      assert RowsIn(db.docs, db.stamps, order, coll) == front + [row];
      FilterAdds(front, row, (r: Row) => !r.doc.deleted);
    } else {
      assert RowsIn(db.docs, db.stamps, order, coll) == front;
    }
  }

  lemma {:induction false} SameFoundSameLive(a: Db, b: Db, order: seq<DocKey>, coll: nat)
    requires forall d :: Found(a, (coll, d)) == Found(b, (coll, d))
    ensures LiveIn(a, order, coll) == LiveIn(b, order, coll)
  {
    if order != [] {
      SameFoundSameLive(a, b, Front(order), coll);
      LiveInLast(a, order, coll);
      LiveInLast(b, order, coll);
      assert Last(order) == (Last(order).0, Last(order).1);
    }
  }

  lemma {:induction false} DeadRowsAddNothing(db: Db, order: seq<DocKey>, more: seq<DocKey>, coll: nat)
    requires order <= more && forall n | |order| <= n < |more| :: Found(db, more[n]).None?
    ensures LiveIn(db, more, coll) == LiveIn(db, order, coll)
  {
    if order != more {
      assert order <= Front(more);
      DeadRowsAddNothing(db, order, Front(more), coll);
      LiveInLast(db, more, coll);
      assert Last(more) == more[|more| - 1];
    }
  }

  /** Two consistent databases, one later than the other, with the same live documents in a collection list
      it alike. */
  lemma SameFoundSameListing(a: Db, b: Db, coll: nat)
    requires OrderConsistent(a) && OrderConsistent(b) && a.order <= b.order
    requires forall d :: Found(a, (coll, d)) == Found(b, (coll, d))
    ensures Listing(Rows(a, coll)) == Listing(Rows(b, coll))
  {
    SameFoundSameLive(a, b, b.order, coll);
    forall n | |a.order| <= n < |b.order| ensures Found(a, b.order[n]).None? {
      if b.order[n] in a.order {
        var m :| 0 <= m < |a.order| && a.order[m] == b.order[n];
        DistinctAt(b.order, m, n);
      }
    }
    DeadRowsAddNothing(a, a.order, b.order, coll);
  }

  lemma {:induction false} FoundIsInRows(db: Db, order: seq<DocKey>, key: DocKey)
    requires key in order && Found(db, key).Some?
    ensures Found(db, key).value.row in RowsIn(db.docs, db.stamps, order, key.0)
  {
    assert order == Front(order) + [Last(order)];
    if key in Front(order) { FoundIsInRows(db, Front(order), key); }
  }

  /** A list from the start whose limit covers the total. */
  predicate Complete(read: Read, page: Page) {
    read.ListDocs? && read.offset == 0 && page.total <= read.limit
  }

  /** A complete list shows every live document of its collection. */
  lemma CompleteShowsAll(db: Db, read: Read, str: Json -> string, page: Page, d: string)
    requires OrderConsistent(db) && Pages(db, read, str, page) && Complete(read, page)
    ensures Uncached(db, GetDoc(read.coll, d), str).Some? <==> d in Ids(page.items)
  {
    var key := (read.coll, d);
    assert page.items == Listing(Rows(db, read.coll));
    if Found(db, key).Some? {
      assert key in db.order;
      FoundIsInRows(db, db.order, key);
      ListedIsLive(Rows(db, read.coll), Found(db, key).value.row);
      var n :| 0 <= n < |page.items| && page.items[n] == Found(db, key).value.row;
      assert Ids(page.items)[n] == d;
    }
    if d in Ids(page.items) {
      var n :| 0 <= n < |page.items| && Ids(page.items)[n] == d;
      ShownIsAnswered(db, read, str, page, page.items[n]);
    }
  }

  lemma UnwrittenListStays(run: seq<World>, events: seq<Event>, env: Env, j: nat, i: nat, read: Read, page: Page)
    requires Run(run, events, env) && j <= i < |run| && Pages(run[j].db, read, env.str, page) && Complete(read, page)
    requires OrderConsistent(run[j].db) && OrderConsistent(run[i].db)
    requires ShownUnwritten(events, j, i, read.coll, page)
    requires forall d | Uncached(run[i].db, GetDoc(read.coll, d), env.str).Some? :: d in Ids(page.items)
    ensures Uncached(run[i].db, read, env.str) == Some(PageBody(page))
  {
    var a, b, c := run[j].db, run[i].db, read.coll;
    forall d ensures Found(a, (c, d)) == Found(b, (c, d)) {
      CompleteShowsAll(a, read, env.str, page, d);
      assert Found(b, (c, d)) == Uncached(b, GetDoc(c, d), env.str);
      if d in Ids(page.items) {
        var n :| 0 <= n < |page.items| && Ids(page.items)[n] == d;
        assert page.items[n] in page.items;
        UntouchedKeepsAnswer(run, events, env, j, i, GetDoc(c, d));
      }
    }
    OrderAppends(run, events, env, j, i);
    SameFoundSameListing(a, b, c);
  }

  /** A cached list that is complete is fresh if and only if no document on it was changed since it was filed
      and every document that is live now is on it. */
  lemma CompleteListIsFreshIff(run: seq<World>, events: seq<Event>, env: Env, i: nat, read: Read)
    returns (j: nat, e: Entry<Body>)
    requires Run(run, events, env) && i < |run| && Consistent(run[0].db) && read.ListDocs? && read.offset == 0
    requires Hit(run[i].entries, Render(KeyOf(env, read)), run[i].now).Some?
    ensures FiledAt(run, events, env, i, e, read, j) && run[i].now <= e.expiresAt
    ensures e.value.PageBody? && Answer(run[i], env, read) == Some(e.value)
    ensures e.value.page.total <= read.limit ==>
      (Answer(run[i], env, read) == Uncached(run[i].db, read, env.str) <==>
       ShownUnwritten(events, j, i, read.coll, e.value.page)
       && forall d | Uncached(run[i].db, GetDoc(read.coll, d), env.str).Some? :: d in Ids(e.value.page.items))
  {
    DocumentsAndListsNeverCollide(events, i, env, read);
    j, e := PageIsFreshIffUnwritten(run, events, env, i, read);
    var page := e.value.page;
    EveryDbIsConsistent(run, events, env, i);
    EveryDbIsConsistent(run, events, env, j);
    if Complete(read, page) {
      if Answer(run[i], env, read) == Uncached(run[i].db, read, env.str) {
        forall d | Uncached(run[i].db, GetDoc(read.coll, d), env.str).Some? ensures d in Ids(page.items) {
          CompleteShowsAll(run[i].db, read, env.str, page, d);
        }
      } else if forall d | Uncached(run[i].db, GetDoc(read.coll, d), env.str).Some? :: d in Ids(page.items) {
        if ShownUnwritten(events, j, i, read.coll, page) {
          UnwrittenListStays(run, events, env, j, i, read, page);
        }
      }
    }
  }
}
