/** The read routes of the publishable-key family.  They do not use the cache; under the document-owner rule an
    app user is shown its own documents. */
module KeyReads {
  import opened Prelude
  import opened Sorting
  import opened OperationLog
  import opened JsonRoutes
  import opened Query
  import opened CachedReads
  import StalePages
  import TtlCache
  import QueryFilters
  import RowEffects

  /** The rows that a list or query starts from: under the document-owner rule, an app user's own. */
  function ShownRows(db: Db, caller: Caller, coll: nat): seq<Row>
    requires coll in db.colls
  {
    if db.colls[coll].config.read.DocumentOwnerRule? && caller.KeyRoute? && caller.app.Some?
    then Filter(Rows(db, coll), (r: Row) => r.doc.owner == Some(caller.app.value.uid))
    else Rows(db, coll)
  }

  /** A whole read route: the document route finds the row first and then checks the access to it; lists and
      queries check the access to the collection. */
  method KeyReadRoute(db: Db, caller: Caller, read: Read, str: Json -> string) returns (r: Result<Body, ReadError>)
    requires caller.KeyRoute?
    ensures r == Failure(CollectionMissing) <==> read.coll !in db.colls
    ensures read.coll in db.colls && read.GetDoc? ==> DocumentAnswer(db, db.colls[read.coll], caller, read, str, r)
    ensures read.coll in db.colls && !read.GetDoc? ==> PageAnswer(db, db.colls[read.coll], caller, read, str, r)
  {
    if read.coll !in db.colls {
      return Failure(CollectionMissing);
    }
    var c := db.colls[read.coll];
    AccessByRule(c, caller, false, None);
    match read
    case GetDoc(coll, d) =>
      var row := Uncached(db, read, str);
      if row.None? {
        return Failure(DocumentMissing);
      }
      AccessByRule(c, caller, false, Some(row.value.row.doc));
      if !CanAccess(c, caller, false, Some(row.value.row.doc)) {
        return Failure(ReadDenied);
      }
      return Success(row.value);
    case ListDocs(coll, limit, offset) =>
      if !CanAccess(c, caller, false, None) {
        return Failure(ReadDenied);
      }
      var all := Listing(ShownRows(db, caller, coll));
      return Success(PageBody(Page(Slice(all, offset, limit), |all|, limit, offset)));
    case QueryDocs(coll, q) =>
      if !CanAccess(c, caller, false, None) {
        return Failure(ReadDenied);
      }
      var page := QueryDocuments(Listing(ShownRows(db, caller, coll)), q, str);
      if page.Failure? {
        return Failure(NotComparable);
      }
      return Success(PageBody(page.value));
  }

  /** The document if there is a live one that the rule lets the caller see. */
  predicate DocumentAnswer(db: Db, c: Collection, caller: Caller, read: Read, str: Json -> string,
                           r: Result<Body, ReadError>)
    requires read.GetDoc?
  {
    var found := Uncached(db, read, str);
    if found.None? then r == Failure(DocumentMissing)
    else if Permits(c.config.read, c, caller)
            && (IsOwner(c, caller) || !c.config.read.DocumentOwnerRule? || IsOwn(found.value.row.doc, caller))
    then r == Success(found.value)
    else r == Failure(ReadDenied)
  }

  /** The page of the listing, or of the query over it, that is made of the rows the caller is shown. */
  predicate PageAnswer(db: Db, c: Collection, caller: Caller, read: Read, str: Json -> string,
                       r: Result<Body, ReadError>)
    requires !read.GetDoc? && read.coll in db.colls
  {
    if !Permits(c.config.read, c, caller) then r == Failure(ReadDenied)
    else
      var listed := Listing(ShownRows(db, caller, read.coll));
      match read
      case ListDocs(_, limit, offset) =>
        r == Success(PageBody(Page(Slice(listed, offset, limit), |listed|, limit, offset)))
      case QueryDocs(_, q) =>
        match RunQuery(listed, q, str)
        case Failure(_) => r == Failure(NotComparable)
        case Success(page) => r == Success(PageBody(page))
  }

  /** OWN DOCUMENTS.  Under the document-owner rule the listing of an app user is exactly the live documents of
      the collection that carry its uid; under every other rule, and without an app user, it is all of them. */
  lemma ListingIsOwn(db: Db, caller: Caller, coll: nat, r: Row)
    requires caller.KeyRoute? && coll in db.colls && OrderConsistent(db)
    ensures r in Listing(ShownRows(db, caller, coll)) <==>
      && (coll, r.id) in db.docs && !db.docs[(coll, r.id)].deleted
      && r == Row(r.id, db.docs[(coll, r.id)], db.stamps[(coll, r.id)])
      && (db.colls[coll].config.read.DocumentOwnerRule? && caller.app.Some? ==>
            db.docs[(coll, r.id)].owner == Some(caller.app.value.uid))
  {
    RowEffects.ListingIsLive(db, coll, r);
    StalePages.ListedIsLive(Rows(db, coll), r);
    StalePages.ListedIsLive(ShownRows(db, caller, coll), r);
    if db.colls[coll].config.read.DocumentOwnerRule? && caller.app.Some? {
      TtlCache.FilterMembers(Rows(db, coll), (x: Row) => x.doc.owner == Some(caller.app.value.uid), r);
    }
  }

  /** Nothing that a list or query shows an app user under the document-owner rule is somebody else's. */
  lemma PagesAreOwn(db: Db, caller: Caller, read: Read, str: Json -> string, page: Page, r: Row)
    requires caller.KeyRoute? && caller.app.Some? && !read.GetDoc? && read.coll in db.colls && OrderConsistent(db)
    requires db.colls[read.coll].config.read.DocumentOwnerRule?
    requires PageAnswer(db, db.colls[read.coll], caller, read, str, Success(PageBody(page))) && r in page.items
    ensures r.doc.owner == Some(caller.app.value.uid) && !r.doc.deleted
  {
    var listed := Listing(ShownRows(db, caller, read.coll));
    ListingIsOwn(db, caller, read.coll, r);
    match read
    case ListDocs(_, limit, offset) => StalePages.SliceMembers(listed, offset, limit, r);
    case QueryDocs(_, q) =>
      StalePages.SliceMembers(Ordered(listed, q, str).value, q.offset, q.limit, r);
      StalePages.OrderedMembers(listed, q, str, r);
  }
}
