/** The cached read routes over the write routes: what a client is answered, run after run.

    A `World` is the database, the cache's entries and the clock.  Reads look in the cache first and
    fill it on a miss; owner and by-id writes invalidate after their commit; publishable-key writes
    do not; other users of the cache may make any entries disappear at any time.  Each read and each
    write is one step here; `ReadsInFlight` lets other requests run between their awaits. */
module CachedReads {
  import opened Prelude
  import opened Sorting
  import opened OperationLog
  import opened JsonRoutes
  import opened Query
  import opened CacheKeys
  import opened TtlCache

  // ---------------------------------------------------------------- the uncached routes

  /** The three cached reads, for one collection each. */
  datatype Read =
    | GetDoc(coll: nat, docId: string)
    | ListDocs(coll: nat, limit: nat, offset: nat)
    | QueryDocs(coll: nat, query: QuerySpec)

  datatype Body =
    | DocumentBody(row: Row)
    | PageBody(page: Page)

  /** The rows of a collection in primary-key order, deleted ones included. */
  function RowsIn(docs: Documents, stamps: map<DocKey, int>, order: seq<DocKey>, coll: nat): seq<Row> {
    if order == [] then []
    else
      var key := Last(order);
      RowsIn(docs, stamps, Front(order), coll) +
      if key.0 == coll && key in docs && key in stamps then [Row(key.1, docs[key], stamps[key])] else []
  }

  function Rows(db: Db, coll: nat): seq<Row> {
    RowsIn(db.docs, db.stamps, db.order, coll)
  }

  /** What the route computes from the database; nothing where it answers an error. */
  function Uncached(db: Db, read: Read, str: Json -> string): Option<Body> {
    match read
    case GetDoc(c, d) =>
      var key := (c, d);
      if key in db.docs && key in db.stamps && !db.docs[key].deleted
      then Some(DocumentBody(Row(d, db.docs[key], db.stamps[key]))) else None
    case ListDocs(c, limit, offset) =>
      var all := Listing(Rows(db, c));
      Some(PageBody(Page(Slice(all, offset, limit), |all|, limit, offset)))
    case QueryDocs(c, q) =>
      match RunQuery(Listing(Rows(db, c)), q, str)
      case Failure(_) => None
      case Success(page) => Some(PageBody(page))
  }

  /** What the routes take from their surroundings: `str`, the query hash and the configured TTLs
      and limits. */
  datatype Env = Env(
    str: Json -> string, digest: QuerySpec -> string, docTtl: real, queryTtl: real, maxEntries: int, maxBytes: int)

  function KeyOf(env: Env, read: Read): Key {
    match read
    case GetDoc(c, d) => DocumentKey(c, d)
    case ListDocs(c, l, o) => ListKey(c, l, o)
    case QueryDocs(c, q) => QueryKey(c, env.digest(q))
  }

  function TtlOf(env: Env, read: Read): real {
    if read.GetDoc? then env.docTtl else env.queryTtl
  }

  // ---------------------------------------------------------------- the cached routes

  datatype World = World(db: Db, entries: seq<Entry<Body>>, now: real)

  /** A cached read: the cached answer if there is one, else the uncached one, which is then stored. */
  function Answer(w: World, env: Env, read: Read): Option<Body> {
    match Hit(w.entries, Render(KeyOf(env, read)), w.now)
    case Some(body) => Some(body)
    case None => Uncached(w.db, read, env.str)
  }

  /** The entries after looking `key` up and, on a miss, filing the computed answer if there is one;
      nothing is filed for no time. */
  function ReadThrough(
    entries: seq<Entry<Body>>, key: string, ttl: real, tag: string, answer: Option<Body>, estimate: nat, now: real,
    maxEntries: int, maxBytes: int): seq<Entry<Body>>
  {
    var looked := AfterGet(entries, key, now);
    if Hit(entries, key, now).Some? || answer.None? || ttl <= 0.0 then looked
    else AfterSet(looked, Entry(key, answer.value, now + ttl, estimate + |key|, tag), maxEntries, maxBytes)
  }

  function AfterRead(w: World, env: Env, read: Read, estimate: nat): World {
    w.(entries := ReadThrough(w.entries, Render(KeyOf(env, read)), TtlOf(env, read), Tag(KeyOf(env, read)),
                              Uncached(w.db, read, env.str), estimate, w.now, env.maxEntries, env.maxBytes))
  }

  function DropKey(entries: seq<Entry<Body>>, key: string): seq<Entry<Body>> {
    Without(entries, key)
  }

  function DropPrefix(entries: seq<Entry<Body>>, prefix: string): seq<Entry<Body>> {
    Filter(entries, (e: Entry<Body>) => !(prefix <= e.key))
  }

  /** `invalidate_json_document`. */
  function InvalidateDocument(entries: seq<Entry<Body>>, coll: nat, docId: string): seq<Entry<Body>> {
    DropPrefix(DropPrefix(DropKey(entries, Render(DocumentKey(coll, docId))),
                          Prefix("json_list", coll)),
               Prefix("json_query", coll))
  }

  /** `invalidate_json_collection`; the key of the collection itself holds no cached read. */
  function InvalidateCollection(entries: seq<Entry<Body>>, coll: nat): seq<Entry<Body>> {
    DropPrefix(DropPrefix(DropPrefix(entries, Prefix("json_doc", coll)),
                          Prefix("json_list", coll)),
               Prefix("json_query", coll))
  }

  // ---------------------------------------------------------------- the steps

  datatype Event =
    | Tick(seconds: real)
    | ReadEvent(read: Read, estimate: nat)
    | WriteEvent(request: Request)
    | Forget(keep: Entry<Body> -> bool)

  /** The publishable-key routes commit without invalidating. */
  predicate ByKey(request: Request) {
    request.DocumentRequest? && request.caller.KeyRoute?
  }

  /** The entries left after the route's invalidation. */
  function Invalidated(entries: seq<Entry<Body>>, after: Db, request: Request): seq<Entry<Body>> {
    match request
    case DocumentRequest(caller, coll, write, _, _, answer) =>
      if caller.KeyRoute? || answer.Failure? then entries else InvalidateDocument(entries, coll, write.id)
    case BatchRequest(coll, _, _, _) => InvalidateCollection(entries, coll)
    case SettingsRequest(entry) => InvalidateCollection(entries, entry.coll)
    case CollectionRequest(_, _, _) => InvalidateCollection(entries, after.lastColl)
  }

  ghost predicate Next(w: World, v: World, e: Event, env: Env) {
    match e
    case Tick(seconds) => seconds >= 0.0 && v == w.(now := w.now + seconds)
    case ReadEvent(read, estimate) => v == AfterRead(w, env, read, estimate)
    case WriteEvent(request) =>
      Steps(w.db, v.db, request) && v.now == w.now && v.entries == Invalidated(w.entries, v.db, request)
    case Forget(keep) => v == w.(entries := Filter(w.entries, keep))
  }

  // ---------------------------------------------------------------- what a write leaves alone

  /** The two databases have the same rows in the collection. */
  predicate SameRows(a: Db, b: Db, coll: nat) {
    Rows(a, coll) == Rows(b, coll)
  }

  predicate SameDoc(a: Db, b: Db, key: DocKey) {
    Lookup(a.docs, key) == Lookup(b.docs, key) && Lookup(a.stamps, key) == Lookup(b.stamps, key)
  }

  lemma {:induction false} RowsElsewhere(docs: Documents, stamps: map<DocKey, int>, docs': Documents,
                                         stamps': map<DocKey, int>, order: seq<DocKey>, key: DocKey, coll: nat)
    requires coll != key.0
    requires forall k | k != key :: Lookup(docs, k) == Lookup(docs', k) && Lookup(stamps, k) == Lookup(stamps', k)
    ensures RowsIn(docs, stamps, order, coll) == RowsIn(docs', stamps', order, coll)
  {
    if order != [] {
      RowsElsewhere(docs, stamps, docs', stamps', Front(order), key, coll);
      var k := Last(order);
      if k.0 == coll {
        assert Lookup(docs, k) == Lookup(docs', k) && Lookup(stamps, k) == Lookup(stamps', k);
      }
    }
  }

  /** Committing an operation on one document touches only that document and its collection. */
  lemma CommitIsLocal(a: Db, entry: Operation, id: nat, now: int, b: Db)
    requires Commit(a, entry, id, now) == Success(b)
    ensures forall c | c != entry.coll :: SameRows(a, b, c)
    ensures forall k: DocKey | !OnDocument(entry) || entry.docId.None? || k != (entry.coll, entry.docId.value) ::
        SameDoc(a, b, k)
  {
    if OnDocument(entry) {
      var key := (entry.coll, entry.docId.value);
      forall c | c != entry.coll ensures SameRows(a, b, c) {
        RowsElsewhere(a.docs, a.stamps, b.docs, b.stamps, a.order, key, c);
        assert key !in a.docs ==> Front(b.order) == a.order && Last(b.order) == key;
      }
    }
  }

  /** The documents a request may change: one, or those of one collection, or none. */
  predicate MayChange(request: Request, key: DocKey) {
    match request
    case DocumentRequest(_, coll, write, _, _, answer) => answer.Success? && key == (coll, write.id)
    case BatchRequest(coll, _, _, _) => key.0 == coll
    case SettingsRequest(_) => false
    case CollectionRequest(_, _, _) => false
  }

  predicate MayChangeIn(request: Request, c: nat) {
    match request
    case DocumentRequest(_, coll, _, _, _, answer) => answer.Success? && c == coll
    case BatchRequest(coll, _, _, _) => c == coll
    case SettingsRequest(_) => false
    case CollectionRequest(_, _, _) => false
  }

  lemma ServedIsLocal(a: Db, b: Db, caller: Caller, coll: nat, write: Write, size: nat, now: int,
                      r: Result<Document, WriteError>)
    requires Served(a, b, caller, coll, write, size, now, r)
    ensures forall c | r.Failure? || c != coll :: SameRows(a, b, c)
    ensures forall k: DocKey | r.Failure? || k != (coll, write.id) :: SameDoc(a, b, k)
  {
    if Admit(a, caller, coll, write, size).Success? {
      AdmittedOperationFits(a, caller, coll, write, size, b.lastId);
      CommitIsLocal(a, Admit(a, caller, coll, write, size).value, b.lastId, now, b);
    }
  }

  lemma {:induction false} BatchIsLocal(served: seq<Db>, coll: nat, writes: seq<Write>, now: int, i: nat)
    requires OneByOne(served, coll, writes, now) && i < |served|
    ensures forall c | c != coll :: SameRows(served[0], served[i], c)
    ensures forall k: DocKey | k.0 != coll :: SameDoc(served[0], served[i], k)
  {
    if i > 0 {
      BatchIsLocal(served, coll, writes, now, i - 1);
      var r: Result<Document, WriteError> :|
        r.Success? && Served(served[i - 1], served[i], OwnerRoute, coll, writes[i - 1], 0, now, r);
      ServedIsLocal(served[i - 1], served[i], OwnerRoute, coll, writes[i - 1], 0, now, r);
      forall k: DocKey | k.0 != coll ensures SameDoc(served[0], served[i], k) {
        assert k != (coll, writes[i - 1].id);
        assert SameDoc(served[i - 1], served[i], k);
        assert SameDoc(served[0], served[i - 1], k);
      }
      forall c | c != coll ensures SameRows(served[0], served[i], c) {
        assert SameRows(served[i - 1], served[i], c);
        assert SameRows(served[0], served[i - 1], c);
      }
    }
  }

  /** A request changes no answer about the documents and collections it does not name. */
  lemma StepIsLocal(a: Db, b: Db, request: Request)
    requires Steps(a, b, request)
    ensures forall c | !MayChangeIn(request, c) :: SameRows(a, b, c)
    ensures forall k | !MayChange(request, k) :: SameDoc(a, b, k)
  {
    match request
    case DocumentRequest(caller, coll, write, size, now, answer) =>
      ServedIsLocal(a, b, caller, coll, write, size, now, answer);
    case BatchRequest(coll, writes, now, served) =>
      BatchIsLocal(served, coll, writes, now, |served| - 1);
    case SettingsRequest(entry) =>
      CommitIsLocal(a, entry, b.lastId, 0, b);
    case CollectionRequest(name, owner, database) =>
  }

  predicate ReadUnaffected(request: Request, read: Read) {
    match read
    case GetDoc(c, d) => !MayChange(request, (c, d))
    case ListDocs(c, _, _) => !MayChangeIn(request, c)
    case QueryDocs(c, _) => !MayChangeIn(request, c)
  }

  /** Nothing that the read looks at differs. */
  predicate SameFor(a: Db, b: Db, read: Read) {
    match read
    case GetDoc(c, d) => SameDoc(a, b, (c, d))
    case ListDocs(c, _, _) => SameRows(a, b, c)
    case QueryDocs(c, _) => SameRows(a, b, c)
  }

  lemma UnaffectedStaysSameFor(a: Db, b: Db, request: Request, read: Read)
    requires Steps(a, b, request) && ReadUnaffected(request, read)
    ensures SameFor(a, b, read)
  {
    StepIsLocal(a, b, request);
  }

  lemma SameForSameAnswer(a: Db, b: Db, read: Read, str: Json -> string)
    requires SameFor(a, b, read)
    ensures Uncached(a, read, str) == Uncached(b, read, str)
  {
  }

  lemma UnaffectedReadKeepsAnswer(a: Db, b: Db, request: Request, read: Read, str: Json -> string)
    requires Steps(a, b, request) && ReadUnaffected(request, read)
    ensures Uncached(a, read, str) == Uncached(b, read, str)
  {
    UnaffectedStaysSameFor(a, b, request, read);
    SameForSameAnswer(a, b, read, str);
  }

  lemma DropPrefixMembers(entries: seq<Entry<Body>>, prefix: string, e: Entry<Body>)
    ensures e in DropPrefix(entries, prefix) <==> e in entries && !(prefix <= e.key)
  {
    FilterMembers(entries, (x: Entry<Body>) => !(prefix <= x.key), e);
  }

  /** What survives the invalidation of a request that invalidates is unaffected by it. */
  lemma SurvivorIsUnaffected(entries: seq<Entry<Body>>, after: Db, request: Request, e: Entry<Body>, env: Env,
                             read: Read)
    requires !ByKey(request) && e in Invalidated(entries, after, request)
    requires e.key == Render(KeyOf(env, read))
    ensures e in entries && ReadUnaffected(request, read)
  {
    var k := KeyOf(env, read);
    match request
    case DocumentRequest(_, coll, write, _, _, answer) =>
      if answer.Success? { DocumentSurvivor(entries, coll, write.id, e, k); }
    case BatchRequest(coll, _, _, _) => CollectionSurvivor(entries, coll, e, k);
    case SettingsRequest(entry) => CollectionSurvivor(entries, entry.coll, e, k);
    case CollectionRequest(_, _, _) => CollectionSurvivor(entries, after.lastColl, e, k);
  }

  lemma DocumentSurvivor(entries: seq<Entry<Body>>, coll: nat, docId: string, e: Entry<Body>, k: Key)
    requires e in InvalidateDocument(entries, coll, docId) && e.key == Render(k)
    ensures e in entries && k != DocumentKey(coll, docId) && (k.coll == coll ==> k.DocumentKey?)
  {
    var key := Render(DocumentKey(coll, docId));
    DropPrefixMembers(DropPrefix(DropKey(entries, key), Prefix("json_list", coll)), Prefix("json_query", coll), e);
    DropPrefixMembers(DropKey(entries, key), Prefix("json_list", coll), e);
    WithoutMembers(entries, key, e);
    PrefixIsExact("json_list", coll, k);
    PrefixIsExact("json_query", coll, k);
  }

  lemma CollectionSurvivor(entries: seq<Entry<Body>>, coll: nat, e: Entry<Body>, k: Key)
    requires e in InvalidateCollection(entries, coll) && e.key == Render(k)
    ensures e in entries && k.coll != coll
  {
    var first := DropPrefix(entries, Prefix("json_doc", coll));
    var second := DropPrefix(first, Prefix("json_list", coll));
    DropPrefixMembers(second, Prefix("json_query", coll), e);
    DropPrefixMembers(first, Prefix("json_list", coll), e);
    DropPrefixMembers(entries, Prefix("json_doc", coll), e);
    PrefixIsExact("json_doc", coll, k);
    PrefixIsExact("json_list", coll, k);
    PrefixIsExact("json_query", coll, k);
  }

  /** Invalidation only removes entries. */
  lemma InvalidatedIsOld(entries: seq<Entry<Body>>, after: Db, request: Request, e: Entry<Body>, env: Env, read: Read)
    requires e in Invalidated(entries, after, request) && e.key == Render(KeyOf(env, read))
    ensures e in entries
  {
    if !ByKey(request) { SurvivorIsUnaffected(entries, after, request, e, env, read); }
  }

  /** On a miss the answer is filed, unless for no time. */
  lemma MissFiles(entries: seq<Entry<Body>>, key: string, ttl: real, tag: string, answer: Option<Body>, estimate: nat,
                  now: real, maxEntries: int, maxBytes: int)
    requires Hit(entries, key, now).None? && answer.Some?
    ensures ReadThrough(entries, key, ttl, tag, answer, estimate, now, maxEntries, maxBytes) ==
            if ttl <= 0.0 then AfterGet(entries, key, now)
            else AfterSet(AfterGet(entries, key, now), Entry(key, answer.value, now + ttl, estimate + |key|, tag),
                          maxEntries, maxBytes)
  {
  }

  lemma ReadThroughStores(
      entries: seq<Entry<Body>>, key: string, ttl: real, tag: string, answer: Option<Body>, estimate: nat, now: real,
      maxEntries: int, maxBytes: int, e: Entry<Body>)
    requires e in ReadThrough(entries, key, ttl, tag, answer, estimate, now, maxEntries, maxBytes)
    ensures e in entries || (e.key == key && e.expiresAt == now + ttl && answer == Some(e.value))
  {
    var looked := AfterGet(entries, key, now);
    if Hit(entries, key, now).None? && answer.Some? && ttl > 0.0 {
      SetKeepsOnlyOld(looked, Entry(key, answer.value, now + ttl, estimate + |key|, tag), maxEntries, maxBytes, e);
    }
    if e in looked { GetKeepsOnlyOld(entries, key, now, e); }
  }

  /** What a read leaves in the cache is old, or its own computed answer. */
  lemma ReadStores(w: World, env: Env, read: Read, estimate: nat, e: Entry<Body>)
    requires e in AfterRead(w, env, read, estimate).entries
    ensures e in w.entries ||
            (e.key == Render(KeyOf(env, read)) && e.expiresAt == w.now + TtlOf(env, read)
             && Uncached(w.db, read, env.str) == Some(e.value))
  {
    ReadThroughStores(w.entries, Render(KeyOf(env, read)), TtlOf(env, read), Tag(KeyOf(env, read)),
                      Uncached(w.db, read, env.str), estimate, w.now, env.maxEntries, env.maxBytes, e);
  }

  // ---------------------------------------------------------------- runs

  ghost predicate Run(run: seq<World>, events: seq<Event>, env: Env) {
    && |run| == |events| + 1 && run[0].entries == []
    && forall k | 0 <= k < |events| :: StepAt(run, events, env, k)
  }

  ghost predicate StepAt(run: seq<World>, events: seq<Event>, env: Env, k: nat)
    requires |run| == |events| + 1 && k < |events|
  {
    Next(run[k], run[k + 1], events[k], env)
  }

  /** The reads before step `i` that use this read's key are this read. */
  ghost predicate NoCollision(events: seq<Event>, i: nat, env: Env, read: Read)
    requires i <= |events|
  {
    forall k | 0 <= k < i :: !Collides(events[k], env, read)
  }

  /** Another read with this read's key. */
  predicate Collides(e: Event, env: Env, read: Read) {
    e.ReadEvent? && Render(KeyOf(env, e.read)) == Render(KeyOf(env, read)) && e.read != read
  }

  /** A document or a list never shares its key with another read. */
  lemma DocumentsAndListsNeverCollide(events: seq<Event>, i: nat, env: Env, read: Read)
    requires i <= |events| && !read.QueryDocs?
    ensures NoCollision(events, i, env, read)
  {
    forall k | 0 <= k < i ensures !Collides(events[k], env, read) {
      if Collides(events[k], env, read) { KeysAreInjective(KeyOf(env, events[k].read), KeyOf(env, read)); }
    }
  }

  /** A query of the same collection has the digest of `q` but is not `q`. */
  predicate DigestCollides(e: Event, env: Env, c: nat, q: QuerySpec) {
    && e.ReadEvent? && e.read.QueryDocs? && e.read.coll == c
    && env.digest(e.read.query) == env.digest(q) && e.read.query != q
  }

  /** A query shares its key with another read exactly if another query of the same collection, among
      those that were asked, has the same digest. */
  lemma QueriesCollideByDigest(events: seq<Event>, i: nat, env: Env, c: nat, q: QuerySpec)
    requires i <= |events|
    ensures NoCollision(events, i, env, QueryDocs(c, q)) <==>
        forall k | 0 <= k < i :: !DigestCollides(events[k], env, c, q)
  {
    var read := QueryDocs(c, q);
    forall k | 0 <= k < i ensures Collides(events[k], env, read) <==> DigestCollides(events[k], env, c, q) {
      if Collides(events[k], env, read) { KeysAreInjective(KeyOf(env, events[k].read), KeyOf(env, read)); }
    }
  }

  /** `e` was filed by this read at step `j`, and has been in the cache from then until step `i`. */
  ghost predicate FiledAt(run: seq<World>, events: seq<Event>, env: Env, i: nat, e: Entry<Body>, read: Read, j: nat)
    requires |run| == |events| + 1 && i < |run|
  {
    && j < i && events[j].ReadEvent? && events[j].read == read
    && run[j].now + TtlOf(env, read) == e.expiresAt && Uncached(run[j].db, read, env.str) == Some(e.value)
    && forall k | j < k <= i :: HeldAt(run, k, e)
  }

  predicate HeldAt(run: seq<World>, k: nat, e: Entry<Body>)
    requires k < |run|
  {
    e in run[k].entries
  }

  /** A step leaves no entry that was not there, except for a read's own answer. */
  lemma EntryIsOldOrRead(w: World, v: World, event: Event, env: Env, e: Entry<Body>, read: Read)
    requires Next(w, v, event, env) && e in v.entries && e.key == Render(KeyOf(env, read))
    ensures e in w.entries ||
            (event.ReadEvent? && e.key == Render(KeyOf(env, event.read))
             && e.expiresAt == w.now + TtlOf(env, event.read)
             && Uncached(w.db, event.read, env.str) == Some(e.value))
  {
    match event
    case Tick(_) =>
    case Forget(keep) => FilterMembers(w.entries, keep, e);
    case ReadEvent(r, estimate) => ReadStores(w, env, r, estimate, e);
    case WriteEvent(request) => InvalidatedIsOld(w.entries, v.db, request, e, env, read);
  }

  /** The last step at which an entry was missing. */
  lemma {:induction false} LastAbsent(run: seq<World>, i: nat, e: Entry<Body>) returns (j: nat)
    requires 0 < |run| && run[0].entries == [] && i < |run| && HeldAt(run, i, e)
    ensures j < i && !HeldAt(run, j, e) && forall k | j < k <= i :: HeldAt(run, k, e)
  {
    if HeldAt(run, i - 1, e) { j := LastAbsent(run, i - 1, e); } else { j := i - 1; }
  }

  /** Every entry was filed by a read of its key that missed, one TTL before it expires. */
  lemma EntryWasFiled(run: seq<World>, events: seq<Event>, env: Env, i: nat, e: Entry<Body>, read: Read)
    returns (j: nat)
    requires Run(run, events, env) && i < |run| && NoCollision(events, i, env, read)
    requires e in run[i].entries && e.key == Render(KeyOf(env, read))
    ensures FiledAt(run, events, env, i, e, read, j)
  {
    assert HeldAt(run, i, e);
    j := LastAbsent(run, i, e);
    assert HeldAt(run, j + 1, e) && StepAt(run, events, env, j) && !Collides(events[j], env, read);
    EntryIsOldOrRead(run[j], run[j + 1], events[j], env, e, read);
  }

  /** The entry behind a hit. */
  lemma HitWasFiled(run: seq<World>, events: seq<Event>, env: Env, i: nat, read: Read) returns (j: nat, e: Entry<Body>)
    requires Run(run, events, env) && i < |run| && NoCollision(events, i, env, read)
    requires Hit(run[i].entries, Render(KeyOf(env, read)), run[i].now).Some?
    ensures FiledAt(run, events, env, i, e, read, j) && run[i].now <= e.expiresAt
    ensures e.key == Render(KeyOf(env, read)) && Answer(run[i], env, read) == Some(e.value)
  {
    var w, key := run[i], Render(KeyOf(env, read));
    HitIsStored(w.entries, key, w.now);
    e :| e in w.entries && e.key == key && e.value == Hit(w.entries, key, w.now).value && w.now <= e.expiresAt;
    j := EntryWasFiled(run, events, env, i, e, read);
  }

  /** Step `k` is a committed request that may change what this read is answered. */
  predicate Touches(e: Event, read: Read) {
    e.WriteEvent? && !ReadUnaffected(e.request, read)
  }

  /** While an entry stays in the cache, only publishable-key writes can have touched its read. */
  lemma OnlyKeyWritesTouch(run: seq<World>, events: seq<Event>, env: Env, i: nat, e: Entry<Body>, read: Read, j: nat,
                           k: nat)
    requires Run(run, events, env) && i < |run| && FiledAt(run, events, env, i, e, read, j)
    requires e.key == Render(KeyOf(env, read)) && j <= k < i && Touches(events[k], read)
    ensures ByKey(events[k].request)
  {
    assert StepAt(run, events, env, k) && HeldAt(run, k + 1, e);
    if !ByKey(events[k].request) {
      SurvivorIsUnaffected(run[k].entries, run[k + 1].db, events[k].request, e, env, read);
    }
  }

  lemma StepKeepsAnswer(w: World, v: World, e: Event, env: Env, read: Read)
    requires Next(w, v, e, env) && !Touches(e, read)
    ensures Uncached(w.db, read, env.str) == Uncached(v.db, read, env.str)
  {
    if e.WriteEvent? { UnaffectedReadKeepsAnswer(w.db, v.db, e.request, read, env.str); }
  }

  lemma {:induction false} ConstantStretch<T>(xs: seq<T>, j: nat, i: nat)
    requires j <= i < |xs| && forall k | j <= k < i :: xs[k] == xs[k + 1]
    ensures xs[j] == xs[i]
  {
    if j < i { ConstantStretch(xs, j, i - 1); }
  }

  /** As long as nothing touches the read, its uncached answer stays. */
  lemma UntouchedKeepsAnswer(run: seq<World>, events: seq<Event>, env: Env, j: nat, i: nat, read: Read)
    requires Run(run, events, env) && j <= i < |run| && forall k | j <= k < i :: !Touches(events[k], read)
    ensures Uncached(run[j].db, read, env.str) == Uncached(run[i].db, read, env.str)
  {
    var answers := seq(|run|, k requires 0 <= k < |run| => Uncached(run[k].db, read, env.str));
    forall k | j <= k < i ensures answers[k] == answers[k + 1] {
      assert StepAt(run, events, env, k);
      StepKeepsAnswer(run[k], run[k + 1], events[k], env, read);
    }
    ConstantStretch(answers, j, i);
  }

  // ---------------------------------------------------------------- transparency

  /** A hit, filed at step `j`, is fresh if nothing has touched its read since; and only publishable-key
      writes can have. */
  lemma HitIsFreshUnlessTouched(run: seq<World>, events: seq<Event>, env: Env, i: nat, read: Read)
    returns (j: nat, e: Entry<Body>)
    requires Run(run, events, env) && i < |run| && NoCollision(events, i, env, read)
    requires Hit(run[i].entries, Render(KeyOf(env, read)), run[i].now).Some?
    ensures FiledAt(run, events, env, i, e, read, j) && run[i].now <= e.expiresAt
    ensures Answer(run[i], env, read) == Some(e.value)
    ensures forall k | j <= k < i && Touches(events[k], read) :: ByKey(events[k].request)
    ensures (forall k | j <= k < i :: !Touches(events[k], read)) ==>
              Answer(run[i], env, read) == Uncached(run[i].db, read, env.str)
  {
    j, e := HitWasFiled(run, events, env, i, read);
    forall k | j <= k < i && Touches(events[k], read) ensures ByKey(events[k].request) {
      OnlyKeyWritesTouch(run, events, env, i, e, read, j, k);
    }
    if forall k | j <= k < i :: !Touches(events[k], read) {
      UntouchedKeepsAnswer(run, events, env, j, i, read);
    }
  }

  /** TRANSPARENCY, read by read.  In every run, whatever expires or is evicted, a cached read answers
      what the uncached route answers now, provided that no publishable-key write touched this read. */
  lemma CacheIsTransparent(run: seq<World>, events: seq<Event>, env: Env, i: nat, read: Read)
    requires Run(run, events, env) && i < |run| && NoCollision(events, i, env, read)
    requires forall k | 0 <= k < i && events[k].WriteEvent? && ByKey(events[k].request) ::
               ReadUnaffected(events[k].request, read)
    ensures Answer(run[i], env, read) == Uncached(run[i].db, read, env.str)
  {
    if Hit(run[i].entries, Render(KeyOf(env, read)), run[i].now).Some? {
      var j, e := HitIsFreshUnlessTouched(run, events, env, i, read);
      assert forall k | j <= k < i :: !Touches(events[k], read);
    }
  }

  // ---------------------------------------------------------------- when a cached document is stale

  function VersionOf(db: Db, key: DocKey): nat {
    if key in db.docs then db.docs[key].version else 0
  }

  lemma ServedRaisesVersion(a: Db, b: Db, caller: Caller, coll: nat, write: Write, size: nat, now: int,
                            r: Result<Document, WriteError>, key: DocKey)
    requires Served(a, b, caller, coll, write, size, now, r)
    ensures VersionOf(a, key) <= VersionOf(b, key)
    ensures r.Success? && key == (coll, write.id) ==> VersionOf(a, key) < VersionOf(b, key)
  {
    if Admit(a, caller, coll, write, size).Success? {
      AdmittedOperationFits(a, caller, coll, write, size, b.lastId);
    }
  }

  lemma {:induction false} BatchRaisesVersion(served: seq<Db>, coll: nat, writes: seq<Write>, now: int, i: nat,
                                              key: DocKey)
    requires OneByOne(served, coll, writes, now) && i < |served|
    ensures VersionOf(served[0], key) <= VersionOf(served[i], key)
  {
    if i > 0 {
      BatchRaisesVersion(served, coll, writes, now, i - 1, key);
      var r: Result<Document, WriteError> :|
        r.Success? && Served(served[i - 1], served[i], OwnerRoute, coll, writes[i - 1], 0, now, r);
      ServedRaisesVersion(served[i - 1], served[i], OwnerRoute, coll, writes[i - 1], 0, now, r, key);
    }
  }

  /** No request lowers a version, and a committed single write raises the version of its document. */
  lemma StepRaisesVersion(a: Db, b: Db, request: Request, key: DocKey)
    requires Steps(a, b, request)
    ensures VersionOf(a, key) <= VersionOf(b, key)
    ensures request.DocumentRequest? && MayChange(request, key) ==> VersionOf(a, key) < VersionOf(b, key)
  {
    match request
    case DocumentRequest(caller, coll, write, size, now, answer) =>
      ServedRaisesVersion(a, b, caller, coll, write, size, now, answer, key);
    case BatchRequest(coll, writes, now, served) =>
      BatchRaisesVersion(served, coll, writes, now, |served| - 1, key);
    case SettingsRequest(entry) =>
    case CollectionRequest(name, owner, database) =>
  }

  lemma {:induction false} VersionsRise(run: seq<World>, events: seq<Event>, env: Env, j: nat, i: nat, key: DocKey)
    requires Run(run, events, env) && j <= i < |run|
    ensures VersionOf(run[j].db, key) <= VersionOf(run[i].db, key)
  {
    if j < i {
      VersionsRise(run, events, env, j, i - 1, key);
      assert StepAt(run, events, env, i - 1);
      if events[i - 1].WriteEvent? { StepRaisesVersion(run[i - 1].db, run[i].db, events[i - 1].request, key); }
    }
  }

  /** A write between two moments makes the later answer differ from the earlier one for good. */
  lemma WriteChangesAnswer(run: seq<World>, events: seq<Event>, env: Env, j: nat, k: nat, i: nat, c: nat, d: string)
    requires Run(run, events, env) && j <= k < i < |run|
    requires events[k].WriteEvent? && events[k].request.DocumentRequest? && MayChange(events[k].request, (c, d))
    requires Uncached(run[j].db, GetDoc(c, d), env.str).Some?
    ensures Uncached(run[i].db, GetDoc(c, d), env.str) != Uncached(run[j].db, GetDoc(c, d), env.str)
  {
    VersionsRise(run, events, env, j, k, (c, d));
    assert StepAt(run, events, env, k);
    StepRaisesVersion(run[k].db, run[k + 1].db, events[k].request, (c, d));
    VersionsRise(run, events, env, k + 1, i, (c, d));
  }

  /** STALENESS, exactly.  A cached document, filed at step `j`, is what the uncached route answers now
      if and only if no committed request since `j` changed it; and any that did was a publishable-key
      write. */
  lemma DocumentIsFreshIffUnwritten(run: seq<World>, events: seq<Event>, env: Env, i: nat, c: nat, d: string)
    returns (j: nat, e: Entry<Body>)
    requires Run(run, events, env) && i < |run|
    requires Hit(run[i].entries, Render(DocumentKey(c, d)), run[i].now).Some?
    ensures FiledAt(run, events, env, i, e, GetDoc(c, d), j) && run[i].now <= e.expiresAt
    ensures Answer(run[i], env, GetDoc(c, d)) == Some(e.value)
    ensures Answer(run[i], env, GetDoc(c, d)) == Uncached(run[i].db, GetDoc(c, d), env.str) <==>
            forall k | j <= k < i && events[k].WriteEvent? :: !MayChange(events[k].request, (c, d))
    ensures forall k | j <= k < i && events[k].WriteEvent? && MayChange(events[k].request, (c, d)) ::
              ByKey(events[k].request)
  {
    var read := GetDoc(c, d);
    DocumentsAndListsNeverCollide(events, i, env, read);
    j, e := HitIsFreshUnlessTouched(run, events, env, i, read);
    forall k | j <= k < i ensures Touches(events[k], read) <==>
                                  events[k].WriteEvent? && MayChange(events[k].request, (c, d)) { }
    if k :| j <= k < i && events[k].WriteEvent? && MayChange(events[k].request, (c, d)) {
      assert Touches(events[k], read);
      WriteChangesAnswer(run, events, env, j, k, i, c, d);
    }
  }

  // ---------------------------------------------------------------- bounded staleness

  /** BOUNDED STALENESS.  In every run, publishable-key writes included, an answer is one that the
      uncached route gives now or gave at a moment no longer ago than the read's TTL. */
  lemma AnswersAreRecent(run: seq<World>, events: seq<Event>, env: Env, i: nat, read: Read) returns (j: nat)
    requires Run(run, events, env) && i < |run| && NoCollision(events, i, env, read)
    ensures j <= i && (j == i || run[i].now - TtlOf(env, read) <= run[j].now)
    ensures Answer(run[i], env, read) == Uncached(run[j].db, read, env.str)
  {
    j := i;
    if Hit(run[i].entries, Render(KeyOf(env, read)), run[i].now).Some? {
      var e;
      j, e := HitWasFiled(run, events, env, i, read);
    }
  }

  // ---------------------------------------------------------------- on the real cache object

  /** Look the key up; on a miss, file the computed answer under its namespace. */
  method ReadOrFile(cache: Cache<Body>, key: string, ttl: real, tag: string, answer: Option<Body>, estimate: nat,
                    now: real)
    returns (r: Option<Body>)
    requires cache.Valid() && tag != ""
    modifies cache
    ensures cache.Valid()
    ensures r ==
      if old(cache.enabled) && Hit(old(cache.data), key, now).Some? then Hit(old(cache.data), key, now) else answer
    ensures cache.data ==
      if old(cache.enabled)
      then ReadThrough(old(cache.data), key, ttl, tag, answer, estimate, now,
                       old(cache.maxEntries), old(cache.maxBytes))
      else old(cache.data)
  {
    r := cache.Get(key, now);
    if r.None? {
      r := answer;
      if r.Some? {
        cache.Set(key, r.value, estimate, Some(ttl), Some(tag), now);
      }
    }
  }

  /** A cached read on the cache object; with the cache disabled it is the uncached read. */
  method CachedRead(cache: Cache<Body>, db: Db, env: Env, read: Read, estimate: nat, now: real)
    returns (r: Option<Body>)
    requires cache.Valid() && cache.maxEntries == env.maxEntries && cache.maxBytes == env.maxBytes
    modifies cache
    ensures cache.Valid()
    ensures r ==
      if old(cache.enabled) then Answer(World(db, old(cache.data), now), env, read) else Uncached(db, read, env.str)
    ensures cache.data ==
      if old(cache.enabled) then AfterRead(World(db, old(cache.data), now), env, read, estimate).entries
      else old(cache.data)
  {
    TagIsNotEmpty(KeyOf(env, read));
    r := ReadOrFile(cache, Render(KeyOf(env, read)), TtlOf(env, read), Tag(KeyOf(env, read)),
                    Uncached(db, read, env.str), estimate, now);
  }

  datatype ReadError = CollectionMissing | ReadDenied | DocumentMissing | NotComparable

  /** The refusal of a read before the cache is asked: the collection and the caller's access to it. */
  function Refusal(db: Db, caller: Caller, coll: nat): Option<ReadError> {
    if coll !in db.colls then Some(CollectionMissing)
    else if !CanAccess(db.colls[coll], caller, false, None) then Some(ReadDenied)
    else None
  }

  /** A whole read route of the owner or the by-id family: refused on the collection as it is now, whatever
      the cache holds, and otherwise answered from the cache. */
  method ReadRoute(cache: Cache<Body>, db: Db, env: Env, caller: Caller, read: Read, estimate: nat, now: real)
    returns (r: Result<Body, ReadError>)
    requires cache.Valid() && cache.maxEntries == env.maxEntries && cache.maxBytes == env.maxBytes
    requires !caller.KeyRoute?
    modifies cache
    ensures cache.Valid()
    ensures r == Failure(ReadDenied) <==>
            read.coll in db.colls && !Permits(db.colls[read.coll].config.read, db.colls[read.coll], caller)
    ensures Refusal(db, caller, read.coll).Some? ==>
              r == Failure(Refusal(db, caller, read.coll).value) && cache.data == old(cache.data)
    ensures Refusal(db, caller, read.coll).None? ==>
      var answer := if old(cache.enabled) then Answer(World(db, old(cache.data), now), env, read)
                    else Uncached(db, read, env.str);
      && r == (if answer.Some? then Success(answer.value)
               else Failure(if read.GetDoc? then DocumentMissing else NotComparable))
      && cache.data ==
         if old(cache.enabled) then AfterRead(World(db, old(cache.data), now), env, read, estimate).entries
         else old(cache.data)
  {
    if read.coll !in db.colls {
      return Failure(CollectionMissing);
    }
    AccessByRule(db.colls[read.coll], caller, false, None);
    if !CanAccess(db.colls[read.coll], caller, false, None) {
      return Failure(ReadDenied);
    }
    var body := CachedRead(cache, db, env, read, estimate, now);
    if body.None? {
      return Failure(if read.GetDoc? then DocumentMissing else NotComparable);
    }
    return Success(body.value);
  }

  lemma TagIsNotEmpty(k: Key)
    ensures Tag(k) != ""
  {
  }

  method InvalidateJsonDocument(cache: Cache<Body>, coll: nat, docId: string)
    requires cache.Valid()
    modifies cache
    ensures cache.Valid() && cache.data == InvalidateDocument(old(cache.data), coll, docId)
  {
    var _ := cache.Remove(Render(DocumentKey(coll, docId)));
    var _ := cache.DeletePrefix(Prefix("json_list", coll));
    var _ := cache.DeletePrefix(Prefix("json_query", coll));
  }
}
