/** Reachable states in which the code does not do what its documentation says: one run for each of the
    conditions that the other modules prove to be exact. */
module Witnesses {
  import opened Prelude
  import opened Sorting
  import opened OperationLog
  import opened JsonRoutes
  import opened Backup
  import opened Restore
  import opened RoundTrip
  import opened VersionNumbers
  import TtlCache
  import CacheKeys
  import CachedReads
  import Query
  import ReadsInFlight
  import StalePages

  // ---------------------------------------------------------------- a small database

  const NOTES := Collection("notes", 7, 1, DEFAULT_CONFIG)
  const DATA: Object := map["n" := Num(1.0)]
  const PATCH: Object := map["n" := Num(2.0)]

  function OpenOp(id: nat): Operation {
    Operation(id, 1, None, None, CollectionOp, CollectionPayload("notes"))
  }

  const CREATE_OP := Operation(2, 1, Some("a"), None, CreateOp, DataPayload(DATA))
  const PATCH_OP := Operation(3, 1, Some("a"), None, PatchOp, DataPayload(PATCH))

  /** One collection, created by operation `id`. */
  function Opened(id: nat): Db {
    Db(map[1 := NOTES], map[], map[], [], [OpenOp(id)], id, 1)
  }

  /** Then a document is created. */
  function Created(): Db {
    Db(map[1 := NOTES], map[(1, "a") := Document(DATA, 1, false, None)], map[(1, "a") := 0], [(1, "a")],
       [OpenOp(1), CREATE_OP], 2, 1)
  }

  /** Then it is patched. */
  function Patched(): Db {
    Db(map[1 := NOTES], map[(1, "a") := Document(DATA + PATCH, 2, false, None)], map[(1, "a") := 0], [(1, "a")],
       [OpenOp(1), CREATE_OP, PATCH_OP], 3, 1)
  }

  function OpenRequest(): Request {
    CollectionRequest("notes", 7, 1)
  }

  function CreateRequest(): Request {
    DocumentRequest(OwnerRoute, 1, CreateDoc("a", DATA), 0, 0, Success(Document(DATA, 1, false, None)))
  }

  function PatchRequest(caller: Caller): Request {
    DocumentRequest(caller, 1, PatchDoc("a", PATCH), 0, 0, Success(Document(DATA + PATCH, 2, false, None)))
  }

  lemma OpenStep(id: nat)
    requires id > 0
    ensures Steps(EMPTY_DB, Opened(id), OpenRequest())
  {
  }

  lemma CreateStep()
    ensures Steps(Opened(1), Created(), CreateRequest())
  {
    var before, after := Opened(1), Created();
    assert Admit(before, OwnerRoute, 1, CreateDoc("a", DATA), 0) == Success(CREATE_OP.(id := 0));
    Settle(before, after, OwnerRoute, 1, CreateDoc("a", DATA), 0, 0, Document(DATA, 1, false, None));
  }

  /** The owner may patch it through any route, a publishable key included. */
  lemma PatchStep(caller: Caller)
    requires caller == OwnerRoute || caller == KeyRoute(Some(7), None)
    ensures Steps(Created(), Patched(), PatchRequest(caller))
  {
    var before, after := Created(), Patched();
    assert Admit(before, caller, 1, PatchDoc("a", PATCH), 0) == Success(PATCH_OP.(id := 0));
    Settle(before, after, caller, 1, PatchDoc("a", PATCH), 0, 0, Document(DATA + PATCH, 2, false, None));
  }

  // ---------------------------------------------------------------- runs of the backup

  lemma RunGrows(run: seq<Site>, events: seq<Event>, t: Site, e: Event)
    requires BackupRun(run, events) && Next(Last(run), t, e)
    ensures BackupRun(run + [t], events + [e])
  {
    var longer, more := run + [t], events + [e];
    forall k | 0 <= k < |more| ensures Next(longer[k], longer[k + 1], more[k]) {
      if k < |events| { assert Next(run[k], run[k + 1], events[k]); }
    }
  }

  function SiteOf(db: Db, messages: seq<Message>, worker: Worker): Site {
    Site(db, 7, 0, [], messages, worker)
  }

  lemma RunStarts()
    ensures BackupRun([SiteOf(EMPTY_DB, [], Idle)], [])
  {
  }

  /** LAG.  One operation is pending and the reported lag is five: the ids before it went to other
      databases. */
  lemma LagCanExceedCount() returns (run: seq<Site>, events: seq<Event>)
    ensures BackupRun(run, events)
    ensures Lag(Last(run).db.log, Last(run).cursor) == 5 && |Pending(Last(run).db.log, Last(run).cursor)| == 1
  {
    RunStarts();
    OpenStep(5);
    run, events := [SiteOf(EMPTY_DB, [], Idle)], [];
    RunGrows(run, events, SiteOf(Opened(5), [], Idle), Write(OpenRequest()));
    run, events := run + [SiteOf(Opened(5), [], Idle)], events + [Write(OpenRequest())];
    assert Front([OpenOp(5)]) == [];
  }

  /** A build at cursor 0 takes the first `limit` operations. */
  lemma CutFromStart(db: Db, limit: nat) returns (g: Segment)
    requires Ascending(db.log) && db.log != [] && limit > 0 && Passed(db.log, 0) == 0
    ensures Cut(db, 0, limit) == Some(g)
    ensures |g.ops| == Min(limit, |db.log|) && g.first == db.log[0].id && g.last == db.log[|g.ops| - 1].id
  {
    CutExists(db, limit);
    g := Cut(db, 0, limit).value;
    CutLength(db, 0, limit, g);
  }

  lemma CutExists(db: Db, limit: nat)
    requires Ascending(db.log) && db.log != [] && limit > 0 && Passed(db.log, 0) == 0
    ensures Cut(db, 0, limit).Some?
  {
    RowsAreSlice(db.log, 0, limit);
    assert |Take(Pending(db.log, 0), limit)| == Min(limit, |db.log|);
  }

  lemma SmallLogs()
    ensures Ascending(Created().log) && Passed(Created().log, 0) == 0
    ensures Ascending(Patched().log) && Passed(Patched().log, 0) == 0
  {
    var one, two, three := [OpenOp(1)], Created().log, Patched().log;
    assert Front(one) == [] && Front(two) == one && Front(three) == two;
  }

  // ---------------------------------------------------------------- versions

  /** VERSIONS.  Two operations are uploaded, the worker crashes before the mark, a patch comes in, and all
      three are uploaded.  Both segments are kept, and the restored version is above the source's. */
  lemma OverlapRaisesVersion() returns (run: seq<Site>, events: seq<Event>, kept: seq<Message>, rep: Replica)
    ensures BackupRun(run, events) && Arrives(Last(run), Last(run).messages, kept)
    ensures RestoreInto(EMPTY_REPLICA, kept) == Success(rep)
    ensures (1, "a") in Last(run).db.docs && ("notes", "a") in rep.docs
    ensures rep.docs[("notes", "a")].version > Last(run).db.docs[(1, "a")].version
  {
    var one, two;
    run, events, one, two := OverlapRun();
    var s := Last(run);
    EveryRunKeepsInv(run, events, |run| - 1);
    kept := [one, two];
    OverlapKept(one, two);
    rep := RestoreReproducesSource(s, s.messages, kept);
    SmallLogs();
    CarriesAt(Created(), 10, one, 1);
    CarriesAt(Patched(), 10, two, 1);
    CarriesAt(Patched(), 10, two, 2);
    LastCoversAll(s);
    TwiceCarried(one, two, (1, "a"), CREATE_OP);
    VersionsMatchIffCarriedOnce(s, s.messages, kept, rep, (1, "a"));
  }

  lemma OverlapRun() returns (run: seq<Site>, events: seq<Event>, one: Message, two: Message)
    ensures BackupRun(run, events) && Last(run) == SiteOf(Patched(), [one, two], Sent(two))
    ensures one.id == 1 && one.owner == 7 && one.segment.first == 1 && one.segment.last == 2
    ensures two.id == 2 && two.owner == 7 && two.segment.first == 1 && two.segment.last == 3
    ensures Cut(Created(), 0, 10) == Some(one.segment) && |one.segment.ops| == 2
    ensures Cut(Patched(), 0, 10) == Some(two.segment) && |two.segment.ops| == 3
  {
    SmallLogs();
    var g := CutFromStart(Created(), 10);
    var h := CutFromStart(Patched(), 10);
    one, two := Message(1, 7, g), Message(2, 7, h);
    run, events := UploadTwo(one);
    run, events := UploadAgain(run, events, one, two);
    Pair(one, two);
  }

  lemma UploadAgain(run: seq<Site>, events: seq<Event>, one: Message, two: Message)
    returns (longer: seq<Site>, more: seq<Event>)
    requires BackupRun(run, events) && Last(run) == SiteOf(Patched(), [one], Idle)
    requires one.id == 1 && two == Message(2, 7, two.segment) && Cut(Patched(), 0, 10) == Some(two.segment)
    ensures BackupRun(longer, more) && Last(longer) == SiteOf(Patched(), [one] + [two], Sent(two))
  {
    longer, more := Extend(run, events, SiteOf(Patched(), [one], Built(two.segment)), Build(10));
    longer, more := Extend(longer, more, SiteOf(Patched(), [one] + [two], Sent(two)), Upload(2));
  }

  lemma Pair<T>(x: T, y: T)
    ensures [x] + [y] == [x, y]
  {
  }

  /** Open, create, build, upload, crash, patch. */
  lemma UploadTwo(one: Message) returns (run: seq<Site>, events: seq<Event>)
    requires one == Message(1, 7, one.segment) && Cut(Created(), 0, 10) == Some(one.segment)
    ensures BackupRun(run, events) && Last(run) == SiteOf(Patched(), [one], Idle)
  {
    RunStarts();
    OpenStep(1);
    CreateStep();
    PatchStep(OwnerRoute);
    run, events := [SiteOf(EMPTY_DB, [], Idle)], [];
    run, events := Extend(run, events, SiteOf(Opened(1), [], Idle), Write(OpenRequest()));
    run, events := Extend(run, events, SiteOf(Created(), [], Idle), Write(CreateRequest()));
    run, events := Extend(run, events, SiteOf(Created(), [], Built(one.segment)), Build(10));
    run, events := Extend(run, events, SiteOf(Created(), [one], Sent(one)), Upload(1));
    run, events := Extend(run, events, SiteOf(Created(), [one], Idle), Crash);
    run, events := Extend(run, events, SiteOf(Patched(), [one], Idle), Write(PatchRequest(OwnerRoute)));
  }

  lemma Extend(run: seq<Site>, events: seq<Event>, t: Site, e: Event) returns (longer: seq<Site>, more: seq<Event>)
    requires BackupRun(run, events) && Next(Last(run), t, e)
    ensures BackupRun(longer, more) && Last(longer) == t
  {
    RunGrows(run, events, t, e);
    longer, more := run + [t], events + [e];
  }

  lemma OverlapKept(one: Message, two: Message)
    requires RangeLess(RangeOf(one), RangeOf(two))
    ensures Deduped([one, two], [one, two])
  {
    assert Front([one, two]) == [one] && Front([one]) == [];
  }

  /** If the last operation is uploaded, all are. */
  lemma LastCoversAll(s: Site)
    requires BackupInv(s) && s.db.log != [] && Uploaded(s.messages, Last(s.db.log))
    ensures Reach(s.db.log, s.messages) == |s.db.log| && Covered(s) == s.db.log
  {
    UploadsCoverPrefix(s);
    AscendingIdsIncrease(s.db.log);
    LastInPrefix(s.db.log, Reach(s.db.log, s.messages));
  }

  lemma LastInPrefix(log: seq<Operation>, n: nat)
    requires IdsIncrease(log) && log != [] && n <= |log| && Last(log) in log[..n]
    ensures n == |log| && log[..n] == log
  {
    var k :| 0 <= k < |log[..n]| && log[..n][k] == Last(log);
    assert log[k].id == log[|log| - 1].id;
  }

  lemma CarriesAt(db: Db, limit: nat, m: Message, k: nat)
    requires Ascending(db.log) && Passed(db.log, 0) == 0
    requires Cut(db, 0, limit) == Some(m.segment) && k < |m.segment.ops| && k < |db.log|
    ensures Backup.Carries(m, db.log[k])
  {
    CutAt(db, 0, limit, m.segment, k);
  }

  lemma TwiceCarried(one: Message, two: Message, key: DocKey, op: Operation)
    requires Backup.Carries(one, op) && Backup.Carries(two, op) && Concerns(op, key)
    ensures !CarriedOnce([one, two], key)
  {
    assert Front([one, two]) == [one] && one in [one];
    CarriedMembers([one], key, op);
    CarriesIsIn(two, op);
    TouchingMembers(Ops(two.segment.ops), key, op);
  }

  // ---------------------------------------------------------------- settings

  const RULES_OP := Operation(2, 1, None, None, RulesOp, RulesPayload(PublicRule, OwnerRule))

  /** The collection is made public before anything is uploaded. */
  function MadePublic(): Db {
    Db(map[1 := Collection("notes", 7, 1, Config(PublicRule, OwnerRule, None))], map[], map[], [],
       [OpenOp(1), RULES_OP], 2, 1)
  }

  lemma PublicStep()
    ensures Steps(Opened(1), MadePublic(), SettingsRequest(RULES_OP.(id := 0)))
  {
    assert Opened(1).colls[1 := Collection("notes", 7, 1, Config(PublicRule, OwnerRule, None))] == MadePublic().colls;
    assert Opened(1).log + [RULES_OP] == MadePublic().log;
    assert Commit(Opened(1), RULES_OP.(id := 0), 2, 0) == Success(MadePublic());
  }

  /** SETTINGS.  Only the operation that creates the collection is uploaded, and the restore already makes
      the collection public: the rules run ahead of the restored operations. */
  lemma SettingsCanRunAhead() returns (run: seq<Site>, events: seq<Event>, kept: seq<Message>, rep: Replica)
    ensures BackupRun(run, events) && Arrives(Last(run), Last(run).messages, kept)
    ensures RestoreInto(EMPTY_REPLICA, kept) == Success(rep) && "notes" in rep.colls
    ensures Reach(Last(run).db.log, Last(run).messages) <= |Last(run).db.log|
    ensures rep.colls["notes"].read == PublicRule
    ensures ConfigAfter(DEFAULT_CONFIG, Covered(Last(run)), 1).read == OwnerRule
  {
    var m, raw := FirstUpload();
    run, events := UploadOne(m);
    kept := [m];
    OneKept(m);
    CoversOne(Last(run), m);
    rep := RestoreOne(m, raw);
  }

  lemma OneKept(m: Message)
    ensures Deduped([m], [m])
  {
    assert Front([m]) == [];
  }

  lemma FirstUpload() returns (m: Message, raw: Carried)
    ensures m.id == 1 && m.owner == 7 && Cut(MadePublic(), 0, 1) == Some(m.segment)
    ensures m.segment.last == 1 && m.segment.ops == [raw]
    ensures raw.op == OpenOp(1) && raw.coll == Snapshot(1, "notes", Config(PublicRule, OwnerRule, None))
  {
    var log := MadePublic().log;
    assert Front(log) == [OpenOp(1)] && Front([OpenOp(1)]) == [];
    var g := CutFromStart(MadePublic(), 1);
    CutAt(MadePublic(), 0, 1, g, 0);
    m, raw := Message(1, 7, g), g.ops[0];
  }

  lemma UploadOne(m: Message) returns (run: seq<Site>, events: seq<Event>)
    requires m == Message(1, 7, m.segment) && Cut(MadePublic(), 0, 1) == Some(m.segment)
    ensures BackupRun(run, events) && Last(run) == SiteOf(MadePublic(), [m], Sent(m))
  {
    RunStarts();
    OpenStep(1);
    PublicStep();
    run, events := [SiteOf(EMPTY_DB, [], Idle)], [];
    run, events := Extend(run, events, SiteOf(Opened(1), [], Idle), Write(OpenRequest()));
    run, events := Extend(run, events, SiteOf(MadePublic(), [], Idle), Write(SettingsRequest(RULES_OP.(id := 0))));
    run, events := Extend(run, events, SiteOf(MadePublic(), [], Built(m.segment)), Build(1));
    run, events := Extend(run, events, SiteOf(MadePublic(), [m], Sent(m)), Upload(1));
  }

  lemma CoversOne(s: Site, m: Message)
    requires s.db == MadePublic() && s.messages == [m] && m.segment.last == 1
    ensures Reach(s.db.log, s.messages) == 1 && ConfigAfter(DEFAULT_CONFIG, Covered(s), 1) == DEFAULT_CONFIG
  {
    var log := s.db.log;
    assert Front(log) == [OpenOp(1)] && Front([OpenOp(1)]) == [] && Front([m]) == [];
    assert log[..1] == [OpenOp(1)];
    assert Passed([OpenOp(1)], 1) == 1 && Passed(log, 1) == 1;
  }

  lemma RestoreOne(m: Message, raw: Carried) returns (rep: Replica)
    requires m.segment.ops == [raw] && raw.op == OpenOp(1)
    requires raw.coll == Snapshot(1, "notes", Config(PublicRule, OwnerRule, None))
    ensures RestoreInto(EMPTY_REPLICA, [m]) == Success(rep) && "notes" in rep.colls
    ensures rep.colls["notes"].read == PublicRule
  {
    assert Front([m]) == [] && Flatten([m]) == [raw];
    assert Front([raw]) == [] && StableSort([raw], OpIdLe) == [raw];
    assert ReplayAll(Session(map[], EMPTY_REPLICA), [raw]) == ReplayCarried(Session(map[], EMPTY_REPLICA), raw);
    rep := RestoreInto(EMPTY_REPLICA, [m]).value;
  }

  // ---------------------------------------------------------------- a stale read

  function WorldOf(db: Db, entries: seq<TtlCache.Entry<CachedReads.Body>>): CachedReads.World {
    CachedReads.World(db, entries, 0.0)
  }

  const READ := CachedReads.GetDoc(1, "a")
  const LIST := CachedReads.ListDocs(1, 10, 0)
  const QUERY := CachedReads.QueryDocs(1, Query.QuerySpec([], None, false, 10, 0))

  /** The document as it was created. */
  const ROW := Query.Row("a", Document(DATA, 1, false, None), 0)
  const PAGE := Query.Page([ROW], 1, 10, 0)

  /** There is room for one entry, and entries live for some time. */
  predicate RoomFor(env: CachedReads.Env, read: CachedReads.Read) {
    && CachedReads.TtlOf(env, read) > 0.0 && env.maxEntries >= 1
    && env.maxBytes >= |CacheKeys.Render(CachedReads.KeyOf(env, read))|
  }

  /** STALE READS.  Read, patch through a publishable key, read again: with any positive TTL and room for one
      entry, the second read answers the old document. */
  lemma KeyWriteLeavesStaleRead(env: CachedReads.Env)
    returns (run: seq<CachedReads.World>, events: seq<CachedReads.Event>)
    requires RoomFor(env, READ)
    ensures CachedReads.Run(run, events, env) && run[0].db == EMPTY_DB
    ensures CachedReads.Uncached(Last(run).db, READ, env.str).Some?
    ensures CachedReads.Answer(Last(run), env, READ) != CachedReads.Uncached(Last(run).db, READ, env.str)
  {
    var e := FirstAnswer(env, READ, CachedReads.DocumentBody(ROW));
    run, events := StaleRun(env, READ, e);
    OneEntryHits(e, 0.0);
    var j, f := CachedReads.DocumentIsFreshIffUnwritten(run, events, env, 4, 1, "a");
    assert events[j].ReadEvent?;
    assert events[3].WriteEvent? && CachedReads.MayChange(events[3].request, (1, "a"));
  }

  /** The same of a list and of a query: the second one still shows the document as it was. */
  lemma KeyWriteLeavesStalePage(env: CachedReads.Env, read: CachedReads.Read)
    returns (run: seq<CachedReads.World>, events: seq<CachedReads.Event>)
    requires (read == LIST || read == QUERY) && RoomFor(env, read)
    ensures CachedReads.Run(run, events, env) && run[0].db == EMPTY_DB
    ensures CachedReads.Answer(Last(run), env, read) == Some(CachedReads.PageBody(PAGE))
    ensures CachedReads.Answer(Last(run), env, read) != CachedReads.Uncached(Last(run).db, read, env.str)
  {
    CreatedPage(read, env.str);
    PatchedPage(read, env.str);
    var e := FirstAnswer(env, read, CachedReads.PageBody(PAGE));
    run, events := StaleRun(env, read, e);
    OneEntryHits(e, 0.0);
  }

  /** After the patch, no page shows the document as it was created. */
  lemma PatchedPage(read: CachedReads.Read, str: Json -> string)
    requires !read.GetDoc? && read.coll == 1
    ensures !StalePages.Pages(Patched(), read, str, PAGE)
  {
    if StalePages.Pages(Patched(), read, str, PAGE) {
      assert ROW in PAGE.items;
      StalePages.ShownIsAnswered(Patched(), read, str, PAGE, ROW);
    }
  }

  /** What the list and the query show once the document is created. */
  lemma CreatedPage(read: CachedReads.Read, str: Json -> string)
    requires read == LIST || read == QUERY
    ensures StalePages.Pages(Created(), read, str, PAGE)
  {
    CreatedRows();
    OneRowListed(ROW);
    OneRowSliced(ROW, 10);
    if read == QUERY { OneRowMatched(ROW, read.query.where, str); }
  }

  lemma CreatedRows()
    ensures CachedReads.Rows(Created(), 1) == [ROW]
  {
    assert Front(Created().order) == [];
  }

  lemma OneRowListed(r: Query.Row)
    requires !r.doc.deleted
    ensures Query.Listing([r]) == [r]
  {
    FilterOne(r, (x: Query.Row) => !x.doc.deleted);
    ReversedOne(r);
    SortOne(r, Query.NewerFirst);
  }

  lemma FilterOne<T>(x: T, keep: T -> bool)
    ensures Filter([x], keep) == if keep(x) then [x] else []
  {
    assert Front([x]) == [];
  }

  lemma ReversedOne<T>(x: T)
    ensures Query.Reversed([x]) == [x]
  {
    assert Front([x]) == [];
  }

  lemma SortOne<T>(x: T, le: (T, T) -> bool)
    ensures StableSort([x], le) == [x]
  {
    assert Front([x]) == [];
  }

  lemma OneRowSliced(r: Query.Row, limit: nat)
    requires limit > 0
    ensures Query.Slice([r], 0, limit) == [r]
  {
  }

  lemma OneRowMatched(r: Query.Row, where: seq<Query.Where>, str: Json -> string)
    requires where == []
    ensures Query.Matched([r], where, str) == [r]
  {
    FilterOne(r, (x: Query.Row) => Query.Matches(x, where, str));
  }

  /** A single entry is hit until it expires. */
  lemma OneEntryHits<V>(e: TtlCache.Entry<V>, now: real)
    requires now <= e.expiresAt
    ensures TtlCache.Hit([e], e.key, now) == Some(e.value)
  {
    assert Front([e]) == [];
  }

  lemma FilledRun(env: CachedReads.Env, read: CachedReads.Read, e: TtlCache.Entry<CachedReads.Body>)
    returns (run: seq<CachedReads.World>, events: seq<CachedReads.Event>)
    requires CachedReads.AfterRead(WorldOf(Created(), []), env, read, 0) == WorldOf(Created(), [e])
    ensures CachedReads.Run(run, events, env) && |run| == 4
    ensures run[0].db == EMPTY_DB && run[3] == WorldOf(Created(), [e])
    ensures events == [CachedReads.WriteEvent(OpenRequest()), CachedReads.WriteEvent(CreateRequest()),
                       CachedReads.ReadEvent(read, 0)]
  {
    run, events := WrittenRun(env);
    run, events := OneMore(run, events, env, WorldOf(Created(), []), WorldOf(Created(), [e]),
                           CachedReads.ReadEvent(read, 0));
  }

  lemma StaleRun(env: CachedReads.Env, read: CachedReads.Read, e: TtlCache.Entry<CachedReads.Body>)
    returns (run: seq<CachedReads.World>, events: seq<CachedReads.Event>)
    requires CachedReads.AfterRead(WorldOf(Created(), []), env, read, 0) == WorldOf(Created(), [e])
    ensures CachedReads.Run(run, events, env) && |run| == 5
    ensures run[0].db == EMPTY_DB && run[3] == WorldOf(Created(), [e]) && run[4] == WorldOf(Patched(), [e])
    ensures events == [CachedReads.WriteEvent(OpenRequest()), CachedReads.WriteEvent(CreateRequest()),
                       CachedReads.ReadEvent(read, 0), CachedReads.WriteEvent(PatchRequest(KeyRoute(Some(7), None)))]
  {
    KeyPatchNext(env, e);
    run, events := FilledRun(env, read, e);
    run, events := OneMore(run, events, env, WorldOf(Created(), [e]), WorldOf(Patched(), [e]),
                           CachedReads.WriteEvent(PatchRequest(KeyRoute(Some(7), None))));
  }

  /** A patch through a publishable key leaves the entry where it is. */
  lemma KeyPatchNext(env: CachedReads.Env, e: TtlCache.Entry<CachedReads.Body>)
    ensures CachedReads.Next(WorldOf(Created(), [e]), WorldOf(Patched(), [e]),
                             CachedReads.WriteEvent(PatchRequest(KeyRoute(Some(7), None))), env)
  {
    PatchStep(KeyRoute(Some(7), None));
  }

  lemma WrittenRun(env: CachedReads.Env) returns (run: seq<CachedReads.World>, events: seq<CachedReads.Event>)
    ensures CachedReads.Run(run, events, env) && |run| == 3
    ensures run[0].db == EMPTY_DB && run[2] == WorldOf(Created(), [])
    ensures events == [CachedReads.WriteEvent(OpenRequest()), CachedReads.WriteEvent(CreateRequest())]
  {
    OpenStep(1);
    CreateStep();
    run, events := [WorldOf(EMPTY_DB, [])], [];
    run, events := OneMore(run, events, env, WorldOf(EMPTY_DB, []), WorldOf(Opened(1), []),
                           CachedReads.WriteEvent(OpenRequest()));
    run, events := OneMore(run, events, env, WorldOf(Opened(1), []), WorldOf(Created(), []),
                           CachedReads.WriteEvent(CreateRequest()));
  }

  lemma OneMore(run: seq<CachedReads.World>, events: seq<CachedReads.Event>, env: CachedReads.Env,
                before: CachedReads.World, w: CachedReads.World, e: CachedReads.Event)
    returns (longer: seq<CachedReads.World>, more: seq<CachedReads.Event>)
    requires CachedReads.Run(run, events, env) && before == Last(run) && CachedReads.Next(before, w, e, env)
    ensures longer == run + [w] && more == events + [e] && CachedReads.Run(longer, more, env)
  {
    longer, more := run + [w], events + [e];
    forall k | 0 <= k < |more| ensures CachedReads.StepAt(longer, more, env, k) {
      if k < |events| {
        SameStep(run, events, env, longer, more, k);
      } else {
        assert longer[k] == before && longer[k + 1] == w && more[k] == e;
        NewStep(longer, more, env, k);
      }
    }
  }

  lemma NewStep(run: seq<CachedReads.World>, events: seq<CachedReads.Event>, env: CachedReads.Env, k: nat)
    requires |run| == |events| + 1 && k < |events| && CachedReads.Next(run[k], run[k + 1], events[k], env)
    ensures CachedReads.StepAt(run, events, env, k)
  {
  }

  lemma SameStep(run: seq<CachedReads.World>, events: seq<CachedReads.Event>, env: CachedReads.Env,
                 longer: seq<CachedReads.World>, more: seq<CachedReads.Event>, k: nat)
    requires CachedReads.Run(run, events, env) && |longer| == |more| + 1 && run <= longer && events <= more
    requires k < |events|
    ensures CachedReads.StepAt(longer, more, env, k)
  {
    assert CachedReads.StepAt(run, events, env, k);
  }

  /** What the first read files. */
  lemma FirstAnswer(env: CachedReads.Env, read: CachedReads.Read, body: CachedReads.Body)
    returns (e: TtlCache.Entry<CachedReads.Body>)
    requires RoomFor(env, read) && CachedReads.Uncached(Created(), read, env.str) == Some(body)
    ensures e.key == CacheKeys.Render(CachedReads.KeyOf(env, read)) && e.value == body && e.expiresAt > 0.0
    ensures CachedReads.AfterRead(WorldOf(Created(), []), env, read, 0) == WorldOf(Created(), [e])
  {
    var key := CacheKeys.Render(CachedReads.KeyOf(env, read));
    var tag := CacheKeys.Tag(CachedReads.KeyOf(env, read));
    e := TtlCache.Entry(key, body, 0.0 + CachedReads.TtlOf(env, read), 0 + |key|, tag);
    NothingToGet<CachedReads.Body>(key);
    FirstEntry(e, env.maxEntries, env.maxBytes);
  }

  lemma NothingToGet<V>(key: string)
    ensures TtlCache.Hit<V>([], key, 0.0).None? && TtlCache.AfterGet<V>([], key, 0.0) == []
  {
  }

  lemma SizeOfOne<V>(e: TtlCache.Entry<V>)
    ensures TtlCache.TotalSize([e]) == e.size
  {
    assert Front([e]) == [];
  }

  lemma FirstEntry<V>(e: TtlCache.Entry<V>, maxEntries: int, maxBytes: int)
    requires maxEntries >= 1 && e.size <= maxBytes
    ensures TtlCache.AfterSet([], e, maxEntries, maxBytes) == [e]
  {
    SizeOfOne(e);
    var all := TtlCache.Without([], e.key) + [e];
    assert all == [e];
    assert TtlCache.Fits(all, maxEntries, maxBytes);
  }

  // ---------------------------------------------------------------- a read that was in flight

  function SceneOf(db: Db, flights: seq<ReadsInFlight.Flight>, due: seq<ReadsInFlight.Due>): ReadsInFlight.Scene {
    ReadsInFlight.Scene(db, [], 0.0, flights, due)
  }

  predicate NoKeyWrites(actions: seq<ReadsInFlight.Action>) {
    forall k | 0 <= k < |actions| && actions[k].CommitWrite? :: !CachedReads.ByKey(actions[k].request)
  }

  ghost predicate OwnersOnly(run: seq<ReadsInFlight.Scene>, actions: seq<ReadsInFlight.Action>, env: CachedReads.Env) {
    ReadsInFlight.Interleaving(run, actions, env) && run[0].db == EMPTY_DB && NoKeyWrites(actions)
  }

  lemma Then(run: seq<ReadsInFlight.Scene>, actions: seq<ReadsInFlight.Action>, env: CachedReads.Env,
             w: ReadsInFlight.Scene, a: ReadsInFlight.Action)
    returns (longer: seq<ReadsInFlight.Scene>, more: seq<ReadsInFlight.Action>)
    requires OwnersOnly(run, actions, env) && ReadsInFlight.Follows(Last(run), w, a, env)
    requires a.CommitWrite? ==> !CachedReads.ByKey(a.request)
    ensures OwnersOnly(longer, more, env) && Last(longer) == w
  {
    ReadsInFlight.StretchGrows(run, actions, env, w, a);
    longer, more := run + [w], actions + [a];
  }

  /** An owner's write, with its invalidation right behind it. */
  lemma ThenWrite(run: seq<ReadsInFlight.Scene>, actions: seq<ReadsInFlight.Action>, env: CachedReads.Env, db: Db,
                  request: Request)
    returns (longer: seq<ReadsInFlight.Scene>, more: seq<ReadsInFlight.Action>)
    requires OwnersOnly(run, actions, env) && !CachedReads.ByKey(request)
    requires Last(run) == SceneOf(Last(run).db, Last(run).flights, []) && Steps(Last(run).db, db, request)
    ensures OwnersOnly(longer, more, env) && Last(longer) == SceneOf(db, Last(run).flights, [])
  {
    var due := ReadsInFlight.Due(request, db);
    longer, more := Then(run, actions, env, SceneOf(db, Last(run).flights, [due]), ReadsInFlight.CommitWrite(request));
    longer, more := Then(longer, more, env, SceneOf(db, Last(run).flights, []), ReadsInFlight.Invalidate(0));
  }

  /** IN FLIGHT.  A read computes its answer, the owner patches the document and invalidates, and then the read
      files what it computed: the next read answers the old document, with no publishable key involved. */
  lemma OwnerWriteCanLeaveStaleRead(env: CachedReads.Env)
    returns (run: seq<ReadsInFlight.Scene>, actions: seq<ReadsInFlight.Action>)
    requires RoomFor(env, READ)
    ensures ReadsInFlight.Interleaving(run, actions, env) && run[0].db == EMPTY_DB && NoKeyWrites(actions)
    ensures Last(run).due == [] && CachedReads.Uncached(Last(run).db, READ, env.str).Some?
    ensures
      var hit := TtlCache.Hit(Last(run).entries, CacheKeys.Render(CachedReads.KeyOf(env, READ)), Last(run).now);
      hit.Some? && hit != CachedReads.Uncached(Last(run).db, READ, env.str)
  {
    OpenStep(1);
    CreateStep();
    PatchStep(OwnerRoute);
    run, actions := [SceneOf(EMPTY_DB, [], [])], [];
    run, actions := ThenWrite(run, actions, env, Opened(1), OpenRequest());
    run, actions := ThenWrite(run, actions, env, Created(), CreateRequest());
    run, actions := ThenRead(run, actions, env);
    run, actions := ThenWrite(run, actions, env, Patched(), PatchRequest(OwnerRoute));
    run, actions := ThenFile(run, actions, env);
  }

  lemma ThenRead(run: seq<ReadsInFlight.Scene>, actions: seq<ReadsInFlight.Action>, env: CachedReads.Env)
    returns (longer: seq<ReadsInFlight.Scene>, more: seq<ReadsInFlight.Action>)
    requires OwnersOnly(run, actions, env) && Last(run) == SceneOf(Created(), [], [])
    ensures OwnersOnly(longer, more, env)
    ensures Last(longer) == SceneOf(Created(), [ReadsInFlight.Computed(READ, CachedReads.DocumentBody(ROW))], [])
  {
    NothingToGet<CachedReads.Body>(CacheKeys.Render(CachedReads.KeyOf(env, READ)));
    longer, more := Then(run, actions, env, SceneOf(Created(), [ReadsInFlight.Asked(READ)], []),
                         ReadsInFlight.Look(READ));
    longer, more := Then(longer, more, env,
                         SceneOf(Created(), [ReadsInFlight.Computed(READ, CachedReads.DocumentBody(ROW))], []),
                         ReadsInFlight.Compute(0));
  }

  lemma ThenFile(run: seq<ReadsInFlight.Scene>, actions: seq<ReadsInFlight.Action>, env: CachedReads.Env)
    returns (longer: seq<ReadsInFlight.Scene>, more: seq<ReadsInFlight.Action>)
    requires OwnersOnly(run, actions, env) && RoomFor(env, READ)
    requires Last(run) == SceneOf(Patched(), [ReadsInFlight.Computed(READ, CachedReads.DocumentBody(ROW))], [])
    ensures OwnersOnly(longer, more, env) && Last(longer).db == Patched() && Last(longer).due == []
    ensures TtlCache.Hit(Last(longer).entries, CacheKeys.Render(CachedReads.KeyOf(env, READ)), Last(longer).now) ==
            Some(CachedReads.DocumentBody(ROW))
  {
    var e := ReadsInFlight.EntryFor(env, READ, CachedReads.DocumentBody(ROW), 0, 0.0);
    FirstEntry(e, env.maxEntries, env.maxBytes);
    OneEntryHits(e, 0.0);
    longer, more := Then(run, actions, env, SceneOf(Patched(), [], []).(entries := [e]), ReadsInFlight.File(0, 0));
  }
}
