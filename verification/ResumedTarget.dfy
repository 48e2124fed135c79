/** A restored database goes on as a source: it takes writes of its own and is backed up in turn.  Its cursor,
    log and segment records are as the restore left them, overlapping ranges included. */
module ResumedTarget {
  import opened Prelude
  import opened OperationLog
  import opened JsonRoutes
  import opened Backup
  import opened Restore
  import opened RoundTrip
  import opened RestoreAgain

  /** The target's log holds the restored rows, each under its id, in collections of the target's own. */
  ghost predicate LogIsRestored(db: Db, log: map<nat, LoggedRow>) {
    && (forall op | op in db.log ::
          op.coll in db.colls && op.id in log && log[op.id] == RowFor(db.colls[op.coll].name, op))
    && (forall id | id in log :: HasId(db.log, id))
  }

  /** A database with the replica's documents, log, records and cursor, its worker idle and its chat empty. */
  ghost predicate Resumes(rep: Replica, t: Site) {
    && Ascending(t.db.log) && HighestId(t.db.log) <= t.db.lastId && DistinctNames(t.db.colls)
    && LogIsRestored(t.db, rep.log) && Mirrors(t.db.colls, t.db.docs, rep.docs)
    && t.marks == rep.marks && rep.cursor == Some(t.cursor)
    && t.messages == [] && t.worker.Idle?
  }

  ghost predicate Continues(run: seq<Site>, events: seq<Event>) {
    |run| == |events| + 1 && forall k | 0 <= k < |events| :: Next(run[k], run[k + 1], events[k])
  }

  // ---------------------------------------------------------------- the same ids in the same places

  lemma {:induction false} HasIdAt(ops: seq<Operation>, id: nat) returns (k: nat)
    requires HasId(ops, id)
    ensures k < |ops| && ops[k].id == id
  {
    if HasId(Front(ops), id) { k := HasIdAt(Front(ops), id); } else { k := |ops| - 1; }
  }

  lemma HighestIsLast(ops: seq<Operation>, id: nat)
    requires Ascending(ops) && HasId(ops, id)
    ensures id <= HighestId(ops) && (id < HighestId(ops) ==> HasId(Front(ops), id))
  {
    AscendingIdsIncrease(ops);
    var k := HasIdAt(ops, id);
  }

  lemma LastIsHighest(ops: seq<Operation>)
    requires Ascending(ops) && ops != []
    ensures HasId(ops, HighestId(ops)) && !HasId(Front(ops), HighestId(ops))
  {
    if HasId(Front(ops), HighestId(ops)) { HighestIsLast(Front(ops), HighestId(ops)); }
  }

  lemma {:induction false} SameIdsSamePlaces(a: seq<Operation>, b: seq<Operation>)
    requires Ascending(a) && Ascending(b) && forall id :: HasId(a, id) <==> HasId(b, id)
    ensures |a| == |b| && forall k | 0 <= k < |a| :: a[k].id == b[k].id
  {
    if a == [] || b == [] {
      if a != [] { LastIsHighest(a); }
      if b != [] { LastIsHighest(b); }
    } else {
      LastIsHighest(a);
      LastIsHighest(b);
      HighestIsLast(a, HighestId(b));
      HighestIsLast(b, HighestId(a));
      forall id ensures HasId(Front(a), id) <==> HasId(Front(b), id) {
        if HasId(Front(a), id) { HighestIsLast(b, id); }
        if HasId(Front(b), id) { HighestIsLast(a, id); }
      }
      SameIdsSamePlaces(Front(a), Front(b));
    }
  }

  // ---------------------------------------------------------------- the log replays to the rows

  /** The same operations, on collections that have other ids and the same names. */
  ghost predicate Renamed(colls: map<nat, Collection>, ops: seq<Operation>, colls': map<nat, Collection>,
                          ops': seq<Operation>)
  {
    |ops| == |ops'| && forall k | 0 <= k < |ops| :: RenamedAt(colls, ops[k], colls', ops'[k])
  }

  predicate RenamedAt(colls: map<nat, Collection>, op: Operation, colls': map<nat, Collection>, op': Operation) {
    && op.coll in colls && op'.coll in colls' && colls'[op'.coll].name == colls[op.coll].name
    && op' == op.(coll := op'.coll)
  }

  lemma RestoredIsRenamed(db: Db, covered: seq<Operation>, log: map<nat, LoggedRow>, after: Db)
    requires Ascending(covered) && LogIs(db, covered, log)
    requires Ascending(after.log) && LogIsRestored(after, log)
    ensures Renamed(db.colls, covered, after.colls, after.log)
  {
    forall id ensures HasId(covered, id) <==> HasId(after.log, id) {
      if HasId(covered, id) { var op := HasIdOf(covered, id); }
      if HasId(after.log, id) { var op := HasIdOf(after.log, id); }
    }
    SameIdsSamePlaces(covered, after.log);
    forall k | 0 <= k < |covered| ensures RenamedAt(db.colls, covered[k], after.colls, after.log[k]) {
      assert covered[k] in covered && after.log[k] in after.log;
    }
  }

  lemma CollectionIdIsIrrelevant(named: map<NamedKey, Document>, name: string, op: Operation, op': Operation)
    requires op' == op.(coll := op'.coll)
    ensures ReplayNamed(named, name, op) == ReplayNamed(named, name, op')
  {
  }

  lemma NamedSucceeds(colls: map<nat, Collection>, docs: Documents, op: Operation, named: map<NamedKey, Document>)
    requires DistinctNames(colls) && Mirrors(colls, docs, named) && op.coll in colls
    requires ReplayNamed(named, colls[op.coll].name, op).Success?
    ensures ReplayOne(docs, op).Success?
  {
    if op.docId.Some? { MirrorLookup(colls, docs, named, (op.coll, op.docId.value)); }
  }

  lemma RenamedStep(colls: map<nat, Collection>, docs: Documents, op: Operation, colls': map<nat, Collection>,
                    docs': Documents, op': Operation, named: map<NamedKey, Document>)
    requires DistinctNames(colls) && DistinctNames(colls') && RenamedAt(colls, op, colls', op')
    requires Mirrors(colls, docs, named) && Mirrors(colls', docs', named) && ReplayOne(docs, op).Success?
    ensures ReplayOne(docs', op').Success? && ReplayNamed(named, colls[op.coll].name, op).Success?
    ensures Mirrors(colls, ReplayOne(docs, op).value, ReplayNamed(named, colls[op.coll].name, op).value)
    ensures Mirrors(colls', ReplayOne(docs', op').value, ReplayNamed(named, colls[op.coll].name, op).value)
  {
    MirrorStep(colls, docs, named, op);
    CollectionIdIsIrrelevant(named, colls[op.coll].name, op, op');
    NamedSucceeds(colls', docs', op', named);
    MirrorStep(colls', docs', named, op');
  }

  lemma {:induction false} RenamedReplays(colls: map<nat, Collection>, ops: seq<Operation>,
                                          colls': map<nat, Collection>, ops': seq<Operation>)
    returns (named: map<NamedKey, Document>)
    requires DistinctNames(colls) && DistinctNames(colls') && Renamed(colls, ops, colls', ops')
    requires Replay(map[], ops).Success?
    ensures Replay(map[], ops').Success?
    ensures Mirrors(colls, Replay(map[], ops).value, named) && Mirrors(colls', Replay(map[], ops').value, named)
  {
    if ops == [] {
      named := map[];
    } else {
      var before := RenamedReplays(colls, Front(ops), colls', Front(ops'));
      var op, op' := Last(ops), Last(ops');
      assert RenamedAt(colls, op, colls', op');
      RenamedStep(colls, Replay(map[], Front(ops)).value, op, colls', Replay(map[], Front(ops')).value, op', before);
      named := ReplayNamed(before, colls[op.coll].name, op).value;
    }
  }

  /** The rows are what the log replays to, but for the versions. */
  ghost predicate RowsMatchLog(db: Db) {
    Replay(map[], db.log).Success? && SameContent(Replay(map[], db.log).value, db.docs)
  }

  lemma NamedHasKey(colls: map<nat, Collection>, docs: Documents, named: map<NamedKey, Document>, name: NamedKey)
    returns (key: DocKey)
    requires Mirrors(colls, docs, named) && name in named
    ensures key in docs && key.0 in colls && NameKey(colls, key) == name && named[name] == docs[key]
  {
    key :| key in docs && key.0 in colls && NameKey(colls, key) == name;
  }

  lemma ContentHasKey(colls: map<nat, Collection>, docs: Documents, restored: map<NamedKey, Document>, name: NamedKey)
    returns (key: DocKey)
    requires MirrorsContent(colls, docs, restored) && name in restored
    ensures key in docs && key.0 in colls && NameKey(colls, key) == name
  {
    key :| key in docs && key.0 in colls && NameKey(colls, key) == name;
  }

  lemma NameOfKey(colls: map<nat, Collection>, docs: Documents, named: map<NamedKey, Document>,
                  restored: map<NamedKey, Document>, key: DocKey)
    requires Mirrors(colls, docs, named) && MirrorsContent(colls, docs, restored) && key in docs
    ensures key.0 in colls && NameKey(colls, key) in named && NameKey(colls, key) in restored
    ensures SameDocument(named[NameKey(colls, key)], restored[NameKey(colls, key)])
  {
  }

  /** Both replicas hold the documents, one of them but for the versions: so they hold the same. */
  lemma ContentByName(colls: map<nat, Collection>, docs: Documents, named: map<NamedKey, Document>,
                      restored: map<NamedKey, Document>, name: NamedKey)
    requires Mirrors(colls, docs, named) && MirrorsContent(colls, docs, restored)
    ensures name in named <==> name in restored
    ensures name in named && name in restored ==> SameDocument(named[name], restored[name])
  {
    if name in named {
      var key := NamedHasKey(colls, docs, named, name);
      NameOfKey(colls, docs, named, restored, key);
    } else if name in restored {
      var key := ContentHasKey(colls, docs, restored, name);
      NameOfKey(colls, docs, named, restored, key);
    }
  }

  lemma RowByName(colls: map<nat, Collection>, docs: Documents, named: map<NamedKey, Document>, key: DocKey)
    requires DistinctNames(colls) && Mirrors(colls, docs, named)
    ensures key in docs <==> key.0 in colls && NameKey(colls, key) in named
    ensures key in docs ==> named[NameKey(colls, key)] == docs[key]
  {
    if key.0 in colls && NameKey(colls, key) in named { MirrorLookup(colls, docs, named, key); }
  }

  ghost predicate SameNamed(named: map<NamedKey, Document>, restored: map<NamedKey, Document>) {
    forall name :: SameAt(named, restored, name)
  }

  predicate SameAt<K>(a: map<K, Document>, b: map<K, Document>, k: K) {
    (k in a <==> k in b) && (k in a && k in b ==> SameDocument(a[k], b[k]))
  }

  lemma ContentByNames(colls: map<nat, Collection>, docs: Documents, named: map<NamedKey, Document>,
                       restored: map<NamedKey, Document>)
    requires Mirrors(colls, docs, named) && MirrorsContent(colls, docs, restored)
    ensures SameNamed(named, restored)
  {
    forall name ensures SameAt(named, restored, name) { ContentByName(colls, docs, named, restored, name); }
  }

  lemma RowMatches(own: map<nat, Collection>, replayed: Documents, rows: Documents, named: map<NamedKey, Document>,
                   restored: map<NamedKey, Document>, key: DocKey)
    requires DistinctNames(own) && Mirrors(own, replayed, named) && Mirrors(own, rows, restored)
    requires SameNamed(named, restored)
    ensures SameAt(replayed, rows, key)
  {
    RowByName(own, replayed, named, key);
    RowByName(own, rows, restored, key);
    if key.0 in own { assert SameAt(named, restored, NameKey(own, key)); }
  }

  lemma SameEverywhere(a: Documents, b: Documents)
    requires forall key :: SameAt(a, b, key)
    ensures SameContent(a, b)
  {
    forall key ensures key in a <==> key in b { assert SameAt(a, b, key); }
    forall key | key in a ensures SameDocument(a[key], b[key]) { assert SameAt(a, b, key); }
  }

  lemma RowsMatch(own: map<nat, Collection>, replayed: Documents, rows: Documents, named: map<NamedKey, Document>,
                  restored: map<NamedKey, Document>)
    requires DistinctNames(own) && Mirrors(own, replayed, named) && Mirrors(own, rows, restored)
    requires SameNamed(named, restored)
    ensures SameContent(replayed, rows)
  {
    forall key ensures SameAt(replayed, rows, key) { RowMatches(own, replayed, rows, named, restored, key); }
    SameEverywhere(replayed, rows);
  }

  lemma RestoredRowsMatchLog(db: Db, covered: seq<Operation>, rep: Replica, t: Site)
    requires Ascending(covered) && DistinctNames(db.colls) && Reproduces(db, covered, rep) && Resumes(rep, t)
    ensures RowsMatchLog(t.db)
  {
    RestoredIsRenamed(db, covered, rep.log, t.db);
    var named := RenamedReplays(db.colls, covered, t.db.colls, t.db.log);
    ContentByNames(db.colls, Replay(map[], covered).value, named, rep.docs);
    RowsMatch(t.db.colls, Replay(map[], t.db.log).value, t.db.docs, named, rep.docs);
  }

  // ---------------------------------------------------------------- writes of its own

  /** The log only grows, under higher ids, and the rows keep matching it. */
  ghost predicate Grows(before: Db, after: Db) {
    && before.log <= after.log && Ascending(after.log) && HighestId(after.log) <= after.lastId
    && RowsMatchLog(after)
  }

  ghost predicate Sourced(db: Db) {
    Ascending(db.log) && HighestId(db.log) <= db.lastId && RowsMatchLog(db)
  }

  lemma CommitGrows(before: Db, entry: Operation, id: nat, now: int, after: Db)
    requires Sourced(before) && before.lastId < id && Commit(before, entry, id, now) == Success(after)
    ensures Grows(before, after)
  {
    assert Front(after.log) == before.log;
    ReplayOneRespectsContent(before.docs, Replay(map[], before.log).value, entry.(id := id));
  }

  lemma ServedGrows(before: Db, after: Db, caller: Caller, coll: nat, write: JsonRoutes.Write, size: nat, now: int,
                    r: Result<Document, WriteError>)
    requires Sourced(before) && Served(before, after, caller, coll, write, size, now, r)
    ensures Grows(before, after)
  {
    var admitted := Admit(before, caller, coll, write, size);
    if admitted.Success? { CommitGrows(before, admitted.value, after.lastId, now, after); }
  }

  lemma {:induction false} BatchGrows(served: seq<Db>, coll: nat, writes: seq<JsonRoutes.Write>, now: int, i: nat)
    requires OneByOne(served, coll, writes, now) && i < |served| && Sourced(served[0])
    ensures Grows(served[0], served[i])
  {
    if i > 0 {
      BatchGrows(served, coll, writes, now, i - 1);
      assert OneServed(served[i - 1], served[i], coll, writes[i - 1], now);
      var r: Result<Document, WriteError> :|
        r.Success? && Served(served[i - 1], served[i], OwnerRoute, coll, writes[i - 1], 0, now, r);
      ServedGrows(served[i - 1], served[i], OwnerRoute, coll, writes[i - 1], 0, now, r);
    }
  }

  /** Whatever a route logs, the log still replays, to the rows that the route left. */
  lemma StepGrows(before: Db, after: Db, request: Request)
    requires Sourced(before) && Steps(before, after, request)
    ensures Grows(before, after)
  {
    match request
    case DocumentRequest(caller, coll, write, size, now, answer) =>
      ServedGrows(before, after, caller, coll, write, size, now, answer);
    case BatchRequest(coll, writes, now, served) =>
      BatchGrows(served, coll, writes, now, |served| - 1);
    case SettingsRequest(entry) =>
      CommitGrows(before, entry, after.lastId, 0, after);
    case CollectionRequest(name, owner, database) =>
      assert Front(after.log) == before.log;
  }

  // ---------------------------------------------------------------- backups of its own

  /** What the restore left: its log and its segment records. */
  datatype Base = Base(log: seq<Operation>, marks: seq<Mark>)

  /** The marks tile the operations from position `base` to position `p`, each backed by a message. */
  ghost predicate TilesFrom(s: Site, marks: seq<Mark>, base: nat, p: nat)
    decreases |marks|
  {
    if marks == [] then p == base
    else
      exists m, i :: base <= i < p && m in s.messages && Last(marks) == MarkOf(m) && SliceAt(s.db.log, m.segment, i)
        && i + |m.segment.ops| == p && TilesFrom(s, Front(marks), base, i)
  }

  predicate MarksWithin(marks: seq<Mark>, highest: nat) {
    forall k | 0 <= k < |marks| :: 0 < marks[k].first <= marks[k].last <= highest
  }

  ghost predicate WorkerBehind(s: Site) {
    match s.worker
    case Idle => true
    case Built(g) => SliceAt(s.db.log, g, CursorPosition(s))
    case Sent(m) => m in s.messages && SliceAt(s.db.log, m.segment, CursorPosition(s))
  }

  ghost predicate ResumedInv(s: Site, base: Base) {
    && Sourced(s.db) && base.log <= s.db.log
    && CursorAligned(s) && |base.log| <= CursorPosition(s)
    && base.marks <= s.marks && MarksWithin(base.marks, HighestId(base.log))
    && TilesFrom(s, s.marks[|base.marks|..], |base.log|, CursorPosition(s))
    && WorkerBehind(s)
  }

  lemma LastTileFrom(s: Site, marks: seq<Mark>, base: nat, p: nat) returns (m: Message, i: nat)
    requires TilesFrom(s, marks, base, p) && marks != []
    ensures base <= i < p && m in s.messages && Last(marks) == MarkOf(m) && SliceAt(s.db.log, m.segment, i)
    ensures i + |m.segment.ops| == p && TilesFrom(s, Front(marks), base, i)
  {
    m, i :| base <= i < p && m in s.messages && Last(marks) == MarkOf(m) && SliceAt(s.db.log, m.segment, i)
      && i + |m.segment.ops| == p && TilesFrom(s, Front(marks), base, i);
  }

  lemma {:induction false} TilesFromPersist(s: Site, t: Site, marks: seq<Mark>, base: nat, p: nat)
    requires TilesFrom(s, marks, base, p) && s.db.log <= t.db.log && s.messages <= t.messages
    ensures TilesFrom(t, marks, base, p)
    decreases |marks|
  {
    if marks != [] {
      var m, i := LastTileFrom(s, marks, base, p);
      TilesFromPersist(s, t, Front(marks), base, i);
      assert SliceAt(t.db.log, m.segment, i);
    }
  }

  /** The ranges are in order and lie above `low`, up to `high`. */
  predicate Between(marks: seq<Mark>, low: nat, high: int) {
    marks == [] ||
    (low < Last(marks).first <= Last(marks).last <= high && Between(Front(marks), low, Last(marks).first - 1))
  }

  lemma BetweenWidens(marks: seq<Mark>, low: nat, high: int, higher: int)
    requires Between(marks, low, high) && high <= higher
    ensures Between(marks, low, higher)
  {
  }

  lemma {:induction false} BetweenAt(marks: seq<Mark>, low: nat, high: int, k: nat)
    requires Between(marks, low, high) && k < |marks|
    ensures low < marks[k].first <= marks[k].last <= high
  {
    if k < |marks| - 1 { BetweenAt(Front(marks), low, Last(marks).first - 1, k); }
  }

  lemma {:induction false} BetweenInOrder(marks: seq<Mark>, low: nat, high: int, k: nat, l: nat)
    requires Between(marks, low, high) && k < l < |marks|
    ensures marks[k].last < marks[l].first
  {
    if l < |marks| - 1 {
      BetweenInOrder(Front(marks), low, Last(marks).first - 1, k, l);
    } else {
      BetweenAt(Front(marks), low, Last(marks).first - 1, k);
    }
  }

  lemma TileBounds(log: seq<Operation>, g: Segment, i: nat)
    requires Ascending(log) && SliceAt(log, g, i)
    ensures HighestId(log[..i]) < g.first <= g.last == HighestId(log[..i + |g.ops|])
  {
    AscendingIdsIncrease(log);
    assert i > 0 ==> log[i - 1].id < log[i].id;
  }

  lemma HighestRises(log: seq<Operation>, p: nat, q: nat)
    requires Ascending(log) && p <= q <= |log|
    ensures HighestId(log[..p]) <= HighestId(log[..q])
  {
    AscendingIdsIncrease(log);
  }

  lemma TilesFromReach(s: Site, marks: seq<Mark>, base: nat, p: nat)
    requires TilesFrom(s, marks, base, p)
    ensures base <= p && (base <= |s.db.log| ==> p <= |s.db.log|)
  {
    if marks != [] { var m, i := LastTileFrom(s, marks, base, p); }
  }

  /** The marks of its own are in order, behind the base and within the first `p` operations. */
  lemma {:induction false} TilesFromBetween(s: Site, marks: seq<Mark>, base: nat, p: nat)
    requires TilesFrom(s, marks, base, p) && Ascending(s.db.log) && base <= |s.db.log|
    ensures base <= p <= |s.db.log|
    ensures Between(marks, HighestId(s.db.log[..base]), HighestId(s.db.log[..p]))
    decreases |marks|
  {
    TilesFromReach(s, marks, base, p);
    if marks != [] {
      var m, i := LastTileFrom(s, marks, base, p);
      TilesFromBetween(s, Front(marks), base, i);
      TileBounds(s.db.log, m.segment, i);
      HighestRises(s.db.log, base, i);
      BetweenWidens(Front(marks), HighestId(s.db.log[..base]), HighestId(s.db.log[..i]), m.segment.first - 1);
    }
  }

  /** Every operation between the base and the cursor was uploaded, and lies in a mark of its own. */
  lemma {:induction false} TiledIsUploaded(s: Site, marks: seq<Mark>, base: nat, p: nat, k: nat) returns (n: nat)
    requires TilesFrom(s, marks, base, p) && IdsIncrease(s.db.log) && base <= k < p <= |s.db.log|
    ensures Uploaded(s.messages, s.db.log[k])
    ensures n < |marks| && marks[n].first <= s.db.log[k].id <= marks[n].last
    decreases |marks|
  {
    var m, i := LastTileFrom(s, marks, base, p);
    if k >= i {
      n := |marks| - 1;
      SliceCarries(s.db.log, m, i, k);
      SliceSpans(s.db.log, m.segment, i, k);
    } else {
      n := TiledIsUploaded(s, Front(marks), base, i, k);
    }
  }

  /** No recorded range reaches beyond the cursor. */
  lemma MarksBehindCursor(s: Site, base: Base)
    requires ResumedInv(s, base)
    ensures MarksWithin(s.marks, s.cursor)
  {
    var n, p := |base.marks|, CursorPosition(s);
    TilesFromBetween(s, s.marks[n..], |base.log|, p);
    HighestRises(s.db.log, |base.log|, p);
    assert base.log == s.db.log[..|base.log|];
    forall k | 0 <= k < |s.marks| ensures 0 < s.marks[k].first <= s.marks[k].last <= s.cursor {
      if k < n {
        assert s.marks[k] == base.marks[k];
      } else {
        BetweenAt(s.marks[n..], HighestId(base.log), s.cursor, k - n);
      }
    }
  }

  /** What has been sent starts behind the cursor, so behind every recorded range. */
  lemma NeverRecordedTwice(s: Site, base: Base)
    requires ResumedInv(s, base) && s.worker.Sent?
    ensures s.cursor < s.worker.message.segment.first
    ensures !Marked(s.marks, s.worker.message.segment.first, s.worker.message.segment.last)
  {
    MarksBehindCursor(s, base);
    PendingIsSuffix(s.db.log, s.cursor);
  }

  lemma WorkerStaysBehind(s: Site, t: Site)
    requires WorkerBehind(s) && s.db.log <= t.db.log && CursorPosition(t) == CursorPosition(s)
    requires t.worker == s.worker && t.messages == s.messages
    ensures WorkerBehind(t)
  {
  }

  lemma WriteKeepsResumed(s: Site, t: Site, base: Base, request: Request)
    requires ResumedInv(s, base) && Steps(s.db, t.db, request) && t == s.(db := t.db)
    ensures ResumedInv(t, base)
  {
    StepGrows(s.db, t.db, request);
    GrowthKeepsResumed(s, t, base);
  }

  lemma GrowthKeepsResumed(s: Site, t: Site, base: Base)
    requires ResumedInv(s, base) && Grows(s.db, t.db) && t == s.(db := t.db)
    ensures ResumedInv(t, base)
  {
    CursorStays(s, t);
    TilesFromPersist(s, t, s.marks[|base.marks|..], |base.log|, CursorPosition(s));
    WorkerStaysBehind(s, t);
  }

  lemma MarkKeepsResumed(s: Site, t: Site, base: Base)
    requires ResumedInv(s, base) && Next(s, t, MarkSent)
    ensures ResumedInv(t, base)
  {
    var m, p, n := s.worker.message, CursorPosition(s), |base.marks|;
    NeverRecordedTwice(s, base);
    CursorAdvances(s.db.log, s.cursor, m.segment);
    TilesFromPersist(s, t, s.marks[n..], |base.log|, p);
    assert t.marks[n..] == s.marks[n..] + [MarkOf(m)];
    assert Front(t.marks[n..]) == s.marks[n..];
  }

  lemma NextKeepsResumed(s: Site, t: Site, base: Base, e: Event)
    requires ResumedInv(s, base) && Next(s, t, e)
    ensures ResumedInv(t, base) && s.cursor <= t.cursor
  {
    match e
    case Write(request) => WriteKeepsResumed(s, t, base, request);
    case MarkSent => MarkKeepsResumed(s, t, base);
    case Build(limit) =>
      TilesFromPersist(s, t, s.marks[|base.marks|..], |base.log|, CursorPosition(s));
      if t.worker.Built? { CutIsSlice(s.db, s.cursor, limit, t.worker.segment); }
    case _ => TilesFromPersist(s, t, s.marks[|base.marks|..], |base.log|, CursorPosition(s));
  }

  lemma {:induction false} ContinuationKeepsResumed(run: seq<Site>, events: seq<Event>, base: Base, i: nat)
    requires Continues(run, events) && i < |run| && ResumedInv(run[0], base)
    ensures ResumedInv(run[i], base) && run[0].cursor <= run[i].cursor
  {
    if i > 0 {
      ContinuationKeepsResumed(run, events, base, i - 1);
      NextKeepsResumed(run[i - 1], run[i], base, events[i - 1]);
    }
  }

  // ---------------------------------------------------------------- the restored state

  lemma ResumedStarts(db: Db, covered: seq<Operation>, rep: Replica, t: Site)
    requires Ascending(covered) && DistinctNames(db.colls) && Reproduces(db, covered, rep) && Resumes(rep, t)
    requires MarksWithin(rep.marks, HighestId(covered))
    ensures ResumedInv(t, Base(t.db.log, rep.marks)) && Pending(t.db.log, t.cursor) == []
  {
    RestoredRowsMatchLog(db, covered, rep, t);
    RestoredIsRenamed(db, covered, rep.log, t.db);
    if covered != [] { assert RenamedAt(db.colls, Last(covered), t.db.colls, Last(t.db.log)); }
    assert HighestId(t.db.log) == HighestId(covered) == t.cursor;
    PendingIsSuffix(t.db.log, t.cursor);
    assert t.db.log[..|t.db.log|] == t.db.log;
    assert t.marks[|rep.marks|..] == [];
  }

  lemma SliceBounds(log: seq<Operation>, g: Segment, i: nat)
    requires IdsIncrease(log) && SliceAt(log, g, i)
    ensures 0 < g.first <= g.last
  {
  }

  lemma InPrefixIsBelow(log: seq<Operation>, n: nat, op: Operation)
    requires IdsIncrease(log) && n <= |log| && op in log[..n]
    ensures op.id <= HighestId(log[..n])
  {
    var k :| 0 <= k < |log[..n]| && log[..n][k] == op;
    assert log[k] == op;
  }

  lemma MessageOf(s: Site, arrived: seq<Message>, kept: seq<Message>, m: Message)
    requires Arrives(s, arrived, kept) && m in kept
    ensures m in s.messages
  {
    assert m in arrived;
  }

  /** The kept segments lie within the covered prefix. */
  lemma KeptIsWithin(s: Site, arrived: seq<Message>, kept: seq<Message>, m: Message)
    requires BackupInv(s) && Arrives(s, arrived, kept) && m in kept
    ensures Reach(s.db.log, s.messages) <= |s.db.log|
    ensures 0 < m.segment.first <= m.segment.last <= HighestId(Covered(s))
  {
    MessageOf(s, arrived, kept, m);
    AscendingIdsIncrease(s.db.log);
    var i := SliceStart(s, m);
    SliceBounds(s.db.log, m.segment, i);
    UploadsCoverPrefix(s);
    LastIsCovered(s, m, i);
  }

  lemma LastIsCovered(s: Site, m: Message, i: nat)
    requires IdsIncrease(s.db.log) && m in s.messages && SliceAt(s.db.log, m.segment, i)
    requires Reach(s.db.log, s.messages) <= |s.db.log|
    requires forall op :: Uploaded(s.messages, op) ==> op in Covered(s)
    ensures m.segment.last <= HighestId(Covered(s))
  {
    var last := i + |m.segment.ops| - 1;
    SliceCarries(s.db.log, m, i, last);
    assert Uploaded(s.messages, s.db.log[last]);
    InPrefixIsBelow(s.db.log, Reach(s.db.log, s.messages), s.db.log[last]);
  }

  lemma {:induction false} RecordedWithin(marks: seq<Mark>, segments: seq<Message>, highest: nat)
    requires MarksWithin(marks, highest)
    requires forall m | m in segments :: 0 < m.segment.first <= m.segment.last <= highest
    ensures MarksWithin(RecordSegments(marks, segments), highest)
  {
    if segments != [] {
      assert segments == Front(segments) + [Last(segments)];
      RecordedWithin(marks, Front(segments), highest);
    }
  }

  /** A restore, into an empty target or over an earlier restore, records nothing beyond what it covers. */
  lemma RestoredMarksWithin(s: Site, arrived: seq<Message>, kept: seq<Message>, before: Replica, rep: Replica)
    requires BackupInv(s) && Arrives(s, arrived, kept) && s.messages != [] && RestoreInto(before, kept) == Success(rep)
    requires Reach(s.db.log, s.messages) <= |s.db.log| && MarksWithin(before.marks, HighestId(Covered(s)))
    ensures MarksWithin(rep.marks, HighestId(Covered(s)))
  {
    Gather(s, arrived, kept);
    forall m | m in kept ensures 0 < m.segment.first <= m.segment.last <= HighestId(Covered(s)) {
      KeptIsWithin(s, arrived, kept, m);
    }
    RecordedWithin(before.marks, kept, HighestId(Covered(s)));
  }

  // ---------------------------------------------------------------- the target as a source

  /** What holds of a resumed target: `start` is how it was right after the restore. */
  ghost predicate SoundSource(start: Site, s: Site) {
    && start.db.log <= s.db.log && start.marks <= s.marks && start.cursor <= s.cursor && RowsMatchLog(s.db)
    && (s.worker.Sent? ==> s.cursor < s.worker.message.segment.first
                           && !Marked(s.marks, s.worker.message.segment.first, s.worker.message.segment.last))
    && (forall m, n | 0 <= m < n < |s.marks| && |start.marks| <= n :: s.marks[m].last < s.marks[n].first)
    && (forall k | |start.db.log| <= k < |s.db.log| :: OwnOperation(start, s, k))
  }

  /** An operation logged after the restore is at or below the cursor exactly if it lies in a record made after
      the restore, and then it was uploaded from here. */
  ghost predicate OwnOperation(start: Site, s: Site, k: nat)
    requires k < |s.db.log|
  {
    && (s.db.log[k].id <= s.cursor <==>
        exists n :: |start.marks| <= n < |s.marks| && s.marks[n].first <= s.db.log[k].id <= s.marks[n].last)
    && (s.db.log[k].id <= s.cursor ==> Uploaded(s.messages, s.db.log[k]))
  }

  lemma OwnOperationIsTiled(start: Site, s: Site, k: nat)
    requires ResumedInv(s, Base(start.db.log, start.marks)) && |start.db.log| <= k < |s.db.log|
    ensures OwnOperation(start, s, k)
  {
    var n, p := |start.marks|, CursorPosition(s);
    AscendingIdsIncrease(s.db.log);
    PendingIsSuffix(s.db.log, s.cursor);
    if k < p {
      var own := TiledIsUploaded(s, s.marks[n..], |start.db.log|, p, k);
      assert s.marks[n..][own] == s.marks[n + own];
      assert s.db.log[k].id <= s.db.log[p - 1].id <= s.cursor;
    } else {
      MarksBehindCursor(s, Base(start.db.log, start.marks));
      assert s.cursor < s.db.log[p].id <= s.db.log[k].id;
    }
  }

  lemma RecordsInOrder(s: Site, base: Base, k: nat, l: nat)
    requires ResumedInv(s, base) && k < l < |s.marks| && |base.marks| <= l
    ensures s.marks[k].last < s.marks[l].first
  {
    var n, p, low := |base.marks|, CursorPosition(s), HighestId(base.log);
    TilesFromBetween(s, s.marks[n..], |base.log|, p);
    assert base.log == s.db.log[..|base.log|];
    if k < n {
      BetweenAt(s.marks[n..], low, s.cursor, l - n);
      assert s.marks[k] == base.marks[k];
    } else {
      BetweenInOrder(s.marks[n..], low, s.cursor, k - n, l - n);
    }
  }

  lemma ResumedIsSound(start: Site, s: Site)
    requires ResumedInv(s, Base(start.db.log, start.marks)) && start.cursor <= s.cursor
    ensures SoundSource(start, s)
  {
    var base := Base(start.db.log, start.marks);
    if s.worker.Sent? { NeverRecordedTwice(s, base); }
    forall k, l | 0 <= k < l < |s.marks| && |start.marks| <= l ensures s.marks[k].last < s.marks[l].first {
      RecordsInOrder(s, base, k, l);
    }
    forall k | |base.log| <= k < |s.db.log| ensures OwnOperation(start, s, k) { OwnOperationIsTiled(start, s, k); }
  }

  lemma TargetGoesOn(db: Db, covered: seq<Operation>, rep: Replica, run: seq<Site>, events: seq<Event>, i: nat)
    requires Ascending(covered) && DistinctNames(db.colls) && Reproduces(db, covered, rep)
    requires MarksWithin(rep.marks, HighestId(covered))
    requires Continues(run, events) && i < |run| && Resumes(rep, run[0])
    ensures Pending(run[0].db.log, run[0].cursor) == [] && SoundSource(run[0], run[i])
  {
    ResumedStarts(db, covered, rep, run[0]);
    ContinuationKeepsResumed(run, events, Base(run[0].db.log, rep.marks), i);
    ResumedIsSound(run[0], run[i]);
  }

  /** A RESTORED TARGET GOES ON.  Whatever it then writes, builds, uploads, marks or loses in a crash: its log
      still replays to its rows (but for versions), nothing is pending at first, its cursor never goes back, what
      it sends starts behind the cursor and never meets a recorded range, its own records are disjoint from each
      other and from the restored ones, and what is at or below the cursor was restored or uploaded from here. */
  lemma RestoredTargetGoesOn(s: Site, arrived: seq<Message>, kept: seq<Message>, rep: Replica,
                             run: seq<Site>, events: seq<Event>, i: nat)
    requires BackupInv(s) && Arrives(s, arrived, kept) && s.messages != []
    requires RestoreInto(EMPTY_REPLICA, kept) == Success(rep)
    requires Continues(run, events) && i < |run| && Resumes(rep, run[0])
    ensures Pending(run[0].db.log, run[0].cursor) == [] && SoundSource(run[0], run[i])
  {
    var _ := RestoreReproducesSource(s, arrived, kept);
    RestoredMarksWithin(s, arrived, kept, EMPTY_REPLICA, rep);
    AscendingPrefix(s.db.log, Reach(s.db.log, s.messages));
    TargetGoesOn(s.db, Covered(s), rep, run, events, i);
  }

  /** So does a target that was brought up to date by a second restore. */
  lemma UpdatedTargetGoesOn(s: Site, arrivedS: seq<Message>, keptS: seq<Message>, first: Replica,
                            t: Site, arrivedT: seq<Message>, keptT: seq<Message>, second: Replica,
                            run: seq<Site>, events: seq<Event>, i: nat)
    requires BackupInv(s) && Arrives(s, arrivedS, keptS) && s.messages != []
    requires BackupInv(t) && Arrives(t, arrivedT, keptT)
    requires Extends(s.db, t.db) && forall m | m in s.messages :: m in t.messages
    requires RestoreInto(EMPTY_REPLICA, keptS) == Success(first) && RestoreInto(first, keptT) == Success(second)
    requires Continues(run, events) && i < |run| && Resumes(second, run[0])
    ensures Pending(run[0].db.log, run[0].cursor) == [] && SoundSource(run[0], run[i])
  {
    var _ := RestoreAgainCatchesUp(s, arrivedS, keptS, first, t, arrivedT, keptT);
    CoverageGrows(s, t);
    AscendingPrefix(t.db.log, Reach(t.db.log, t.messages));
    FirstMarksWithin(s, arrivedS, keptS, first, Covered(t));
    assert s.messages[0] in t.messages;
    RestoredMarksWithin(t, arrivedT, keptT, first, second);
    TargetGoesOn(t.db, Covered(t), second, run, events, i);
  }

  lemma FirstMarksWithin(s: Site, arrived: seq<Message>, kept: seq<Message>, first: Replica, later: seq<Operation>)
    requires BackupInv(s) && Arrives(s, arrived, kept) && s.messages != []
    requires RestoreInto(EMPTY_REPLICA, kept) == Success(first) && Reach(s.db.log, s.messages) <= |s.db.log|
    requires Covered(s) <= later && Ascending(later)
    ensures MarksWithin(first.marks, HighestId(later))
  {
    RestoredMarksWithin(s, arrived, kept, EMPTY_REPLICA, first);
    PrefixIsLower(Covered(s), later);
  }

  lemma PrefixIsLower(log: seq<Operation>, more: seq<Operation>)
    requires log <= more && Ascending(more)
    ensures HighestId(log) <= HighestId(more)
  {
    HighestRises(more, |log|, |more|);
    assert more[..|log|] == log && more[..|more|] == more;
  }

  /** Documents under the source's ids that the replica holds under names. */
  lemma MirrorsBack(colls: map<nat, Collection>, docs: Documents, restored: map<NamedKey, Document>)
    returns (back: Documents)
    requires MirrorsContent(colls, docs, restored)
    ensures Mirrors(colls, back, restored)
  {
    back := map key | key in docs :: restored[NameKey(colls, key)];
    forall name | name in restored
      ensures exists key :: key in back && key.0 in colls && NameKey(colls, key) == name
    {
      var key := ContentHasKey(colls, docs, restored, name);
      assert key in back;
    }
  }

  /** There is such a target: one that gave its collections the source's ids. */
  lemma SomeTargetResumes(s: Site, arrived: seq<Message>, kept: seq<Message>, rep: Replica) returns (t: Site)
    requires BackupInv(s) && Arrives(s, arrived, kept) && s.messages != []
    requires RestoreInto(EMPTY_REPLICA, kept) == Success(rep)
    ensures Resumes(rep, t)
  {
    var _ := RestoreReproducesSource(s, arrived, kept);
    AscendingPrefix(s.db.log, Reach(s.db.log, s.messages));
    var docs := MirrorsBack(s.db.colls, Replay(map[], Covered(s)).value, rep.docs);
    t := TargetOf(s.db, Covered(s), rep, docs);
  }

  lemma TargetOf(db: Db, covered: seq<Operation>, rep: Replica, docs: Documents) returns (t: Site)
    requires Ascending(covered) && DistinctNames(db.colls) && LogIs(db, covered, rep.log)
    requires Mirrors(db.colls, docs, rep.docs) && rep.cursor == Some(HighestId(covered))
    ensures Resumes(rep, t)
  {
    t := Site(db.(docs := docs, log := covered, lastId := HighestId(covered)), 0, HighestId(covered), rep.marks, [],
              Idle);
  }
}
