/** The Telegram backup of one database, as a protocol with crash points.

    A segment is cut from the log after the cursor, sent, and only then marked.  A crash between any
    two of these steps forgets the segment but not the message, so later segments can repeat it or
    overlap it. */
module Backup {
  import opened Prelude
  import opened OperationLog
  import opened JsonRoutes

  /** The collection metadata that travels with an operation, as it was when the segment was cut. */
  datatype Snapshot = Snapshot(id: nat, name: string, config: Config)

  datatype Carried = Carried(op: Operation, coll: Snapshot)

  datatype Segment = Segment(first: nat, last: nat, ops: seq<Carried>)

  datatype Message = Message(id: nat, owner: nat, segment: Segment)

  /** A row of `json_backup_segments`. */
  datatype Mark = Mark(first: nat, last: nat, count: nat, message: nat)

  datatype Worker = Idle | Built(segment: Segment) | Sent(message: Message)

  /** One database with its backup state and the messages in its chat. */
  datatype Site = Site(
    db: Db, owner: nat, cursor: nat, marks: seq<Mark>, messages: seq<Message>, worker: Worker)

  // ---------------------------------------------------------------- cutting a segment

  /** The operations above the cursor, in log order. */
  function Pending(log: seq<Operation>, cursor: nat): seq<Operation> {
    if log == [] then []
    else if Last(log).id > cursor then Pending(Front(log), cursor) + [Last(log)]
    else Pending(Front(log), cursor)
  }

  function Take<T>(xs: seq<T>, n: nat): seq<T> {
    if n < |xs| then xs[..n] else xs
  }

  function SnapshotOf(colls: map<nat, Collection>, c: nat): Snapshot {
    if c in colls then Snapshot(c, colls[c].name, colls[c].config) else Snapshot(c, "", DEFAULT_CONFIG)
  }

  function Carry(colls: map<nat, Collection>, ops: seq<Operation>): seq<Carried> {
    if ops == [] then []
    else Carry(colls, Front(ops)) + [Carried(Last(ops), SnapshotOf(colls, Last(ops).coll))]
  }

  function Cut(db: Db, cursor: nat, limit: nat): Option<Segment> {
    var rows := Take(Pending(db.log, cursor), limit);
    if rows == [] then None
    else Some(Segment(rows[0].id, Last(rows).id, Carry(db.colls, rows)))
  }

  // ---------------------------------------------------------------- the steps

  datatype Event = Write(request: Request) | Build(limit: nat) | Upload(messageId: nat) | MarkSent | Crash

  predicate Marked(marks: seq<Mark>, first: nat, last: nat) {
    exists k :: 0 <= k < |marks| && marks[k].first == first && marks[k].last == last
  }

  function MarkOf(message: Message): Mark {
    Mark(message.segment.first, message.segment.last, |message.segment.ops|, message.id)
  }

  ghost predicate Next(s: Site, t: Site, e: Event) {
    match e
    case Write(request) =>
      Steps(s.db, t.db, request) && t == s.(db := t.db)
    case Build(limit) =>
      s.worker.Idle? &&
      t == s.(worker := match Cut(s.db, s.cursor, limit) { case None => Idle case Some(g) => Built(g) })
    case Upload(id) =>
      && s.worker.Built? && (s.messages == [] || Last(s.messages).id < id)
      && var m := Message(id, s.owner, s.worker.segment);
         t == s.(messages := s.messages + [m], worker := Sent(m))
    case MarkSent =>
      && s.worker.Sent?
      && var g := s.worker.message.segment;
         // The unique constraint on (database, first, last) would roll the transaction back.
         t == if Marked(s.marks, g.first, g.last) then s.(worker := Idle)
              else s.(marks := s.marks + [MarkOf(s.worker.message)], cursor := Max(s.cursor, g.last), worker := Idle)
    case Crash =>
      t == s.(worker := Idle)
  }

  // ---------------------------------------------------------------- positions in the log

  /** How many operations the cursor has passed. */
  function Passed(log: seq<Operation>, cursor: nat): nat {
    if log == [] then 0 else Passed(Front(log), cursor) + if Last(log).id <= cursor then 1 else 0
  }

  lemma {:induction false} PendingIsSuffix(log: seq<Operation>, cursor: nat)
    requires Ascending(log)
    ensures Passed(log, cursor) <= |log|
    ensures Pending(log, cursor) == log[Passed(log, cursor)..]
    ensures HighestId(log) <= cursor ==> Passed(log, cursor) == |log|
    ensures Passed(log, cursor) > 0 ==> log[Passed(log, cursor) - 1].id <= cursor
    ensures Passed(log, cursor) < |log| ==> cursor < log[Passed(log, cursor)].id
  {
    if log != [] {
      var front := Front(log);
      PendingIsSuffix(front, cursor);
      var n := Passed(front, cursor);
      if Last(log).id > cursor {
        assert Pending(log, cursor) == Pending(front, cursor) + [Last(log)];
        assert log[n..] == front[n..] + [Last(log)];
      } else {
        assert front[n..] == [];
      }
    }
  }

  lemma {:induction false} PassedKeeps(log: seq<Operation>, more: seq<Operation>, cursor: nat)
    requires log <= more && Ascending(more) && cursor <= HighestId(log)
    ensures Passed(more, cursor) == Passed(log, cursor)
  {
    if log == more {
    } else {
      assert log <= Front(more);
      AscendingIdsIncrease(more);
      PassedKeeps(log, Front(more), cursor);
      assert log != [] ==> more[|log| - 1].id < Last(more).id;
    }
  }

  /** After passing exactly `n` operations the cursor is the id of the last of them. */
  lemma {:induction false} PassedAt(log: seq<Operation>, n: nat)
    requires Ascending(log) && n <= |log|
    ensures Passed(log, HighestId(log[..n])) == n
  {
    if n < |log| {
      AscendingIdsIncrease(log);
      PassedAt(Front(log), n);
      assert Front(log)[..n] == log[..n];
      assert n > 0 ==> log[n - 1].id < Last(log).id;
    } else {
      assert log[..n] == log;
      PendingIsSuffix(log, HighestId(log));
    }
  }

  // ---------------------------------------------------------------- the invariant

  /** The segment holds exactly the operations from position `i` on, and names its first and last. */
  ghost predicate SliceAt(log: seq<Operation>, g: Segment, i: nat) {
    && g.ops != [] && i + |g.ops| <= |log|
    && (forall k | 0 <= k < |g.ops| :: g.ops[k].op == log[i + k])
    && g.first == log[i].id && g.last == log[i + |g.ops| - 1].id
  }

  /** The metadata in the segment is what the collections looked like after `m` operations. */
  ghost predicate SnapshotsAt(db: Db, g: Segment, m: nat) {
    m <= |db.log| && forall k | 0 <= k < |g.ops| :: SnapshotAt(db, g, m, k)
  }

  predicate SnapshotAt(db: Db, g: Segment, m: nat, k: nat)
    requires m <= |db.log| && k < |g.ops|
  {
    var c := g.ops[k].op.coll;
    c in db.colls && g.ops[k].coll == Snapshot(c, db.colls[c].name, ConfigAfter(DEFAULT_CONFIG, db.log[..m], c))
  }

  /** A segment that was cut from this log at or before cursor position `p`. */
  ghost predicate CutFrom(db: Db, g: Segment, p: nat) {
    exists i: nat, m: nat :: i <= p && SliceAt(db.log, g, i) && i + |g.ops| <= m && SnapshotsAt(db, g, m)
  }

  /** The marks tile the first `p` operations, in order, each backed by a message. */
  ghost predicate Tiles(s: Site, marks: seq<Mark>, p: nat)
    decreases |marks|
  {
    if marks == [] then p == 0
    else
      exists m, i :: 0 <= i < p && m in s.messages && Last(marks) == MarkOf(m) && SliceAt(s.db.log, m.segment, i)
        && i + |m.segment.ops| == p && Tiles(s, Front(marks), i)
  }

  predicate IdsAscend(messages: seq<Message>) {
    messages == [] ||
    (IdsAscend(Front(messages)) && (Front(messages) != [] ==> Last(Front(messages)).id < Last(messages).id))
  }

  function CursorPosition(s: Site): nat {
    Passed(s.db.log, s.cursor)
  }

  ghost predicate WorkerAligned(db: Db, messages: seq<Message>, worker: Worker, p: nat) {
    match worker
    case Idle => true
    case Built(g) => SliceAt(db.log, g, p) && CutFrom(db, g, p)
    case Sent(m) => m in messages && SliceAt(db.log, m.segment, p)
  }

  ghost predicate MessagesCut(db: Db, owner: nat, messages: seq<Message>, p: nat) {
    forall m | m in messages :: m.owner == owner && CutFrom(db, m.segment, p)
  }

  predicate CursorAligned(s: Site) {
    CursorPosition(s) <= |s.db.log| && s.cursor == HighestId(s.db.log[..CursorPosition(s)])
  }

  ghost predicate Aligned(s: Site) {
    && CursorAligned(s)
    && MessagesCut(s.db, s.owner, s.messages, CursorPosition(s))
    && IdsAscend(s.messages)
    && Tiles(s, s.marks, CursorPosition(s))
    && WorkerAligned(s.db, s.messages, s.worker, CursorPosition(s))
  }

  ghost predicate BackupInv(s: Site) {
    Consistent(s.db) && Aligned(s)
  }

  ghost predicate InitialSite(s: Site) {
    s.db == EMPTY_DB && s.cursor == 0 && s.marks == [] && s.messages == [] && s.worker.Idle?
  }

  // ---------------------------------------------------------------- the invariant holds in every run

  /** Requests only append to the log and never rename a collection. */
  ghost predicate Extends(before: Db, after: Db) {
    && before.log <= after.log
    && forall c | c in before.colls :: c in after.colls && after.colls[c].name == before.colls[c].name
  }

  lemma OneServedExtends(before: Db, after: Db, coll: nat, write: JsonRoutes.Write, now: int)
    requires OneServed(before, after, coll, write, now)
    ensures Extends(before, after)
  {
  }

  lemma {:induction false} BatchExtends(served: seq<Db>, coll: nat, writes: seq<JsonRoutes.Write>, now: int, i: nat)
    requires OneByOne(served, coll, writes, now) && i < |served|
    ensures Extends(served[0], served[i])
  {
    if i > 0 {
      BatchExtends(served, coll, writes, now, i - 1);
      OneServedExtends(served[i - 1], served[i], coll, writes[i - 1], now);
    }
  }

  lemma StepExtends(before: Db, after: Db, request: Request)
    requires Consistent(before) && Steps(before, after, request)
    ensures Extends(before, after)
  {
    match request
    case DocumentRequest(caller, coll, write, size, now, answer) =>
    case BatchRequest(coll, writes, now, served) =>
      BatchExtends(served, coll, writes, now, |served| - 1);
    case SettingsRequest(entry) =>
    case CollectionRequest(name, owner, database) =>
  }

  /** What was cut from the log stays cut from it while the log grows and the cursor advances. */
  lemma CutFromPersists(before: Db, after: Db, g: Segment, p: nat, q: nat)
    requires Extends(before, after) && CutFrom(before, g, p) && p <= q
    ensures CutFrom(after, g, q)
  {
    var i: nat, m: nat :| i <= p && SliceAt(before.log, g, i) && i + |g.ops| <= m && SnapshotsAt(before, g, m);
    assert before.log[..m] == after.log[..m];
    forall k | 0 <= k < |g.ops| ensures SnapshotAt(after, g, m, k) { assert SnapshotAt(before, g, m, k); }
    assert SliceAt(after.log, g, i) && SnapshotsAt(after, g, m);
  }

  lemma LastTile(s: Site, marks: seq<Mark>, p: nat) returns (m: Message, i: nat)
    requires Tiles(s, marks, p) && marks != []
    ensures i < p && m in s.messages && Last(marks) == MarkOf(m) && SliceAt(s.db.log, m.segment, i)
    ensures i + |m.segment.ops| == p && Tiles(s, Front(marks), i)
  {
    m, i :| 0 <= i < p && m in s.messages && Last(marks) == MarkOf(m) && SliceAt(s.db.log, m.segment, i)
      && i + |m.segment.ops| == p && Tiles(s, Front(marks), i);
  }

  lemma {:induction false} TilesPersist(s: Site, t: Site, marks: seq<Mark>, p: nat)
    requires Tiles(s, marks, p) && s.db.log <= t.db.log
    requires forall m | m in s.messages :: m in t.messages
    ensures Tiles(t, marks, p)
    decreases |marks|
  {
    if marks != [] {
      var m, i := LastTile(s, marks, p);
      TilesPersist(s, t, Front(marks), i);
      assert SliceAt(t.db.log, m.segment, i);
    }
  }

  lemma MessagesPersist(before: Db, after: Db, owner: nat, messages: seq<Message>, p: nat, q: nat)
    requires Extends(before, after) && MessagesCut(before, owner, messages, p) && p <= q
    ensures MessagesCut(after, owner, messages, q)
  {
    forall m | m in messages ensures CutFrom(after, m.segment, q) {
      CutFromPersists(before, after, m.segment, p, q);
    }
  }

  lemma WorkerPersists(before: Db, after: Db, messages: seq<Message>, worker: Worker, p: nat)
    requires Extends(before, after) && WorkerAligned(before, messages, worker, p)
    ensures WorkerAligned(after, messages, worker, p)
  {
    if worker.Built? { CutFromPersists(before, after, worker.segment, p, p); }
  }

  lemma CursorStays(s: Site, t: Site)
    requires Ascending(s.db.log) && Ascending(t.db.log) && s.db.log <= t.db.log
    requires CursorAligned(s) && t.cursor == s.cursor
    ensures CursorPosition(t) == CursorPosition(s) && CursorAligned(t)
  {
    var p := CursorPosition(s);
    HighestOfPrefix(s.db.log, p);
    PassedKeeps(s.db.log, t.db.log, s.cursor);
    assert s.db.log[..p] == t.db.log[..p];
  }

  lemma GrowthKeepsAligned(s: Site, t: Site)
    requires Aligned(s) && Extends(s.db, t.db) && t == s.(db := t.db)
    requires Ascending(s.db.log) && Ascending(t.db.log)
    ensures Aligned(t)
  {
    var p := CursorPosition(s);
    CursorStays(s, t);
    MessagesPersist(s.db, t.db, s.owner, s.messages, p, p);
    WorkerPersists(s.db, t.db, s.messages, s.worker, p);
    TilesPersist(s, t, s.marks, p);
  }

  lemma HighestOfPrefix(log: seq<Operation>, n: nat)
    requires Ascending(log) && n <= |log|
    ensures HighestId(log[..n]) <= HighestId(log)
  {
    AscendingIdsIncrease(log);
  }

  lemma {:induction false} CarriedAt(colls: map<nat, Collection>, ops: seq<Operation>, k: nat)
    requires k < |ops|
    ensures |Carry(colls, ops)| == |ops|
    ensures Carry(colls, ops)[k] == Carried(ops[k], SnapshotOf(colls, ops[k].coll))
  {
    if k < |ops| - 1 {
      CarriedAt(colls, Front(ops), k);
    } else if k > 0 {
      CarriedAt(colls, Front(ops), 0);
    }
  }

  lemma {:induction false} CollectionsKnownAt(log: seq<Operation>, known: set<nat>, i: nat)
    requires CollectionsKnown(log, known) && i < |log|
    ensures log[i].coll in known
  {
    if i < |log| - 1 { CollectionsKnownAt(Front(log), known, i); }
  }

  /** A freshly cut segment starts at the cursor. */
  lemma CutIsSlice(db: Db, cursor: nat, limit: nat, g: Segment)
    requires Ascending(db.log) && Cut(db, cursor, limit) == Some(g)
    ensures SliceAt(db.log, g, Passed(db.log, cursor))
    ensures |g.ops| == Min(limit, |db.log| - Passed(db.log, cursor))
  {
    var p := Passed(db.log, cursor);
    CutLength(db, cursor, limit, g);
    forall k | 0 <= k < |g.ops| ensures g.ops[k].op == db.log[p + k] {
      CutAt(db, cursor, limit, g, k);
    }
  }

  lemma RowsAreSlice(log: seq<Operation>, cursor: nat, limit: nat)
    requires Ascending(log)
    ensures Passed(log, cursor) <= |log|
    ensures
      var p := Passed(log, cursor);
      Take(Pending(log, cursor), limit) == log[p..p + Min(limit, |log| - p)]
  {
    PendingIsSuffix(log, cursor);
  }

  lemma CutLength(db: Db, cursor: nat, limit: nat, g: Segment)
    requires Ascending(db.log) && Cut(db, cursor, limit) == Some(g)
    ensures |g.ops| == Min(limit, |db.log| - Passed(db.log, cursor)) && g.ops != []
    ensures g.first == db.log[Passed(db.log, cursor)].id
    ensures g.last == db.log[Passed(db.log, cursor) + |g.ops| - 1].id
  {
    RowsAreSlice(db.log, cursor, limit);
    CarriedAt(db.colls, Take(Pending(db.log, cursor), limit), 0);
  }

  lemma CutAt(db: Db, cursor: nat, limit: nat, g: Segment, k: nat)
    requires Ascending(db.log) && Cut(db, cursor, limit) == Some(g) && k < |g.ops|
    ensures Passed(db.log, cursor) + k < |db.log|
    ensures
      var op := db.log[Passed(db.log, cursor) + k];
      g.ops[k] == Carried(op, SnapshotOf(db.colls, op.coll))
  {
    CutLength(db, cursor, limit, g);
    RowsAreSlice(db.log, cursor, limit);
    CarriedAt(db.colls, Take(Pending(db.log, cursor), limit), k);
  }

  /** A freshly cut segment carries the current settings. */
  lemma CutIsCurrent(db: Db, cursor: nat, limit: nat, g: Segment)
    requires Ascending(db.log) && SettingsConsistent(db) && Cut(db, cursor, limit) == Some(g)
    ensures SnapshotsAt(db, g, |db.log|)
  {
    assert db.log[..|db.log|] == db.log;
    forall k | 0 <= k < |g.ops| ensures SnapshotAt(db, g, |db.log|, k) {
      CutAt(db, cursor, limit, g, k);
      CollectionsKnownAt(db.log, db.colls.Keys, Passed(db.log, cursor) + k);
    }
  }

  lemma CutIsAligned(db: Db, cursor: nat, limit: nat, g: Segment)
    requires Ascending(db.log) && SettingsConsistent(db) && Cut(db, cursor, limit) == Some(g)
    ensures SliceAt(db.log, g, Passed(db.log, cursor)) && CutFrom(db, g, Passed(db.log, cursor))
    ensures SnapshotsAt(db, g, |db.log|)
  {
    CutIsSlice(db, cursor, limit, g);
    CutIsCurrent(db, cursor, limit, g);
  }

  lemma CursorAdvances(log: seq<Operation>, cursor: nat, g: Segment)
    requires Ascending(log) && SliceAt(log, g, Passed(log, cursor))
    requires cursor == HighestId(log[..Passed(log, cursor)])
    ensures cursor < g.last && Passed(log, g.last) == Passed(log, cursor) + |g.ops|
    ensures g.last == HighestId(log[..Passed(log, g.last)])
  {
    var p := Passed(log, cursor);
    var q := p + |g.ops|;
    AscendingIdsIncrease(log);
    assert g.last == HighestId(log[..q]);
    assert p > 0 ==> log[p - 1].id < log[q - 1].id;
    PassedAt(log, q);
  }

  lemma TilesExtend(s: Site, t: Site, m: Message, p: nat)
    requires Tiles(s, s.marks, p) && t.marks == s.marks + [MarkOf(m)]
    requires t.db.log == s.db.log && t.messages == s.messages
    requires m in s.messages && SliceAt(s.db.log, m.segment, p)
    ensures Tiles(t, t.marks, p + |m.segment.ops|)
  {
    TilesPersist(s, t, s.marks, p);
    assert Front(t.marks) == s.marks && Last(t.marks) == MarkOf(m);
  }

  lemma MarkKeepsAligned(s: Site, t: Site)
    requires Ascending(s.db.log) && Aligned(s) && Next(s, t, MarkSent)
    requires !Marked(s.marks, s.worker.message.segment.first, s.worker.message.segment.last)
    ensures Aligned(t)
  {
    var m, p := s.worker.message, CursorPosition(s);
    CursorAdvances(s.db.log, s.cursor, m.segment);
    MessagesPersist(s.db, t.db, s.owner, s.messages, p, p + |m.segment.ops|);
    TilesExtend(s, t, m, p);
  }

  lemma IdlingKeepsAligned(s: Site, t: Site)
    requires Aligned(s) && t == s.(worker := Idle)
    ensures Aligned(t)
  {
    TilesPersist(s, t, s.marks, CursorPosition(s));
  }

  lemma BuildKeepsAligned(s: Site, t: Site, limit: nat)
    requires Ascending(s.db.log) && SettingsConsistent(s.db) && Aligned(s) && Next(s, t, Build(limit))
    ensures Aligned(t)
  {
    TilesPersist(s, t, s.marks, CursorPosition(s));
    if t.worker.Built? { CutIsAligned(s.db, s.cursor, limit, t.worker.segment); }
  }

  lemma UploadKeepsAligned(s: Site, t: Site, id: nat)
    requires Aligned(s) && Next(s, t, Upload(id))
    ensures Aligned(t)
  {
    var p, m := CursorPosition(s), Message(id, s.owner, s.worker.segment);
    TilesPersist(s, t, s.marks, p);
    MessagesAdd(s.db, s.owner, s.messages, m, p);
    assert Front(t.messages) == s.messages;
  }

  lemma MessagesAdd(db: Db, owner: nat, messages: seq<Message>, m: Message, p: nat)
    requires MessagesCut(db, owner, messages, p) && m.owner == owner && CutFrom(db, m.segment, p)
    ensures MessagesCut(db, owner, messages + [m], p)
  {
  }

  lemma NextKeepsAligned(s: Site, t: Site, e: Event)
    requires Ascending(s.db.log) && SettingsConsistent(s.db) && Aligned(s) && Next(s, t, e) && !e.Write?
    ensures Aligned(t)
  {
    if e.Build? {
      BuildKeepsAligned(s, t, e.limit);
    } else if e.Upload? {
      UploadKeepsAligned(s, t, e.messageId);
    } else if e.MarkSent? && !Marked(s.marks, s.worker.message.segment.first, s.worker.message.segment.last) {
      MarkKeepsAligned(s, t);
    } else {
      IdlingKeepsAligned(s, t);
    }
  }

  lemma WriteKeepsInv(s: Site, t: Site, request: Request)
    requires BackupInv(s) && Steps(s.db, t.db, request) && t == s.(db := t.db)
    ensures BackupInv(t)
  {
    StepKeepsConsistent(s.db, t.db, request);
    StepExtends(s.db, t.db, request);
    GrowthKeepsAligned(s, t);
  }

  lemma NextKeepsInv(s: Site, t: Site, e: Event)
    requires BackupInv(s) && Next(s, t, e)
    ensures BackupInv(t)
  {
    match e
    case Write(request) => WriteKeepsInv(s, t, request);
    case _ => NextKeepsAligned(s, t, e);
  }

  ghost predicate BackupRun(run: seq<Site>, events: seq<Event>) {
    && |run| == |events| + 1 && InitialSite(run[0])
    && forall k | 0 <= k < |events| :: Next(run[k], run[k + 1], events[k])
  }

  /** The invariant holds in every state of every run, crashes included. */
  lemma {:induction false} EveryRunKeepsInv(run: seq<Site>, events: seq<Event>, i: nat)
    requires BackupRun(run, events) && i < |run|
    ensures BackupInv(run[i])
  {
    if i > 0 {
      EveryRunKeepsInv(run, events, i - 1);
      NextKeepsInv(run[i - 1], run[i], events[i - 1]);
    }
  }

  // ---------------------------------------------------------------- what the invariant means

  lemma {:induction false} TilesBelow(s: Site, marks: seq<Mark>, p: nat)
    requires Tiles(s, marks, p) && IdsIncrease(s.db.log)
    ensures p <= |s.db.log|
    ensures forall k | 0 <= k < |marks| :: 0 < marks[k].first <= marks[k].last <= HighestId(s.db.log[..p])
    decreases |marks|
  {
    if marks != [] {
      var m, i := LastTile(s, marks, p);
      TilesBelow(s, Front(marks), i);
      assert HighestId(s.db.log[..p]) == Last(marks).last;
      assert HighestId(s.db.log[..i]) <= Last(marks).last;
      forall k | 0 <= k < |marks| - 1 ensures 0 < marks[k].first <= marks[k].last <= Last(marks).last {
        assert marks[k] == Front(marks)[k];
      }
    }
  }

  lemma {:induction false} TilesInOrder(s: Site, marks: seq<Mark>, p: nat, k: nat, l: nat)
    requires Tiles(s, marks, p) && IdsIncrease(s.db.log) && k < l < |marks|
    ensures marks[k].last < marks[l].first
    decreases |marks|
  {
    var m, i := LastTile(s, marks, p);
    if l < |marks| - 1 {
      TilesInOrder(s, Front(marks), i, k, l);
    } else {
      TilesBelow(s, Front(marks), i);
      assert marks[k] == Front(marks)[k];
      assert HighestId(s.db.log[..i]) < Last(marks).first;
    }
  }

  /** The cursor never goes back, and marking never violates the (database, first, last) constraint. */
  lemma CursorNeverGoesBack(s: Site, t: Site, e: Event)
    requires BackupInv(s) && Next(s, t, e)
    ensures s.cursor <= t.cursor
    ensures s.worker.Sent? ==> !Marked(s.marks, s.worker.message.segment.first, s.worker.message.segment.last)
  {
    if s.worker.Sent? {
      var g := s.worker.message.segment;
      AscendingIdsIncrease(s.db.log);
      TilesBelow(s, s.marks, CursorPosition(s));
      PendingIsSuffix(s.db.log, s.cursor);
      assert s.cursor < g.first;
    }
  }

  /** The message carries the operation. */
  predicate Carries(m: Message, op: Operation) {
    exists k :: 0 <= k < |m.segment.ops| && m.segment.ops[k].op == op
  }

  ghost predicate Uploaded(messages: seq<Message>, op: Operation) {
    exists m :: m in messages && Carries(m, op)
  }

  lemma SliceCarries(log: seq<Operation>, m: Message, i: nat, k: nat)
    requires SliceAt(log, m.segment, i) && i <= k < i + |m.segment.ops|
    ensures Carries(m, log[k])
  {
    assert m.segment.ops[k - i].op == log[k];
  }

  /** Every operation the marks have passed was uploaded. */
  lemma {:induction false} MarkedIsUploaded(s: Site, marks: seq<Mark>, p: nat, k: nat)
    requires Tiles(s, marks, p) && k < p <= |s.db.log|
    ensures Uploaded(s.messages, s.db.log[k])
    decreases |marks|
  {
    var m, i := LastTile(s, marks, p);
    if k >= i {
      SliceCarries(s.db.log, m, i, k);
    } else {
      MarkedIsUploaded(s, Front(marks), i, k);
    }
  }

  lemma SliceSpans(log: seq<Operation>, g: Segment, i: nat, k: nat)
    requires SliceAt(log, g, i) && IdsIncrease(log) && i <= k < i + |g.ops|
    ensures g.first <= log[k].id <= g.last
  {
  }

  /** Every operation the marks have passed is inside one of them. */
  lemma {:induction false} MarkedIsInside(s: Site, marks: seq<Mark>, p: nat, k: nat) returns (n: nat)
    requires Tiles(s, marks, p) && k < p <= |s.db.log| && IdsIncrease(s.db.log)
    ensures n < |marks| && marks[n].first <= s.db.log[k].id <= marks[n].last
    decreases |marks|
  {
    var m, i := LastTile(s, marks, p);
    if k >= i {
      n := |marks| - 1;
      SliceSpans(s.db.log, m.segment, i, k);
    } else {
      n := MarkedIsInside(s, Front(marks), i, k);
    }
  }

  /** In every reachable state the marks tile the operations up to the cursor: an operation is at or
      below the cursor exactly when it is in one of them, no two of them overlap or are out of order,
      and whatever is at or below the cursor has been uploaded. */
  lemma MarksTileTheLog(s: Site, k: nat)
    requires BackupInv(s) && k < |s.db.log|
    ensures s.db.log[k].id <= s.cursor ==> Uploaded(s.messages, s.db.log[k])
    ensures s.db.log[k].id <= s.cursor <==>
            exists n :: 0 <= n < |s.marks| && s.marks[n].first <= s.db.log[k].id <= s.marks[n].last
    ensures forall m, n | 0 <= m < n < |s.marks| :: s.marks[m].last < s.marks[n].first
  {
    var p := CursorPosition(s);
    AscendingIdsIncrease(s.db.log);
    TilesBelow(s, s.marks, p);
    forall m, n | 0 <= m < n < |s.marks|
      ensures s.marks[m].last < s.marks[n].first
    {
      TilesInOrder(s, s.marks, p, m, n);
    }
    PendingIsSuffix(s.db.log, s.cursor);
    if k < p {
      MarkedIsUploaded(s, s.marks, p, k);
      var _ := MarkedIsInside(s, s.marks, p, k);
    }
  }

  /** How far into the log the uploaded messages reach. */
  function Reach(log: seq<Operation>, messages: seq<Message>): nat {
    if messages == [] then 0
    else
      var before := Reach(log, Front(messages));
      var end := Passed(log, Last(messages).segment.last);
      if before < end then end else before
  }

  lemma SliceEnd(log: seq<Operation>, g: Segment, i: nat)
    requires Ascending(log) && SliceAt(log, g, i)
    ensures Passed(log, g.last) == i + |g.ops|
  {
    assert g.last == HighestId(log[..i + |g.ops|]);
    PassedAt(log, i + |g.ops|);
  }

  lemma {:induction false} ReachIsAttained(log: seq<Operation>, messages: seq<Message>)
    ensures forall m | m in messages :: Passed(log, m.segment.last) <= Reach(log, messages)
    ensures messages != [] ==> exists m :: m in messages && Passed(log, m.segment.last) == Reach(log, messages)
  {
    if messages != [] {
      ReachIsAttained(log, Front(messages));
      var last := Last(messages);
      assert messages == Front(messages) + [last];
      if Passed(log, last.segment.last) == Reach(log, messages) {
        assert last in messages;
      } else {
        var m :| m in Front(messages) && Passed(log, m.segment.last) == Reach(log, Front(messages));
        assert m in messages;
      }
    }
  }

  lemma SliceStart(s: Site, m: Message) returns (i: nat)
    requires Aligned(s) && m in s.messages
    ensures i <= CursorPosition(s) && SliceAt(s.db.log, m.segment, i)
  {
    assert CutFrom(s.db, m.segment, CursorPosition(s));
    i :| i <= CursorPosition(s) && SliceAt(s.db.log, m.segment, i);
  }

  lemma ReachPassesCursor(s: Site)
    requires Ascending(s.db.log) && Aligned(s)
    ensures CursorPosition(s) <= Reach(s.db.log, s.messages)
  {
    if s.marks != [] {
      var m, i := LastTile(s, s.marks, CursorPosition(s));
      SliceEnd(s.db.log, m.segment, i);
      ReachIsAttained(s.db.log, s.messages);
    }
  }

  lemma ReachIsUploaded(s: Site, k: nat)
    requires Ascending(s.db.log) && Aligned(s) && k < Reach(s.db.log, s.messages) && k < |s.db.log|
    ensures Uploaded(s.messages, s.db.log[k])
  {
    ReachIsAttained(s.db.log, s.messages);
    var far :| far in s.messages && Passed(s.db.log, far.segment.last) == Reach(s.db.log, s.messages);
    var i := SliceStart(s, far);
    SliceEnd(s.db.log, far.segment, i);
    if k < CursorPosition(s) {
      MarkedIsUploaded(s, s.marks, CursorPosition(s), k);
    } else {
      SliceCarries(s.db.log, far, i, k);
    }
  }

  lemma PositionInSlice(log: seq<Operation>, m: Message, i: nat, op: Operation) returns (k: nat)
    requires SliceAt(log, m.segment, i) && Carries(m, op)
    ensures i <= k < i + |m.segment.ops| && k < |log| && log[k] == op
  {
    var j :| 0 <= j < |m.segment.ops| && m.segment.ops[j].op == op;
    k := i + j;
  }

  lemma UploadedIsReached(s: Site, op: Operation) returns (k: nat)
    requires Ascending(s.db.log) && Aligned(s) && Uploaded(s.messages, op)
    ensures k < Reach(s.db.log, s.messages) && k < |s.db.log| && s.db.log[k] == op
  {
    var m :| m in s.messages && Carries(m, op);
    var i := SliceStart(s, m);
    SliceEnd(s.db.log, m.segment, i);
    ReachIsAttained(s.db.log, s.messages);
    k := PositionInSlice(s.db.log, m, i, op);
  }

  lemma ReachWithinLog(s: Site)
    requires Ascending(s.db.log) && Aligned(s)
    ensures Reach(s.db.log, s.messages) <= |s.db.log|
  {
    ReachIsAttained(s.db.log, s.messages);
    if s.messages != [] {
      var far :| far in s.messages && Passed(s.db.log, far.segment.last) == Reach(s.db.log, s.messages);
      PendingIsSuffix(s.db.log, far.segment.last);
    }
  }

  /** The uploads always cover exactly a prefix of the log, crashes and overlaps included; it
      reaches at least as far as the cursor. */
  lemma UploadsCoverPrefix(s: Site)
    requires BackupInv(s)
    ensures CursorPosition(s) <= Reach(s.db.log, s.messages) <= |s.db.log|
    ensures forall op :: Uploaded(s.messages, op) <==> op in s.db.log[..Reach(s.db.log, s.messages)]
  {
    ReachPassesCursor(s);
    ReachWithinLog(s);
    var covered := s.db.log[..Reach(s.db.log, s.messages)];
    forall op | Uploaded(s.messages, op) ensures op in covered {
      var k := UploadedIsReached(s, op);
      assert covered[k] == op;
    }
    forall op | op in covered ensures Uploaded(s.messages, op) {
      var k :| 0 <= k < |covered| && covered[k] == op;
      ReachIsUploaded(s, k);
    }
  }

  // ---------------------------------------------------------------- lag

  /** `lag_operations` of the status route. */
  function Lag(log: seq<Operation>, cursor: nat): nat {
    Max(0, HighestId(log) - cursor)
  }

  /** The ids from position `n` on follow the one before it without a gap. */
  predicate Consecutive(log: seq<Operation>, n: nat)
    requires n <= |log|
  {
    forall k | n <= k < |log| :: log[k].id == HighestId(log[..n]) + 1 + (k - n)
  }

  lemma {:induction false} IdsBoundCount(log: seq<Operation>, n: nat)
    requires Ascending(log) && n <= |log|
    ensures |log| - n <= HighestId(log) - HighestId(log[..n])
    ensures |log| - n == HighestId(log) - HighestId(log[..n]) <==> Consecutive(log, n)
  {
    if n < |log| {
      var front := Front(log);
      IdsBoundCount(front, n);
      assert front[..n] == log[..n];
      assert forall k | n <= k < |front| :: front[k] == log[k];
      assert Consecutive(log, n) <==> Consecutive(front, n) && Last(log).id == HighestId(log[..n]) + |log| - n;
    } else {
      assert log[..n] == log;
    }
  }

  /** The reported lag is 0 exactly when nothing is pending, and never below the pending count; it is
      that count if and only if the pending ids follow the cursor without a gap. */
  lemma LagBoundsPending(s: Site)
    requires BackupInv(s)
    ensures Lag(s.db.log, s.cursor) == 0 <==> Pending(s.db.log, s.cursor) == []
    ensures |Pending(s.db.log, s.cursor)| <= Lag(s.db.log, s.cursor)
    ensures
      var pending := Pending(s.db.log, s.cursor);
      Lag(s.db.log, s.cursor) == |pending| <==> forall k | 0 <= k < |pending| :: pending[k].id == s.cursor + 1 + k
  {
    PendingIsSuffix(s.db.log, s.cursor);
    IdsBoundCount(s.db.log, CursorPosition(s));
    PendingIsConsecutive(s.db.log, CursorPosition(s), s.cursor);
  }

  lemma PendingIsConsecutive(log: seq<Operation>, n: nat, cursor: nat)
    requires n <= |log| && cursor == HighestId(log[..n])
    ensures Consecutive(log, n) <==> forall k | 0 <= k < |log[n..]| :: log[n..][k].id == cursor + 1 + k
  {
    var rest := log[n..];
    assert forall k | 0 <= k < |rest| :: rest[k] == log[n + k];
    if forall k | 0 <= k < |rest| :: rest[k].id == cursor + 1 + k {
      forall k | n <= k < |log| ensures log[k].id == cursor + 1 + (k - n) {
        assert rest[k - n] == log[k];
      }
    }
  }
}
