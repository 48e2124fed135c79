/** What the records of backup and restore say, field by field: segment records, the order of the backlog, the
    survivors of deduplication, and the report of a restore. */
module BackupRecords {
  import opened Prelude
  import opened Sorting
  import opened OperationLog
  import opened JsonRoutes
  import opened Backup
  import opened Restore
  import BackupWorker
  import RoundTrip

  // ---------------------------------------------------------------- segment records

  lemma {:induction false} TileAt(s: Site, marks: seq<Mark>, p: nat, k: nat) returns (m: Message, i: nat)
    requires Tiles(s, marks, p) && k < |marks|
    ensures m in s.messages && marks[k] == MarkOf(m) && SliceAt(s.db.log, m.segment, i)
    decreases |marks|
  {
    m, i := LastTile(s, marks, p);
    if k < |marks| - 1 { m, i := TileAt(s, Front(marks), i, k); }
  }

  /** A RECORD TELLS THE TRUTH: it names a message of the chat that carries, in order, as many operations of the
      log as the record counts, from the one it names first to the one it names last. */
  lemma RecordIsTrue(s: Site, k: nat) returns (m: Message, i: nat)
    requires BackupInv(s) && k < |s.marks|
    ensures m in s.messages && m.id == s.marks[k].message && m.owner == s.owner
    ensures 0 < s.marks[k].count == |m.segment.ops| && i + s.marks[k].count <= |s.db.log|
    ensures s.db.log[i].id == s.marks[k].first && s.db.log[i + s.marks[k].count - 1].id == s.marks[k].last
    ensures forall j | 0 <= j < s.marks[k].count :: m.segment.ops[j].op == s.db.log[i + j]
  {
    m, i := TileAt(s, s.marks, CursorPosition(s), k);
  }

  /** A restore writes its records from the messages in the same way. */
  lemma {:induction false} RestoredRecordIsTrue(marks: seq<Mark>, segments: seq<Message>, k: nat)
    requires k < |RecordSegments(marks, segments)|
    ensures
      var mark := RecordSegments(marks, segments)[k];
      mark in marks || exists m :: m in segments && RecordOf(mark, m)
  {
    if segments != [] {
      var before, m := RecordSegments(marks, Front(segments)), Last(segments);
      assert segments == Front(segments) + [m];
      if k < |before| {
        RestoredRecordIsTrue(marks, Front(segments), k);
        if before[k] !in marks {
          var earlier :| earlier in Front(segments) && RecordOf(before[k], earlier);
          assert earlier in segments;
        }
      } else {
        assert RecordOf(RecordSegments(marks, segments)[k], m);
      }
    }
  }

  /** The record has the message's id, the ids of its first and last operation and their number. */
  predicate RecordOf(mark: Mark, m: Message) {
    && mark.first == m.segment.first && mark.last == m.segment.last
    && mark.count == |m.segment.ops| && mark.message == m.id
  }

  // ---------------------------------------------------------------- the backlog

  lemma {:induction false} PendingMembers(log: seq<Operation>, cursor: nat, op: Operation)
    ensures op in Pending(log, cursor) <==> op in log && cursor < op.id
  {
    if log != [] {
      PendingMembers(Front(log), cursor, op);
      assert log == Front(log) + [Last(log)];
    }
  }

  /** THE OLDEST of a database's pending operations is the one with the lowest id above its cursor. */
  lemma OldestIsLowest(sites: seq<Site>, d: nat, op: Operation)
    requires d < |sites| && Ascending(sites[d].db.log) && op in sites[d].db.log && sites[d].cursor < op.id
    ensures BackupWorker.HasPending(sites[d]) && BackupWorker.OldestPending(sites, d) <= op.id
    ensures exists x :: x in sites[d].db.log && sites[d].cursor < x.id && x.id == BackupWorker.OldestPending(sites, d)
  {
    var log, cursor := sites[d].db.log, sites[d].cursor;
    var pending := Pending(log, cursor);
    PendingMembers(log, cursor, op);
    PendingMembers(log, cursor, pending[0]);
    PendingIsSuffix(log, cursor);
    AscendingIdsIncrease(log);
    var k :| 0 <= k < |pending| && pending[k] == op;
    assert pending[0] in pending;
  }

  /** A database is in the backlog exactly if some operation of its log is above its cursor. */
  lemma BacklogIs(s: Site)
    ensures BackupWorker.HasPending(s) <==> exists op :: op in s.db.log && s.cursor < op.id
  {
    var pending := Pending(s.db.log, s.cursor);
    if pending != [] {
      assert pending[0] in pending;
      PendingMembers(s.db.log, s.cursor, pending[0]);
    }
    if op :| op in s.db.log && s.cursor < op.id { PendingMembers(s.db.log, s.cursor, op); }
  }

  // ---------------------------------------------------------------- survivors

  predicate SameRange(a: Message, b: Message) {
    a.owner == b.owner && a.segment.first == b.segment.first && a.segment.last == b.segment.last
  }

  lemma {:induction false} StrictAt(kept: seq<Message>, i: nat, j: nat)
    requires StrictlyOrdered(kept) && i < j < |kept|
    ensures RangeLess(RangeOf(kept[i]), RangeOf(kept[j]))
  {
    if j < |kept| - 1 { StrictAt(Front(kept), i, j); } else { assert kept[i] == Front(kept)[i]; }
  }

  /** SURVIVORS.  Of every range the newest message survives, and only one; per owner they stand in the order of
      their first operations, and where those are the same, of their last. */
  lemma SurvivorsAreNewest(arrived: seq<Message>, kept: seq<Message>)
    requires Deduped(arrived, kept)
    ensures forall m | m in kept :: m in arrived && forall a | a in arrived && SameRange(a, m) :: a.id <= m.id
    ensures forall a | a in arrived :: exists m :: m in kept && SameRange(a, m)
    ensures forall i, j | 0 <= i < j < |kept| :: !SameRange(kept[i], kept[j])
    ensures forall i, j | 0 <= i < j < |kept| && kept[i].owner == kept[j].owner ::
              kept[i].segment.first < kept[j].segment.first
              || (kept[i].segment.first == kept[j].segment.first && kept[i].segment.last < kept[j].segment.last)
  {
    forall i, j | 0 <= i < j < |kept| ensures RangeLess(RangeOf(kept[i]), RangeOf(kept[j])) { StrictAt(kept, i, j); }
    forall a | a in arrived ensures exists m :: m in kept && SameRange(a, m) {
      var m := SurvivorOf(kept, a);
    }
    forall m, a | m in kept && a in arrived && SameRange(a, m) ensures a.id <= m.id {
      var n := SurvivorOf(kept, a);
      SameRangeSameSurvivor(kept, m, n);
    }
  }

  // ---------------------------------------------------------------- the report of a restore

  function OperationCount(segments: seq<Message>): nat {
    if segments == [] then 0 else OperationCount(Front(segments)) + |Last(segments).segment.ops|
  }

  lemma {:induction false} FlattenCounts(segments: seq<Message>)
    ensures |Flatten(segments)| == OperationCount(segments)
  {
    if segments != [] { FlattenCounts(Front(segments)); }
  }

  /** Some segment carries an operation with this id. */
  ghost predicate HasOperation(segments: seq<Message>, id: nat) {
    exists m, raw :: m in segments && raw in m.segment.ops && raw.op.id == id
  }

  lemma SortedEnds(segments: seq<Message>, sorted: seq<Carried>, m: Message, raw: Carried)
    requires sorted == SortedOperations(segments) && m in segments && raw in m.segment.ops
    ensures sorted != [] && sorted[0].op.id <= raw.op.id <= Last(sorted).op.id
  {
    var flat := Flatten(segments);
    RoundTrip.OpIdLeIsOrder();
    SortSorts(flat, OpIdLe);
    SortMembers(flat, OpIdLe);
    RoundTrip.FlattenMembers(segments, raw);
    var k :| 0 <= k < |sorted| && sorted[k] == raw;
    assert k > 0 ==> OpIdLe(sorted[0], sorted[k]);
    assert k < |sorted| - 1 ==> OpIdLe(sorted[k], sorted[|sorted| - 1]);
  }

  lemma SortedIsCarried(segments: seq<Message>, raw: Carried)
    requires raw in SortedOperations(segments)
    ensures HasOperation(segments, raw.op.id)
  {
    SortMembers(Flatten(segments), OpIdLe);
    RoundTrip.FlattenMembers(segments, raw);
  }

  /** THE REPORT counts the segments and the operations in them, and names the lowest and the highest id. */
  lemma ReportIsTrue(segments: seq<Message>, dryRun: bool, m: Message, raw: Carried)
    requires m in segments && raw in m.segment.ops
    ensures
      var report := Report(segments, dryRun);
      && report.segments == |segments| && report.operations == OperationCount(segments) && report.dryRun == dryRun
      && report.first.Some? && report.last.Some? && report.first.value <= raw.op.id <= report.last.value
      && HasOperation(segments, report.first.value) && HasOperation(segments, report.last.value)
  {
    var sorted := SortedOperations(segments);
    FlattenCounts(segments);
    SortKeeps(Flatten(segments), OpIdLe);
    SortedEnds(segments, sorted, m, raw);
    assert sorted[0] in sorted && Last(sorted) in sorted;
    SortedIsCarried(segments, sorted[0]);
    SortedIsCarried(segments, Last(sorted));
  }

  // ---------------------------------------------------------------- the restored log

  /** A CONFLICT is reported exactly if the interpreter accepts the operation and the target has logged its id
      for another kind of operation or another document. */
  lemma ConflictExactly(rep: Replica, name: string, op: Operation)
    requires ReplayNamed(rep.docs, name, op).Success?
    ensures ReplayOperation(rep, name, op) == Failure(LocalIdConflict(op.id)) <==>
            op.id in rep.log && (rep.log[op.id].op != op.op || rep.log[op.id].docId != op.docId)
    ensures ReplayOperation(rep, name, op).Failure? ==>
            ReplayOperation(rep, name, op) == Failure(LocalIdConflict(op.id))
  {
  }

  /** A new id is logged with the collection's name and the operation's own fields; no other row changes. */
  lemma LoggedAsItIs(rep: Replica, name: string, op: Operation)
    requires ReplayOperation(rep, name, op).Success?
    ensures
      var log := ReplayOperation(rep, name, op).value.log;
      && op.id in log && (forall id | id in rep.log :: id in log && log[id] == rep.log[id])
      && (forall id | id in log :: id in rep.log || id == op.id)
      && (op.id !in rep.log ==>
            log[op.id].coll == name && log[op.id].docId == op.docId && log[op.id].owner == op.owner
            && log[op.id].op == op.op && log[op.id].payload == op.payload)
  {
  }

  /** THE CURSOR of a target never goes back, and lies at or above every operation that was restored. */
  lemma CursorNeverFalls(rep: Replica, segments: seq<Message>, after: Replica, m: Message, raw: Carried)
    requires RestoreInto(rep, segments) == Success(after) && m in segments && raw in m.segment.ops
    ensures after.cursor.Some? && raw.op.id <= after.cursor.value
    ensures rep.cursor.Some? ==> rep.cursor.value <= after.cursor.value
    ensures (rep.cursor.Some? && rep.cursor.value == after.cursor.value) || HasOperation(segments, after.cursor.value)
  {
    var sorted := SortedOperations(segments);
    SortedEnds(segments, sorted, m, raw);
    assert Last(sorted) in sorted;
    SortedIsCarried(segments, Last(sorted));
    LastOfReplay(rep, segments, after, sorted);
  }

  lemma LastOfReplay(rep: Replica, segments: seq<Message>, after: Replica, sorted: seq<Carried>)
    requires RestoreInto(rep, segments) == Success(after) && sorted == SortedOperations(segments) && sorted != []
    requires segments != []
    ensures after.cursor == Some(match rep.cursor
                                 case None => Last(sorted).op.id
                                 case Some(c) => if c < Last(sorted).op.id then Last(sorted).op.id else c)
  {
  }

  // ---------------------------------------------------------------- one turn of the worker

  /** A TURN, outcome by outcome.  Nothing sent: nothing changes.  Sent but not acknowledged: the chat has one
      more message, with the next pending operations.  Delivered: they are also recorded, and the cursor is at
      the last of them. */
  lemma TurnExactly(s: Site, limit: nat, outcome: BackupWorker.Outcome, g: Segment)
    requires Cut(s.db, s.cursor, limit) == Some(g) && Ascending(s.db.log)
    ensures
      var t := BackupWorker.AfterTurn(s, limit, outcome);
      && t.db == s.db && t.owner == s.owner && t.worker == s.worker
      && (outcome.NotSent? ==> t == s)
      && (!outcome.NotSent? ==>
            && |t.messages| == |s.messages| + 1 && s.messages <= t.messages
            && Last(t.messages).segment == g && Last(t.messages).owner == s.owner)
      && (!outcome.Delivered? ==> t.marks == s.marks && t.cursor == s.cursor)
      && (outcome.Delivered? ==>
            && |t.marks| == |s.marks| + 1 && s.marks <= t.marks && RecordOf(Last(t.marks), Last(t.messages))
            && t.cursor == g.last && s.cursor < g.last)
    ensures SliceAt(s.db.log, g, Passed(s.db.log, s.cursor))
  {
    CutIsSlice(s.db, s.cursor, limit, g);
    PendingIsSuffix(s.db.log, s.cursor);
    AscendingIdsIncrease(s.db.log);
  }

  /** A database with nothing pending is left alone. */
  lemma IdleTurnExactly(s: Site, limit: nat, outcome: BackupWorker.Outcome)
    requires Cut(s.db, s.cursor, limit).None?
    ensures BackupWorker.AfterTurn(s, limit, outcome) == s
  {
  }
}
