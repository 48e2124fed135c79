/** Restoring a database from backup messages: dedupe, sort, replay, record. */
module Restore {
  import opened Prelude
  import opened Sorting
  import opened OperationLog
  import opened JsonRoutes
  import opened Backup

  // ---------------------------------------------------------------- dedupe

  type Range = (nat, nat, nat)

  function RangeOf(m: Message): Range {
    (m.owner, m.segment.first, m.segment.last)
  }

  predicate RangeLess(a: Range, b: Range) {
    a.0 < b.0 || (a.0 == b.0 && (a.1 < b.1 || (a.1 == b.1 && a.2 < b.2)))
  }

  predicate RangeLe(a: Message, b: Message) {
    !RangeLess(RangeOf(b), RangeOf(a))
  }

  /** Some kept message has this one's range and no smaller id. */
  predicate HasSurvivor(kept: seq<Message>, m: Message) {
    kept != [] &&
    (HasSurvivor(Front(kept), m) || (RangeOf(Last(kept)) == RangeOf(m) && m.id <= Last(kept).id))
  }

  lemma {:induction false} SurvivorOf(kept: seq<Message>, m: Message) returns (k: Message)
    requires HasSurvivor(kept, m)
    ensures k in kept && RangeOf(k) == RangeOf(m) && m.id <= k.id
  {
    if HasSurvivor(Front(kept), m) { k := SurvivorOf(Front(kept), m); } else { k := Last(kept); }
  }

  lemma {:induction false} SurvivorIn(kept: seq<Message>, m: Message, k: Message)
    requires k in kept && RangeOf(k) == RangeOf(m) && m.id <= k.id
    ensures HasSurvivor(kept, m)
  {
    assert kept == Front(kept) + [Last(kept)];
    if k in Front(kept) { SurvivorIn(Front(kept), m, k); }
  }

  /** One survivor per range, the one with the highest message id, in range order. */
  ghost predicate Deduped(segments: seq<Message>, kept: seq<Message>) {
    && (forall m | m in kept :: m in segments)
    && (forall m | m in segments :: HasSurvivor(kept, m))
    && StrictlyOrdered(kept)
  }

  /** In strictly increasing range order. */
  predicate StrictlyOrdered(xs: seq<Message>) {
    xs == [] || (StrictlyOrdered(Front(xs)) && forall m | m in Front(xs) :: RangeLess(RangeOf(m), RangeOf(Last(xs))))
  }

  lemma {:induction false} InsertStrict(xs: seq<Message>, x: Message)
    requires StrictlyOrdered(xs) && forall m | m in xs :: RangeOf(m) != RangeOf(x)
    ensures StrictlyOrdered(Insert(xs, x, RangeLe))
  {
    if xs != [] {
      var last := Last(xs);
      assert last in xs;
      if RangeLe(last, x) {
        assert Front(xs + [x]) == xs && xs == Front(xs) + [last];
      } else {
        var lower := Insert(Front(xs), x, RangeLe);
        assert xs == Front(xs) + [last];
        InsertStrict(Front(xs), x);
        assert Front(lower + [last]) == lower;
        forall m | m in lower ensures RangeLess(RangeOf(m), RangeOf(last)) {
          InsertMembers(Front(xs), x, RangeLe, m);
        }
      }
    }
  }

  predicate RangesDistinct(xs: seq<Message>) {
    xs == [] || (RangesDistinct(Front(xs)) && forall m | m in Front(xs) :: RangeOf(m) != RangeOf(Last(xs)))
  }

  lemma {:induction false} SortIsStrict(values: seq<Message>)
    requires RangesDistinct(values)
    ensures StrictlyOrdered(StableSort(values, RangeLe))
  {
    if values != [] {
      SortIsStrict(Front(values));
      SortMembers(Front(values), RangeLe);
      InsertStrict(StableSort(Front(values), RangeLe), Last(values));
    }
  }

  /** The loop's dictionary: per range seen so far, the message with the highest id. */
  ghost predicate Best(byRange: map<Range, Message>, seen: seq<Message>) {
    && (forall key | key in byRange :: byRange[key] in seen && RangeOf(byRange[key]) == key)
    && (forall m | m in seen :: RangeOf(m) in byRange && m.id <= byRange[RangeOf(m)].id)
  }

  method DedupeSegments(segments: seq<Message>) returns (kept: seq<Message>)
    ensures Deduped(segments, kept)
  {
    var order: seq<Range>, byRange: map<Range, Message> := [], map[];
    for n := 0 to |segments|
      invariant forall key :: key in byRange <==> key in order
      invariant NoDuplicates(order)
      invariant Best(byRange, segments[..n])
    {
      var segment := segments[n];
      var key := RangeOf(segment);
      assert segments[..n + 1] == segments[..n] + [segment];
      if key !in byRange {
        order := order + [key];
        byRange := byRange[key := segment];
      } else if segment.id > byRange[key].id {
        byRange := byRange[key := segment];
      }
    }
    assert segments[..|segments|] == segments;
    var values: seq<Message> := [];
    for n := 0 to |order|
      invariant |values| == n
      invariant forall i | 0 <= i < n :: order[i] in byRange && values[i] == byRange[order[i]]
    {
      values := values + [byRange[order[n]]];
    }
    ValuesAreDistinct(order, byRange, values);
    SortIsStrict(values);
    SortMembers(values, RangeLe);
    kept := StableSort(values, RangeLe);
    forall m | m in segments ensures HasSurvivor(kept, m) {
      var i :| 0 <= i < |order| && order[i] == RangeOf(m);
      assert values[i] in values;
      SurvivorIn(kept, m, values[i]);
    }
  }

  lemma {:induction false} ValuesAreDistinct(order: seq<Range>, byRange: map<Range, Message>, values: seq<Message>)
    requires |values| == |order| && NoDuplicates(order)
    requires forall i | 0 <= i < |order| :: order[i] in byRange && values[i] == byRange[order[i]]
    requires forall key | key in byRange :: RangeOf(byRange[key]) == key
    ensures RangesDistinct(values)
  {
    if values != [] {
      ValuesAreDistinct(Front(order), byRange, Front(values));
      forall m | m in Front(values) ensures RangeOf(m) != RangeOf(Last(values)) {
        var i :| 0 <= i < |values| - 1 && values[i] == m;
        assert order[i] in Front(order);
      }
    }
  }

  ghost predicate IdsDistinct(segments: seq<Message>) {
    forall a, b | a in segments && b in segments && a.id == b.id :: a == b
  }

  lemma HasMember(xs: seq<Message>)
    requires xs != []
    ensures exists m :: m in xs
  {
    assert xs[0] in xs;
  }

  lemma {:induction false} OrderedSame(x: seq<Message>, y: seq<Message>)
    requires StrictlyOrdered(x) && StrictlyOrdered(y)
    requires forall m :: m in x <==> m in y
    ensures x == y
  {
    if x == [] || y == [] {
      if x != [] { HasMember(x); }
      if y != [] { HasMember(y); }
    } else {
      assert x == Front(x) + [Last(x)] && y == Front(y) + [Last(y)];
      assert Last(x) in y && Last(y) in x;
      assert Last(x) == Last(y);
      forall m ensures m in Front(x) <==> m in Front(y) {
        assert m in Front(x) ==> m in y && RangeLess(RangeOf(m), RangeOf(Last(x)));
        assert m in Front(y) ==> m in x && RangeLess(RangeOf(m), RangeOf(Last(y)));
      }
      OrderedSame(Front(x), Front(y));
    }
  }

  /** The survivors depend only on which messages arrived, not on their order or repetition. */
  lemma DedupeIgnoresArrival(a: seq<Message>, b: seq<Message>, keptA: seq<Message>, keptB: seq<Message>)
    requires IdsDistinct(a) && forall m :: m in a <==> m in b
    requires Deduped(a, keptA) && Deduped(b, keptB)
    ensures keptA == keptB
  {
    forall m | m in keptA ensures m in keptB { SurvivorSurvives(a, keptA, b, keptB, m); }
    forall m | m in keptB ensures m in keptA { SurvivorSurvives(b, keptB, a, keptA, m); }
    OrderedSame(keptA, keptB);
  }

  lemma SurvivorSurvives(a: seq<Message>, keptA: seq<Message>, b: seq<Message>, keptB: seq<Message>, m: Message)
    requires IdsDistinct(a) && forall m :: m in a <==> m in b
    requires Deduped(a, keptA) && Deduped(b, keptB) && m in keptA
    ensures m in keptB
  {
    assert m in b;
    var k := SurvivorOf(keptB, m);
    assert k in a;
    var n := SurvivorOf(keptA, k);
    SameRangeSameSurvivor(keptA, m, n);
  }

  lemma {:induction false} SameRangeSameSurvivor(kept: seq<Message>, m: Message, n: Message)
    requires StrictlyOrdered(kept) && m in kept && n in kept && RangeOf(m) == RangeOf(n)
    ensures m == n
  {
    assert kept == Front(kept) + [Last(kept)];
    if m in Front(kept) && n in Front(kept) { SameRangeSameSurvivor(Front(kept), m, n); }
  }

  /** Deduplicating again changes nothing. */
  lemma DedupeIsIdempotent(segments: seq<Message>, kept: seq<Message>, again: seq<Message>)
    requires IdsDistinct(segments) && Deduped(segments, kept) && Deduped(kept, again)
    ensures again == kept
  {
    forall m | m in kept ensures HasSurvivor(kept, m) { SurvivorIn(kept, m, m); }
    DedupeIgnoresArrival(kept, kept, again, kept);
  }

  // ---------------------------------------------------------------- the target database

  /** A row of the target's operation table; its collection is identified by name. */
  datatype LoggedRow = LoggedRow(coll: string, docId: Option<string>, owner: Option<string>, op: OpName,
                                 payload: Payload)

  type NamedKey = (string, string)

  /** The target database: its collections are identified by their unique names. */
  datatype Replica = Replica(
    colls: map<string, Config>, docs: map<NamedKey, Document>, log: map<nat, LoggedRow>,
    marks: seq<Mark>, cursor: Option<nat>)

  const EMPTY_REPLICA := Replica(map[], map[], map[], [], None)

  datatype RestoreError = NoOperations | ReplayFailed(error: ReplayError)

  function RowFor(name: string, op: Operation): LoggedRow {
    LoggedRow(name, op.docId, op.owner, op.op, op.payload)
  }

  /** The effect of one operation on the documents of the target, under collection `name`. */
  function ReplayNamed(docs: map<NamedKey, Document>, name: string, op: Operation)
    : Result<map<NamedKey, Document>, ReplayError>
  {
    if op.op.CollectionOp? || op.op.RulesOp? || op.op.ValidatorOp? then Success(docs)
    else if op.op.UnknownOp? then Failure(UnsupportedOperation(op.id))
    else if op.docId.None? then Failure(MissingDocId(op.id))
    else
      match ReplayDocument(Lookup(docs, (name, op.docId.value)), op)
      case Failure(e) => Failure(e)
      case Success(row) => Success(docs[(name, op.docId.value) := row])
  }

  /** `_replay_operation`: apply the operation, then log it under its own id unless it is there. */
  function ReplayOperation(rep: Replica, name: string, op: Operation): Result<Replica, ReplayError> {
    match ReplayNamed(rep.docs, name, op)
    case Failure(e) => Failure(e)
    case Success(docs) =>
      var colls := if name in rep.colls then rep.colls[name := ApplyConfig(rep.colls[name], op)] else rep.colls;
      if op.id !in rep.log then
        Success(rep.(colls := colls, docs := docs, log := rep.log[op.id := RowFor(name, op)]))
      else if rep.log[op.id].op != op.op || rep.log[op.id].docId != op.docId then
        Failure(LocalIdConflict(op.id))
      else
        Success(rep.(colls := colls, docs := docs))
  }

  /** The replay loop's state: which source collections were already looked up, and the target. */
  datatype Session = Session(known: map<nat, string>, rep: Replica)

  /** `_ensure_collection`, once per source collection: the carried settings overwrite the target's. */
  function Ensure(sess: Session, coll: Snapshot): Session {
    if coll.id in sess.known then sess
    else Session(sess.known[coll.id := coll.name],
                 sess.rep.(colls := sess.rep.colls[coll.name := coll.config]))
  }

  function ReplayCarried(sess: Session, raw: Carried): Result<Session, ReplayError> {
    var ready := Ensure(sess, raw.coll);
    match ReplayOperation(ready.rep, ready.known[raw.coll.id], raw.op)
    case Failure(e) => Failure(e)
    case Success(rep) => Success(ready.(rep := rep))
  }

  function ReplayAll(sess: Session, ops: seq<Carried>): Result<Session, ReplayError> {
    if ops == [] then Success(sess)
    else
      match ReplayAll(sess, Front(ops))
      case Failure(e) => Failure(e)
      case Success(mid) => ReplayCarried(mid, Last(ops))
  }

  predicate OpIdLe(a: Carried, b: Carried) {
    a.op.id <= b.op.id
  }

  function Flatten(segments: seq<Message>): seq<Carried> {
    if segments == [] then [] else Flatten(Front(segments)) + Last(segments).segment.ops
  }

  /** All carried operations, sorted by id; equal ids keep the segment order. */
  function SortedOperations(segments: seq<Message>): seq<Carried> {
    StableSort(Flatten(segments), OpIdLe)
  }

  function RecordSegments(marks: seq<Mark>, segments: seq<Message>): seq<Mark> {
    if segments == [] then marks
    else
      var before := RecordSegments(marks, Front(segments));
      var m := Last(segments);
      if Marked(before, m.segment.first, m.segment.last) then before else before + [MarkOf(m)]
  }

  function AdvanceCursor(cursor: Option<nat>, last: nat): nat {
    match cursor case None => last case Some(c) => Max(c, last)
  }

  /** What restoring `segments` into `rep` means; nothing of a failed restore is kept. */
  function RestoreInto(rep: Replica, segments: seq<Message>): Result<Replica, RestoreError> {
    if segments == [] then Success(rep)
    else
      var ops := SortedOperations(segments);
      if ops == [] then Failure(NoOperations)
      else
        match ReplayAll(Session(map[], rep), ops)
        case Failure(e) => Failure(ReplayFailed(e))
        case Success(sess) =>
          Success(sess.rep.(marks := RecordSegments(rep.marks, segments),
                            cursor := Some(AdvanceCursor(rep.cursor, Last(ops).op.id))))
  }

  datatype RestoreResult = RestoreResult(
    segments: nat, operations: nat, first: Option<nat>, last: Option<nat>, dryRun: bool)

  /** The answer to a restore that goes through: the lowest and highest id replayed, and the counts. */
  function Report(segments: seq<Message>, dryRun: bool): RestoreResult {
    var ops := SortedOperations(segments);
    RestoreResult(|segments|, |ops|, if ops == [] then None else Some(ops[0].op.id),
                  if ops == [] then None else Some(Last(ops).op.id), dryRun)
  }

  class TargetDb {
    var colls: map<string, Config>
    var docs: map<NamedKey, Document>
    var log: map<nat, LoggedRow>
    var marks: seq<Mark>
    var cursor: Option<nat>

    ghost function State(): Replica
      reads this
    {
      Replica(colls, docs, log, marks, cursor)
    }

    method EnsureCollection(coll: Snapshot)
      modifies `colls
      ensures colls == old(colls)[coll.name := coll.config]
    {
      if coll.name !in colls {
        colls := colls[coll.name := DEFAULT_CONFIG];
      }
      colls := colls[coll.name := coll.config];
    }

    method ReplayRow(name: string, op: Operation) returns (error: Option<ReplayError>)
      modifies this
      ensures marks == old(marks) && cursor == old(cursor)
      ensures
        match ReplayOperation(old(State()), name, op)
        case Failure(e) => error == Some(e)
        case Success(rep) => error == None && State() == rep
    {
      match op.op {
        case CollectionOp =>
        case UnknownOp(_) => return Some(UnsupportedOperation(op.id));
        case RulesOp =>
          if name in colls && op.payload.RulesPayload? {
            colls := colls[name := colls[name].(read := op.payload.read, write := op.payload.write)];
          }
        case ValidatorOp =>
          if name in colls {
            var validator := if op.payload.ValidatorPayload? then op.payload.validator else None;
            colls := colls[name := colls[name].(validator := validator)];
          }
        case _ =>
          if op.docId.None? { return Some(MissingDocId(op.id)); }
          var failed := ReplayDocumentRow(name, op.docId.value, op);
          if failed.Some? { return failed; }
      }
      assert colls == if name in old(colls) then old(colls)[name := ApplyConfig(old(colls)[name], op)] else old(colls);
      if op.id !in log {
        log := log[op.id := LoggedRow(name, op.docId, op.owner, op.op, op.payload)];
      } else if log[op.id].op != op.op || log[op.id].docId != op.docId {
        return Some(LocalIdConflict(op.id));
      }
      return None;
    }

    method ReplayDocumentRow(name: string, docId: string, op: Operation) returns (error: Option<ReplayError>)
      requires OnDocument(op)
      modifies `docs
      ensures
        match ReplayDocument(Lookup(old(docs), (name, docId)), op)
        case Failure(e) => error == Some(e) && docs == old(docs)
        case Success(row) => error == None && docs == old(docs)[(name, docId) := row]
    {
      var key := (name, docId);
      var row := Lookup(docs, key);
      if op.op.DeleteOp? {
        if row.None? { return Some(MissingDocument(op.id)); }
        docs := docs[key := row.value.(version := row.value.version + 1, deleted := true)];
        return None;
      }
      if !op.payload.DataPayload? { return Some(MissingData(op.id)); }
      var data := op.payload.data;
      if op.op.PatchOp? {
        if row.None? { return Some(MissingDocument(op.id)); }
        docs := docs[key := row.value.(data := row.value.data + data, version := row.value.version + 1)];
      } else if row.None? {
        docs := docs[key := Document(data, 1, false, op.owner)];
      } else {
        var updated := row.value;
        if updated.owner.None? { updated := updated.(owner := op.owner); }
        updated := updated.(data := data, version := updated.version + 1, deleted := false);
        docs := docs[key := updated];
      }
      return None;
    }

    method CollectOperations(segments: seq<Message>) returns (flat: seq<Carried>)
      ensures flat == Flatten(segments)
    {
      flat := [];
      for n := 0 to |segments|
        invariant flat == Flatten(segments[..n])
      {
        assert Front(segments[..n + 1]) == segments[..n];
        flat := flat + segments[n].segment.ops;
      }
      assert segments[..|segments|] == segments;
    }

    method ReplayOperations(operations: seq<Carried>) returns (error: Option<ReplayError>)
      modifies this
      ensures
        match ReplayAll(Session(map[], old(State())), operations)
        case Failure(e) => error == Some(e)
        case Success(sess) => error == None && State() == sess.rep
    {
      ghost var begin := Session(map[], State());
      var collectionMap: map<nat, string> := map[];
      for n := 0 to |operations|
        invariant ReplayAll(begin, operations[..n]) == Success(Session(collectionMap, State()))
      {
        var raw := operations[n];
        assert Front(operations[..n + 1]) == operations[..n];
        if raw.coll.id !in collectionMap {
          EnsureCollection(raw.coll);
          collectionMap := collectionMap[raw.coll.id := raw.coll.name];
        }
        error := ReplayRow(collectionMap[raw.coll.id], raw.op);
        if error.Some? {
          ReplayStopsEarly(begin, operations, n + 1);
          return;
        }
      }
      assert operations[..|operations|] == operations;
      return None;
    }

    method RecordAll(segments: seq<Message>)
      modifies `marks
      ensures marks == RecordSegments(old(marks), segments)
    {
      for n := 0 to |segments|
        invariant marks == RecordSegments(old(marks), segments[..n])
      {
        assert Front(segments[..n + 1]) == segments[..n];
        var g := segments[n].segment;
        if !Marked(marks, g.first, g.last) {
          marks := marks + [Mark(g.first, g.last, |g.ops|, segments[n].id)];
        }
      }
      assert segments[..|segments|] == segments;
    }

    /** The transaction: replay, then record and advance the cursor; rolled back on any error and on a
        dry run. */
    method Transact(segments: seq<Message>, operations: seq<Carried>, dryRun: bool) returns (error: Option<ReplayError>)
      requires operations != []
      modifies this
      ensures
        match ReplayAll(Session(map[], old(State())), operations)
        case Failure(e) => error == Some(e) && State() == old(State())
        case Success(sess) =>
          && error == None
          && State() == if dryRun then old(State()) else
               sess.rep.(marks := RecordSegments(old(marks), segments),
                         cursor := Some(AdvanceCursor(old(cursor), Last(operations).op.id)))
    {
      var saved := (colls, docs, log, marks, cursor);
      error := ReplayOperations(operations);
      if error.Some? || dryRun {
        colls, docs, log, marks, cursor := saved.0, saved.1, saved.2, saved.3, saved.4;
        return;
      }
      ReplayKeepsBookkeeping(Session(map[], old(State())), operations);
      RecordAll(segments);
      var last := operations[|operations| - 1].op.id;
      cursor := Some(if cursor.None? then last else Max(cursor.value, last));
    }

    /** `restore_json_db_segments`. */
    method RestoreSegments(segments: seq<Message>, dryRun: bool) returns (r: Result<RestoreResult, RestoreError>)
      modifies this
      ensures
        match RestoreInto(old(State()), segments)
        case Failure(e) => r == Failure(e) && State() == old(State())
        case Success(rep) =>
          && State() == (if dryRun then old(State()) else rep)
          && r == Success(Report(segments, dryRun))
    {
      if segments == [] { return Success(RestoreResult(0, 0, None, None, dryRun)); }
      var flat := CollectOperations(segments);
      var operations := StableSort(flat, OpIdLe);
      if operations == [] { return Failure(NoOperations); }
      var first, last := operations[0].op.id, operations[|operations| - 1].op.id;
      var error := Transact(segments, operations, dryRun);
      if error.Some? { return Failure(ReplayFailed(error.value)); }
      return Success(RestoreResult(|segments|, |operations|, Some(first), Some(last), dryRun));
    }
  }

  lemma {:induction false} ReplayKeepsBookkeeping(sess: Session, ops: seq<Carried>)
    requires ReplayAll(sess, ops).Success?
    ensures
      var after := ReplayAll(sess, ops).value;
      after.rep.marks == sess.rep.marks && after.rep.cursor == sess.rep.cursor
  {
    if ops != [] { ReplayKeepsBookkeeping(sess, Front(ops)); }
  }

  /** An error in a prefix is the error of the whole replay. */
  lemma {:induction false} ReplayStopsEarly(sess: Session, ops: seq<Carried>, n: nat)
    requires n <= |ops| && ReplayAll(sess, ops[..n]).Failure?
    ensures ReplayAll(sess, ops) == ReplayAll(sess, ops[..n])
    decreases |ops|
  {
    if n < |ops| {
      assert Front(ops)[..n] == ops[..n];
      ReplayStopsEarly(sess, Front(ops), n);
    } else {
      assert ops[..n] == ops;
    }
  }
}
