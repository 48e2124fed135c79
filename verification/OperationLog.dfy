/** The append-only operation log and the interpreter that `db_restore` runs over it.

    The interpreter is the reference meaning of the log: the write routes (`JsonRoutes`), the
    backup protocol (`Backup`) and the restore (`Restore`) are all stated against it. */
module OperationLog {
  import opened Prelude

  /** The part of a document row that a restore has to reproduce. */
  datatype Document = Document(data: Object, version: nat, deleted: bool, owner: Option<string>)

  datatype OpName =
    | CollectionOp | RulesOp | ValidatorOp
    | CreateOp | SetOp | PatchOp | DeleteOp
    | UnknownOp(name: string)

  datatype Rule = OwnerRule | DocumentOwnerRule | AuthenticatedRule | PublicRule

  datatype Validator = Validator(
    maxBytes: Option<int>, maxFields: Option<int>, required: seq<string>, allowed: seq<string>)

  datatype Payload =
    | DataPayload(data: Object)
    | RulesPayload(read: Rule, write: Rule)
    | ValidatorPayload(validator: Option<Validator>)
    | CollectionPayload(name: string)
    | EmptyPayload

  datatype Operation = Operation(
    id: nat, coll: nat, docId: Option<string>, owner: Option<string>, op: OpName, payload: Payload)

  type DocKey = (nat, string)
  type Documents = map<DocKey, Document>

  datatype ReplayError =
    | MissingDocId(id: nat)
    | MissingData(id: nat)
    | MissingDocument(id: nat)
    | UnsupportedOperation(id: nat)
    | LocalIdConflict(id: nat)

  // ---------------------------------------------------------------- the interpreter

  predicate OnDocument(op: Operation) {
    op.op.CreateOp? || op.op.SetOp? || op.op.PatchOp? || op.op.DeleteOp?
  }

  /** One document operation on one row. */
  function ReplayDocument(row: Option<Document>, op: Operation): Result<Document, ReplayError>
    requires OnDocument(op)
  {
    if op.op.DeleteOp? then
      match row
      case None => Failure(MissingDocument(op.id))
      case Some(found) => Success(found.(version := found.version + 1, deleted := true))
    else if !op.payload.DataPayload? then
      Failure(MissingData(op.id))
    else if op.op.PatchOp? then
      match row
      case None => Failure(MissingDocument(op.id))
      case Some(found) => Success(found.(data := found.data + op.payload.data, version := found.version + 1))
    else
      match row
      case None => Success(Document(op.payload.data, 1, false, op.owner))
      case Some(found) =>
        Success(Document(op.payload.data, found.version + 1, false,
                         if found.owner.None? then op.owner else found.owner))
  }

  function ReplayOne(docs: Documents, op: Operation): Result<Documents, ReplayError> {
    if op.op.CollectionOp? || op.op.RulesOp? || op.op.ValidatorOp? then
      Success(docs)
    else if op.op.UnknownOp? then
      Failure(UnsupportedOperation(op.id))
    else if op.docId.None? then
      Failure(MissingDocId(op.id))
    else
      var key := (op.coll, op.docId.value);
      match ReplayDocument(Lookup(docs, key), op)
      case Failure(e) => Failure(e)
      case Success(row) => Success(docs[key := row])
  }

  /** Replays `ops` from left to right, stopping at the first error. */
  function Replay(docs: Documents, ops: seq<Operation>): Result<Documents, ReplayError> {
    if ops == [] then
      Success(docs)
    else
      match Replay(docs, Front(ops))
      case Failure(e) => Failure(e)
      case Success(mid) => ReplayOne(mid, Last(ops))
  }

  /** The operation is about this document. */
  predicate Concerns(op: Operation, key: DocKey) {
    OnDocument(op) && op.docId.Some? && (op.coll, op.docId.value) == key
  }

  function CountConcerning(ops: seq<Operation>, key: DocKey): nat {
    if ops == [] then 0
    else CountConcerning(Front(ops), key) + if Concerns(Last(ops), key) then 1 else 0
  }

  // ---------------------------------------------------------------- ids

  /** Each id is above the one before it (and above 0, for the first). */
  predicate Ascending(ops: seq<Operation>) {
    ops == [] || (Ascending(Front(ops)) && HighestId(Front(ops)) < Last(ops).id)
  }

  /** `coalesce(max(id), 0)` of an ascending log. */
  function HighestId(ops: seq<Operation>): nat {
    if ops == [] then 0 else Last(ops).id
  }

  /** The same by position. */
  ghost predicate IdsIncrease(ops: seq<Operation>) {
    && (forall i | 0 <= i < |ops| :: ops[i].id > 0)
    && (forall i, j | 0 <= i < j < |ops| :: ops[i].id < ops[j].id)
  }

  lemma {:induction false} AscendingIdsIncrease(ops: seq<Operation>)
    requires Ascending(ops)
    ensures IdsIncrease(ops)
  {
    if ops != [] {
      var front := Front(ops);
      AscendingIdsIncrease(front);
      forall i | 0 <= i < |front| ensures 0 < ops[i].id < Last(ops).id {
        assert ops[i] == front[i];
        assert i == |front| - 1 || front[i].id < front[|front| - 1].id;
      }
      forall i, j | 0 <= i < j < |ops| ensures ops[i].id < ops[j].id {
        assert j < |front| ==> front[i].id < front[j].id;
      }
    }
  }

  lemma {:induction false} AscendingPrefix(ops: seq<Operation>, n: nat)
    requires Ascending(ops) && n <= |ops|
    ensures Ascending(ops[..n])
  {
    if n < |ops| {
      AscendingPrefix(Front(ops), n);
      assert Front(ops)[..n] == ops[..n];
    } else {
      assert ops[..n] == ops;
    }
  }

  // ---------------------------------------------------------------- collection settings

  datatype Config = Config(read: Rule, write: Rule, validator: Option<Validator>)

  const DEFAULT_CONFIG := Config(OwnerRule, OwnerRule, None)

  /** What a `rules` or `validator` operation does to the settings of its collection. */
  function ApplyConfig(config: Config, op: Operation): Config {
    if op.op.RulesOp? then
      if op.payload.RulesPayload? then config.(read := op.payload.read, write := op.payload.write) else config
    else if op.op.ValidatorOp? then
      config.(validator := if op.payload.ValidatorPayload? then op.payload.validator else None)
    else
      config
  }

  /** The settings of collection `coll` after `ops`, starting from `config`. */
  function ConfigAfter(config: Config, ops: seq<Operation>, coll: nat): Config {
    if ops == [] then config
    else
      var before := ConfigAfter(config, Front(ops), coll);
      if Last(ops).coll == coll then ApplyConfig(before, Last(ops)) else before
  }

  // ---------------------------------------------------------------- basic facts

  lemma {:induction false} ReplayConcat(docs: Documents, a: seq<Operation>, b: seq<Operation>)
    ensures Replay(docs, a + b) ==
            match Replay(docs, a) { case Failure(e) => Failure(e) case Success(mid) => Replay(mid, b) }
  {
    if b == [] {
      assert a + b == a;
    } else {
      assert Front(a + b) == a + Front(b);
      ReplayConcat(docs, a, Front(b));
    }
  }

  lemma {:induction false} ConfigConcat(config: Config, a: seq<Operation>, b: seq<Operation>, coll: nat)
    ensures ConfigAfter(config, a + b, coll) == ConfigAfter(ConfigAfter(config, a, coll), b, coll)
  {
    if b == [] {
      assert a + b == a;
    } else {
      assert Front(a + b) == a + Front(b);
      ConfigConcat(config, a, Front(b), coll);
    }
  }

  /** A version counts the operations replayed on the document, no more and no less. */
  lemma {:induction false} VersionCountsOperations(docs: Documents, ops: seq<Operation>, key: DocKey)
    requires Replay(docs, ops).Success?
    ensures
      var after := Replay(docs, ops).value;
      && (key in after <==> key in docs || CountConcerning(ops, key) > 0)
      && (key in after ==>
            after[key].version == (if key in docs then docs[key].version else 0) + CountConcerning(ops, key))
  {
    if ops != [] {
      VersionCountsOperations(docs, Front(ops), key);
    }
  }

  // ---------------------------------------------------------------- content

  /** Equal data, deleted flag and owner: everything but the version counter. */
  predicate SameDocument(a: Document, b: Document) {
    a.data == b.data && a.deleted == b.deleted && a.owner == b.owner
  }

  ghost predicate SameContent(a: Documents, b: Documents) {
    a.Keys == b.Keys && forall key | key in a :: SameDocument(a[key], b[key])
  }

  lemma ReplayOneRespectsContent(a: Documents, b: Documents, op: Operation)
    requires SameContent(a, b) && ReplayOne(a, op).Success?
    ensures ReplayOne(b, op).Success? && SameContent(ReplayOne(a, op).value, ReplayOne(b, op).value)
  {
  }

  lemma ReplayOneTwice(docs: Documents, op: Operation)
    requires ReplayOne(docs, op).Success?
    ensures
      var once := ReplayOne(docs, op).value;
      ReplayOne(once, op).Success? && SameContent(once, ReplayOne(once, op).value)
  {
  }

  lemma {:induction false} ReplayRespectsContent(a: Documents, b: Documents, ops: seq<Operation>)
    requires SameContent(a, b) && Replay(a, ops).Success?
    ensures Replay(b, ops).Success? && SameContent(Replay(a, ops).value, Replay(b, ops).value)
  {
    if ops != [] {
      ReplayRespectsContent(a, b, Front(ops));
      ReplayOneRespectsContent(Replay(a, Front(ops)).value, Replay(b, Front(ops)).value, Last(ops));
    }
  }

  /** Drops every operation that repeats the one before it. */
  function Squash(ops: seq<Operation>): seq<Operation> {
    if |ops| <= 1 then ops
    else if Last(ops) == Last(Front(ops)) then Squash(Front(ops))
    else Squash(Front(ops)) + [Last(ops)]
  }

  /** Adjacent repetitions change no content: only versions can differ. */
  lemma {:induction false} RepetitionsAreHarmless(docs: Documents, ops: seq<Operation>)
    requires Replay(docs, Squash(ops)).Success?
    ensures Replay(docs, ops).Success?
    ensures SameContent(Replay(docs, Squash(ops)).value, Replay(docs, ops).value)
  {
    if |ops| > 1 {
      var front := Front(ops);
      if Last(ops) == Last(front) {
        RepetitionsAreHarmless(docs, front);
        ReplayOneTwice(Replay(docs, Front(front)).value, Last(front));
      } else {
        ReplayConcat(docs, Squash(front), [Last(ops)]);
        assert Front([Last(ops)]) == [];
        RepetitionsAreHarmless(docs, front);
        ReplayOneRespectsContent(Replay(docs, Squash(front)).value, Replay(docs, front).value, Last(ops));
      }
    }
  }

  // ---------------------------------------------------------------- replaying again

  lemma {:induction false} RowsAndOwnersPersist(docs: Documents, ops: seq<Operation>)
    requires Replay(docs, ops).Success?
    ensures
      var after := Replay(docs, ops).value;
      forall key | key in docs ::
        key in after && (docs[key].owner.Some? ==> after[key].owner == docs[key].owner)
  {
    if ops != [] {
      RowsAndOwnersPersist(docs, Front(ops));
    }
  }

  /** During a second run over `final`, the rows and their owners are already the final ones, and
      every row touched so far has caught up with the first run. */
  ghost predicate CaughtUp(first: Documents, again: Documents, final: Documents) {
    && again.Keys == final.Keys
    && first.Keys <= final.Keys
    && (forall key | key in final :: again[key].owner == final[key].owner)
    && (forall key | key in first ::
          again[key].data == first[key].data && again[key].deleted == first[key].deleted)
  }

  lemma CaughtUpStep(first: Documents, again: Documents, final: Documents, op: Operation)
    requires CaughtUp(first, again, final)
    requires ReplayOne(first, op).Success?
    requires forall key | key in ReplayOne(first, op).value ::
               key in final &&
               (ReplayOne(first, op).value[key].owner.Some? ==>
                  final[key].owner == ReplayOne(first, op).value[key].owner)
    ensures ReplayOne(again, op).Success?
    ensures CaughtUp(ReplayOne(first, op).value, ReplayOne(again, op).value, final)
  {
    if OnDocument(op) {
      var key := (op.coll, op.docId.value);
      var row := ReplayOne(first, op).value[key];
      assert key in final && key in again;
    }
  }

  lemma {:induction false} RerunPrefix(ops: seq<Operation>, i: nat)
    requires i <= |ops| && Replay(map[], ops).Success?
    ensures Replay(map[], ops[..i]).Success?
    ensures Replay(Replay(map[], ops).value, ops[..i]).Success?
    ensures CaughtUp(Replay(map[], ops[..i]).value, Replay(Replay(map[], ops).value, ops[..i]).value,
                     Replay(map[], ops).value)
  {
    assert ops == ops[..i] + ops[i..];
    ReplayConcat(map[], ops[..i], ops[i..]);
    RowsAndOwnersPersist(Replay(map[], ops[..i]).value, ops[i..]);
    if i > 0 {
      RerunPrefix(ops, i - 1);
      assert Front(ops[..i]) == ops[..i - 1];
      var final := Replay(map[], ops).value;
      CaughtUpStep(Replay(map[], ops[..i - 1]).value, Replay(final, ops[..i - 1]).value, final, ops[i - 1]);
    }
  }

  /** Replaying a log over the documents it produced changes no content. */
  lemma RerunChangesNothing(ops: seq<Operation>)
    requires Replay(map[], ops).Success?
    ensures
      var final := Replay(map[], ops).value;
      Replay(final, ops).Success? && SameContent(final, Replay(final, ops).value)
  {
    RerunPrefix(ops, |ops|);
    assert ops[..|ops|] == ops;
  }

  /** Replaying a longer log over the documents of any of its prefixes catches up with it. */
  lemma ReplayCatchesUp(ops: seq<Operation>, m: nat)
    requires m <= |ops| && Replay(map[], ops).Success?
    ensures Replay(map[], ops[..m]).Success?
    ensures
      var earlier := Replay(map[], ops[..m]).value;
      && Replay(earlier, ops).Success?
      && SameContent(Replay(map[], ops).value, Replay(earlier, ops).value)
  {
    var head, tail := ops[..m], ops[m..];
    assert ops == head + tail;
    ReplayConcat(map[], head, tail);
    var earlier := Replay(map[], head).value;
    RerunChangesNothing(head);
    ReplayRespectsContent(earlier, Replay(earlier, head).value, tail);
    ReplayConcat(earlier, head, tail);
  }

  // ---------------------------------------------------------------- sorted lists of overlapping segments

  predicate SortedById(ops: seq<Operation>) {
    forall i, j | 0 <= i < j < |ops| :: ops[i].id <= ops[j].id
  }

  ghost predicate SameMembers(a: seq<Operation>, b: seq<Operation>) {
    (forall op | op in a :: op in b) && (forall op | op in b :: op in a)
  }

  lemma HasMember(ops: seq<Operation>)
    requires ops != []
    ensures exists op :: op in ops
  {
    assert ops[0] in ops;
  }

  lemma SameLast(ops: seq<Operation>, log: seq<Operation>)
    requires SortedById(ops) && IdsIncrease(log) && SameMembers(ops, log) && ops != []
    ensures log != [] && Last(ops) == Last(log)
  {
    assert Last(ops) in ops;
    assert Last(log) in log;
    var i :| 0 <= i < |ops| && ops[i] == Last(log);
    var j :| 0 <= j < |log| && log[j] == Last(ops);
  }

  lemma DropRepeated(ops: seq<Operation>, log: seq<Operation>)
    requires SameMembers(ops, log) && |ops| > 1 && Last(Front(ops)) == Last(ops)
    ensures SameMembers(Front(ops), log)
  {
    assert ops == Front(ops) + [Last(ops)];
    assert Last(Front(ops)) in Front(ops);
  }

  lemma IdsIdentify(log: seq<Operation>, a: Operation, b: Operation)
    requires IdsIncrease(log) && a in log && b in log
    ensures a.id == b.id ==> a == b
  {
    var i :| 0 <= i < |log| && log[i] == a;
    var j :| 0 <= j < |log| && log[j] == b;
  }

  lemma FrontIsSmaller(ops: seq<Operation>, log: seq<Operation>, op: Operation)
    requires SortedById(ops) && IdsIncrease(log) && SameMembers(ops, log) && op in ops
    requires |ops| > 1 ==> Last(Front(ops)) != Last(ops)
    requires op in Front(ops)
    ensures op.id < Last(ops).id
  {
    var previous := Last(Front(ops));
    var i :| 0 <= i < |ops| - 1 && ops[i] == op;
    assert op.id <= previous.id <= Last(ops).id;
    assert previous == ops[|ops| - 2] && previous in ops && Last(ops) in ops;
    IdsIdentify(log, previous, Last(ops));
  }

  lemma InFrontOfLog(ops: seq<Operation>, log: seq<Operation>, op: Operation)
    requires SortedById(ops) && IdsIncrease(log) && SameMembers(ops, log)
    requires ops != [] && log != [] && Last(ops) == Last(log)
    requires |ops| > 1 ==> Last(Front(ops)) != Last(ops)
    requires op in Front(ops)
    ensures op in Front(log)
  {
    assert ops == Front(ops) + [Last(ops)] && log == Front(log) + [Last(log)];
    assert op in ops;
    FrontIsSmaller(ops, log, op);
  }

  lemma InFrontOfList(ops: seq<Operation>, log: seq<Operation>, op: Operation)
    requires IdsIncrease(log) && (forall o | o in log :: o in ops)
    requires ops != [] && log != [] && Last(ops) == Last(log) && op in Front(log)
    ensures op in Front(ops)
  {
    assert ops == Front(ops) + [Last(ops)] && log == Front(log) + [Last(log)];
    var j :| 0 <= j < |log| - 1 && log[j] == op;
    assert log[j].id < log[|log| - 1].id;
    assert op in log;
  }

  lemma DropLargest(ops: seq<Operation>, log: seq<Operation>)
    requires SortedById(ops) && IdsIncrease(log) && SameMembers(ops, log)
    requires ops != [] && log != [] && Last(ops) == Last(log)
    requires |ops| > 1 ==> Last(Front(ops)) != Last(ops)
    ensures SameMembers(Front(ops), Front(log))
  {
    forall op | op in Front(ops) ensures op in Front(log) { InFrontOfLog(ops, log, op); }
    forall op | op in Front(log) ensures op in Front(ops) { InFrontOfList(ops, log, op); }
  }

  /** A list sorted by id that holds exactly the operations of a log with increasing ids, each of them any
      number of times, is that log with repetitions. */
  lemma {:induction false} SortedSquashesToLog(ops: seq<Operation>, log: seq<Operation>)
    requires SortedById(ops) && IdsIncrease(log) && SameMembers(ops, log)
    ensures Squash(ops) == log
  {
    if ops == [] {
      if log != [] { HasMember(log); }
    } else {
      SameLast(ops, log);
      if |ops| > 1 && Last(Front(ops)) == Last(ops) {
        DropRepeated(ops, log);
        SortedSquashesToLog(Front(ops), log);
      } else {
        DropLargest(ops, log);
        SortedSquashesToLog(Front(ops), Front(log));
        assert log == Front(log) + [Last(log)];
        assert |ops| == 1 ==> ops == [Last(ops)];
      }
    }
  }
}
