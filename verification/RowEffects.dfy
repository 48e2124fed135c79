/** What a write does to its row, field by field; what the reads show of it afterwards; and what the log and
    a replay keep of it. */
module RowEffects {
  import opened Prelude
  import opened Sorting
  import opened OperationLog
  import opened JsonRoutes
  import Backup
  import Query
  import CachedReads
  import StalePages

  // ---------------------------------------------------------------- the row

  /** What a write makes of the data: the request's own, or its fields over the old ones. */
  predicate DataWritten(was: Option<Document>, now: Document, write: Write) {
    match write
    case CreateDoc(_, data) => now.data == data
    case SetDoc(_, data) => now.data == data
    case PatchDoc(_, data) =>
      && was.Some? && now.data.Keys == was.value.data.Keys + data.Keys
      && (forall f | f in data :: now.data[f] == data[f])
      && (forall f | f in was.value.data && f !in data :: now.data[f] == was.value.data[f])
    case DeleteDoc(_) => was.Some? && now.data == was.value.data
  }

  /** The uid that a new row gets: that of an app user of the publishable-key routes. */
  function NewOwner(caller: Caller): Option<string> {
    match caller
    case KeyRoute(_, Some(app)) => Some(app.uid)
    case _ => None
  }

  /** THE ROW after a served write, field by field. */
  lemma WrittenRow(before: Db, after: Db, caller: Caller, coll: nat, write: Write, size: nat, now: int,
                   r: Result<Document, WriteError>)
    requires Served(before, after, caller, coll, write, size, now, r) && r.Success?
    ensures
      var key := (coll, write.id);
      var was := Lookup(before.docs, key);
      && key in after.docs && r.value == after.docs[key]
      && r.value.deleted == write.DeleteDoc?
      && DataWritten(was, r.value, write)
      && r.value.owner == (if was.Some? then was.value.owner else NewOwner(caller))
      && r.value.version == (if was.Some? then was.value.version + 1 else 1)
      && key in after.stamps && after.stamps[key] == now
      && after.docs == before.docs[key := r.value] && after.stamps == before.stamps[key := now]
      && after.colls == before.colls
  {
    AdmittedOperationFits(before, caller, coll, write, size, after.lastId);
  }

  /** WHICH ROWS: a create needs that none is live, a patch or delete that one is, a set nothing. */
  lemma WhichRows(before: Db, after: Db, caller: Caller, coll: nat, write: Write, size: nat, now: int,
                  r: Result<Document, WriteError>)
    requires Served(before, after, caller, coll, write, size, now, r)
    ensures
      var was := Lookup(before.docs, (coll, write.id));
      var live := was.Some? && !was.value.deleted;
      && (r.Success? && write.CreateDoc? ==> !live)
      && (r.Success? && (write.PatchDoc? || write.DeleteDoc?) ==> live)
      && (r == Failure(DocumentExists) ==> write.CreateDoc? && live)
      && (r == Failure(DocumentNotFound) ==> (write.PatchDoc? || write.DeleteDoc?) && !live)
  {
  }

  /** THE ENTRY that is logged: one, under a new higher id, naming the document and what was done to it. */
  lemma LoggedEntry(before: Db, after: Db, caller: Caller, coll: nat, write: Write, size: nat, now: int,
                    r: Result<Document, WriteError>)
    requires Served(before, after, caller, coll, write, size, now, r) && r.Success?
    ensures |after.log| == |before.log| + 1 && before.log <= after.log
    ensures
      var entry := Last(after.log);
      var was := Lookup(before.docs, (coll, write.id));
      && before.lastId < entry.id && entry.coll == coll && entry.docId == Some(write.id)
      && entry.owner == (if caller.KeyRoute? then r.value.owner else None)
      && match write
         case CreateDoc(_, data) => entry.op.CreateOp? && entry.payload == DataPayload(data)
         case SetDoc(_, data) =>
           entry.op == (if was.None? then CreateOp else SetOp) && entry.payload == DataPayload(data)
         case PatchDoc(_, data) => entry.op.PatchOp? && entry.payload == DataPayload(data)
         case DeleteDoc(_) => entry.op.DeleteOp?
  {
    AdmittedOperationFits(before, caller, coll, write, size, after.lastId);
  }

  /** A batch does the same, one write after the other. */
  lemma BatchWrites(served: seq<Db>, coll: nat, writes: seq<Write>, now: int, i: nat)
    requires OneByOne(served, coll, writes, now) && i < |writes|
    ensures
      var key, was := (coll, writes[i].id), Lookup(served[i].docs, (coll, writes[i].id));
      && key in served[i + 1].docs && served[i + 1].docs[key].deleted == writes[i].DeleteDoc?
      && DataWritten(was, served[i + 1].docs[key], writes[i])
      && served[i + 1].docs[key].owner == (if was.Some? then was.value.owner else None)
  {
    assert OneServed(served[i], served[i + 1], coll, writes[i], now);
    var r: Result<Document, WriteError> :|
      r.Success? && Served(served[i], served[i + 1], OwnerRoute, coll, writes[i], 0, now, r);
    WrittenRow(served[i], served[i + 1], OwnerRoute, coll, writes[i], 0, now, r);
  }

  // ---------------------------------------------------------------- the reads

  /** A document is answered exactly if its row is live, and then with its data, version and owner. */
  lemma DocumentIsAnswered(db: Db, coll: nat, d: string, str: Json -> string)
    requires OrderConsistent(db)
    ensures
      var key, body := (coll, d), CachedReads.Uncached(db, CachedReads.GetDoc(coll, d), str);
      && (body.Some? <==> key in db.docs && !db.docs[key].deleted)
      && (body.Some? ==> body.value.DocumentBody? && body.value.row.id == d && body.value.row.doc == db.docs[key]
                         && body.value.row.updated == db.stamps[key])
  {
  }

  /** A listing holds exactly the live documents of its collection, as their own route answers them. */
  lemma ListingIsLive(db: Db, coll: nat, r: Query.Row)
    requires OrderConsistent(db)
    ensures r in Query.Listing(CachedReads.Rows(db, coll)) <==>
            (coll, r.id) in db.docs && !db.docs[(coll, r.id)].deleted
            && r == Query.Row(r.id, db.docs[(coll, r.id)], db.stamps[(coll, r.id)])
  {
    var key := (coll, r.id);
    StalePages.ListedIsLive(CachedReads.Rows(db, coll), r);
    if r in CachedReads.Rows(db, coll) { StalePages.RowIsStored(db, db.order, coll, r); }
    if key in db.docs && !db.docs[key].deleted {
      assert key in db.order;
      StalePages.FoundIsInRows(db, db.order, key);
    }
  }

  /** AFTER A DELETE the document is not found and on no list and no query result. */
  lemma DeletedIsGone(before: Db, after: Db, caller: Caller, coll: nat, d: string, size: nat, now: int,
                      r: Result<Document, WriteError>, read: CachedReads.Read, str: Json -> string, page: Query.Page)
    requires Served(before, after, caller, coll, DeleteDoc(d), size, now, r) && r.Success?
    ensures CachedReads.Uncached(after, CachedReads.GetDoc(coll, d), str).None?
    ensures read.coll == coll && StalePages.Pages(after, read, str, page) ==>
              forall row | row in page.items :: row.id != d
  {
    WrittenRow(before, after, caller, coll, DeleteDoc(d), size, now, r);
    if read.coll == coll && StalePages.Pages(after, read, str, page) {
      forall row | row in page.items ensures row.id != d {
        StalePages.ShownIsAnswered(after, read, str, page, row);
      }
    }
  }

  /** AFTER ANY OTHER WRITE it is found, with what was written, and listed. */
  lemma WrittenIsShown(before: Db, after: Db, caller: Caller, coll: nat, write: Write, size: nat, now: int,
                       r: Result<Document, WriteError>, str: Json -> string)
    requires Served(before, after, caller, coll, write, size, now, r) && r.Success? && !write.DeleteDoc?
    requires Consistent(before)
    ensures
      var row := Query.Row(write.id, r.value, now);
      && CachedReads.Uncached(after, CachedReads.GetDoc(coll, write.id), str) == Some(CachedReads.DocumentBody(row))
      && row in Query.Listing(CachedReads.Rows(after, coll))
      && DataWritten(Lookup(before.docs, (coll, write.id)), row.doc, write)
  {
    WrittenRow(before, after, caller, coll, write, size, now, r);
    ServedKeepsConsistent(before, after, caller, coll, write, size, now, r);
    ListingIsLive(after, coll, Query.Row(write.id, r.value, now));
  }

  // ---------------------------------------------------------------- the replay

  /** What the interpreter makes of the row is what the operation says. */
  predicate OperationDone(was: Option<Document>, now: Document, op: Operation) {
    match op.op
    case CreateOp => op.payload.DataPayload? && !now.deleted && now.data == op.payload.data
    case SetOp => op.payload.DataPayload? && !now.deleted && now.data == op.payload.data
    case PatchOp =>
      && op.payload.DataPayload? && was.Some? && now.deleted == was.value.deleted
      && now.data.Keys == was.value.data.Keys + op.payload.data.Keys
      && (forall f | f in op.payload.data :: now.data[f] == op.payload.data[f])
      && (forall f | f in was.value.data && f !in op.payload.data :: now.data[f] == was.value.data[f])
    case DeleteOp => was.Some? && now.deleted && now.data == was.value.data
    case _ => false
  }

  /** Owners are set by the first operation that names one and never change. */
  predicate OwnerDone(was: Option<Document>, now: Document, op: Operation) {
    if was.Some? && was.value.owner.Some? then now.owner == was.value.owner
    else if op.op.CreateOp? || op.op.SetOp? then now.owner == op.owner
    else was.Some? && now.owner == was.value.owner
  }

  lemma {:induction false} UnconcernedStays(docs: Documents, ops: seq<Operation>, key: DocKey)
    requires Replay(docs, ops).Success? && forall k | 0 <= k < |ops| :: !Concerns(ops[k], key)
    ensures Lookup(Replay(docs, ops).value, key) == Lookup(docs, key)
  {
    if ops != [] {
      assert !Concerns(Last(ops), key);
      UnconcernedStays(docs, Front(ops), key);
    }
  }

  lemma ReplayPrefix(docs: Documents, ops: seq<Operation>, k: nat)
    requires Replay(docs, ops).Success? && k <= |ops|
    ensures Replay(docs, ops[..k]).Success? && Replay(Replay(docs, ops[..k]).value, ops[k..]) == Replay(docs, ops)
  {
    assert ops[..k] + ops[k..] == ops;
    ReplayConcat(docs, ops[..k], ops[k..]);
  }

  /** THE LAST OPERATION on a document decides: after a replay the row is what that operation makes of the row
      before it. */
  lemma LastOperationDecides(docs: Documents, ops: seq<Operation>, key: DocKey, k: nat)
    requires Replay(docs, ops).Success? && k < |ops| && Concerns(ops[k], key)
    requires forall l | k < l < |ops| :: !Concerns(ops[l], key)
    ensures Replay(docs, ops[..k]).Success? && key in Replay(docs, ops).value
    ensures
      var was, now := Lookup(Replay(docs, ops[..k]).value, key), Replay(docs, ops).value[key];
      && OperationDone(was, now, ops[k]) && OwnerDone(was, now, ops[k])
      && now.version == (if was.Some? then was.value.version + 1 else 1)
  {
    ReplayPrefix(docs, ops, k);
    ReplayPrefix(docs, ops, k + 1);
    assert Front(ops[..k + 1]) == ops[..k];
    UnconcernedStays(Replay(docs, ops[..k + 1]).value, ops[k + 1..], key);
  }

  /** WHEN IT FAILS.  The interpreter refuses an operation exactly for want of a document id, of data, or of a
      row, or because it does not know it. */
  lemma ReplayFailsExactly(docs: Documents, op: Operation)
    ensures ReplayOne(docs, op).Failure? <==>
      match op.op
      case UnknownOp(_) => true
      case CreateOp => op.docId.None? || !op.payload.DataPayload?
      case SetOp => op.docId.None? || !op.payload.DataPayload?
      case PatchOp => op.docId.None? || !op.payload.DataPayload? || (op.coll, op.docId.value) !in docs
      case DeleteOp => op.docId.None? || (op.coll, op.docId.value) !in docs
      case _ => false
    ensures ReplayOne(docs, op).Success? && !OnDocument(op) ==> ReplayOne(docs, op).value == docs
  {
  }

  // ---------------------------------------------------------------- settings

  /** SETTINGS.  A rules request stores its read rule as the read rule and its write rule as the write rule; a
      validator request stores or clears the validator; everything else stays, other collections included. */
  lemma SettingsStored(before: Db, after: Db, entry: Operation)
    requires SettingsServed(before, after, entry)
    ensures entry.coll in after.colls && after.docs == before.docs && after.colls.Keys == before.colls.Keys
    ensures forall c | c in before.colls && c != entry.coll :: after.colls[c] == before.colls[c]
    ensures
      var was, now := before.colls[entry.coll], after.colls[entry.coll];
      && now.name == was.name && now.owner == was.owner && now.database == was.database
      && (entry.op.RulesOp? && entry.payload.RulesPayload? ==>
            && now.config.read == entry.payload.read && now.config.write == entry.payload.write
            && now.config.validator == was.config.validator)
      && (entry.op.ValidatorOp? && entry.payload.ValidatorPayload? ==>
            && now.config.validator == entry.payload.validator
            && now.config.read == was.config.read && now.config.write == was.config.write)
  {
  }

  /** A new collection is its owner's alone and has no validator. */
  lemma CollectionStarts(before: Db, after: Db, name: string, owner: nat, database: nat)
    requires CollectionServed(before, after, name, owner, database)
    ensures after.lastColl in after.colls && before.lastColl < after.lastColl
    ensures
      var c := after.colls[after.lastColl];
      && c.name == name && c.owner == owner && c.database == database
      && c.config.read.OwnerRule? && c.config.write.OwnerRule? && c.config.validator.None?
    ensures forall c | c in before.colls && c != after.lastColl :: c in after.colls && after.colls[c] == before.colls[c]
  {
  }

  /** THE LAST RULES OPERATION of a collection decides its rules. */
  lemma {:induction false} LastRulesDecide(config: Config, ops: seq<Operation>, coll: nat, k: nat)
    requires k < |ops| && ops[k].coll == coll && ops[k].op.RulesOp? && ops[k].payload.RulesPayload?
    requires forall l | k < l < |ops| :: ops[l].coll == coll ==> !ops[l].op.RulesOp?
    ensures ConfigAfter(config, ops, coll).read == ops[k].payload.read
    ensures ConfigAfter(config, ops, coll).write == ops[k].payload.write
  {
    if k < |ops| - 1 {
      assert Last(ops) == ops[|ops| - 1];
      LastRulesDecide(config, Front(ops), coll, k);
    }
  }

  /** THE LAST VALIDATOR OPERATION of a collection decides its validator. */
  lemma {:induction false} LastValidatorDecides(config: Config, ops: seq<Operation>, coll: nat, k: nat)
    requires k < |ops| && ops[k].coll == coll && ops[k].op.ValidatorOp? && ops[k].payload.ValidatorPayload?
    requires forall l | k < l < |ops| :: ops[l].coll == coll ==> !ops[l].op.ValidatorOp?
    ensures ConfigAfter(config, ops, coll).validator == ops[k].payload.validator
  {
    if k < |ops| - 1 {
      assert Last(ops) == ops[|ops| - 1];
      LastValidatorDecides(config, Front(ops), coll, k);
    }
  }
}
