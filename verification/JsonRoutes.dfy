/** The write routes of the JSON DB: what they admit, what they log, and how they update rows.

    `Admit` says which request is refused and which operation is logged otherwise; `Commit` says
    what a logged operation means, through the restore interpreter.  The methods of `JsonDb` edit
    rows field by field, as the routes do, and are proved to agree with both. */
module JsonRoutes {
  import opened Prelude
  import opened Sorting
  import opened OperationLog

  datatype Collection = Collection(name: string, owner: nat, database: nat, config: Config)

  /** One database: its collections, rows and log.  `stamps` holds `updated_at` and `order` the rows
      in primary-key order: they sort listings and are not part of what a restore reproduces. */
  datatype Db = Db(
    colls: map<nat, Collection>, docs: Documents, stamps: map<DocKey, int>, order: seq<DocKey>,
    log: seq<Operation>, lastId: nat, lastColl: nat)

  const MAX_BATCH_WRITES := 100

  const EMPTY_DB := Db(map[], map[], map[], [], [], 0, 0)

  datatype AppUser = AppUser(uid: string, project: nat, database: nat)

  /** The three route families: the owner's own routes, by collection id, and by publishable key. */
  datatype Caller =
    | OwnerRoute
    | ByIdRoute(user: Option<nat>)
    | KeyRoute(user: Option<nat>, app: Option<AppUser>)

  datatype Write =
    | CreateDoc(id: string, data: Object)
    | SetDoc(id: string, data: Object)
    | PatchDoc(id: string, data: Object)
    | DeleteDoc(id: string)

  datatype Check = MaxBytes | MaxFields | RequiredFields | AllowedFields

  datatype WriteError =
    | CollectionNotFound
    | CollectionExists
    | AccessDenied
    | ValidatorFailed(check: Check)
    | DocumentExists
    | DocumentNotFound

  // ---------------------------------------------------------------- access and validation

  predicate CanAccess(coll: Collection, caller: Caller, write: bool, document: Option<Document>) {
    var ownerUser := if caller.OwnerRoute? then Some(coll.owner) else caller.user;
    var app := if caller.KeyRoute? then caller.app else None;
    var member := app.Some? && app.value.project == coll.owner && app.value.database == coll.database;
    ownerUser == Some(coll.owner) ||
    match if write then coll.config.write else coll.config.read
    case PublicRule => true
    case AuthenticatedRule => ownerUser.Some? || member
    case DocumentOwnerRule =>
      member && (document.None? || document.value.owner == Some(app.value.uid))
    case OwnerRule => false
  }

  // ---------------------------------------------------------------- who is asking

  /** The owner of the collection: through its own routes, or signed in on the others. */
  predicate IsOwner(c: Collection, caller: Caller) {
    match caller
    case OwnerRoute => true
    case ByIdRoute(user) => user == Some(c.owner)
    case KeyRoute(user, _) => user == Some(c.owner)
  }

  predicate IsSignedIn(caller: Caller) {
    match caller
    case OwnerRoute => true
    case ByIdRoute(user) => user.Some?
    case KeyRoute(user, _) => user.Some?
  }

  /** An app user of the project and database that the collection belongs to. */
  predicate IsMember(c: Collection, caller: Caller) {
    match caller
    case KeyRoute(_, Some(app)) => app.project == c.owner && app.database == c.database
    case _ => false
  }

  /** The row is the app user's own. */
  predicate IsOwn(row: Document, caller: Caller) {
    match caller
    case KeyRoute(_, Some(app)) => row.owner == Some(app.uid)
    case _ => false
  }

  /** Whom a rule lets into the collection as a whole. */
  predicate Permits(rule: Rule, c: Collection, caller: Caller) {
    || IsOwner(c, caller)
    || match rule
       case PublicRule => true
       case AuthenticatedRule => IsSignedIn(caller) || IsMember(c, caller)
       case DocumentOwnerRule => IsMember(c, caller)
       case OwnerRule => false
  }

  /** The access check, rule by rule, with and without a document. */
  lemma AccessByRule(c: Collection, caller: Caller, write: bool, document: Option<Document>)
    ensures CanAccess(c, caller, write, None) <==> Permits(if write then c.config.write else c.config.read, c, caller)
    ensures IsOwner(c, caller) ==> CanAccess(c, caller, write, document)
    ensures !IsOwner(c, caller) ==>
      (CanAccess(c, caller, write, document) <==>
       match if write then c.config.write else c.config.read
       case PublicRule => true
       case AuthenticatedRule => IsSignedIn(caller) || IsMember(c, caller)
       case DocumentOwnerRule => IsMember(c, caller) && (document.None? || IsOwn(document.value, caller))
       case OwnerRule => false)
  {
  }

  /** The first check of the write validator that `data` fails; `size` is its encoded length. */
  function FailedCheck(validator: Option<Validator>, data: Object, size: nat): Option<Check> {
    if validator.None? then None
    else
      var v := validator.value;
      if v.maxBytes.Some? && size > v.maxBytes.value then Some(MaxBytes)
      else if v.maxFields.Some? && |data| > v.maxFields.value then Some(MaxFields)
      else if exists field | field in v.required :: field !in data then Some(RequiredFields)
      else if v.allowed != [] && exists field | field in data :: field !in v.allowed then Some(AllowedFields)
      else None
  }

  // ---------------------------------------------------------------- what a request is answered with

  predicate Live(row: Option<Document>) {
    row.Some? && !row.value.deleted
  }

  /** The owner recorded in the log: only the publishable-key routes record one. */
  function LoggedOwner(caller: Caller, row: Option<Document>): Option<string> {
    if !caller.KeyRoute? then None
    else if row.Some? then row.value.owner
    else if caller.app.Some? then Some(caller.app.value.uid)
    else None
  }

  /** The owner stored in a row that the request creates. */
  function CreatedOwner(caller: Caller): Option<string> {
    LoggedOwner(caller, None)
  }

  function Entry(coll: nat, id: string, owner: Option<string>, op: OpName, payload: Payload): Operation {
    Operation(0, coll, Some(id), owner, op, payload)
  }

  /** Only the public families run the collection's write validator. */
  function RejectedBy(c: Collection, caller: Caller, data: Object, size: nat): Option<Check> {
    if caller.OwnerRoute? then None else FailedCheck(c.config.validator, data, size)
  }

  /** The key routes check the document too, whenever there is a row to write to. */
  predicate Barred(c: Collection, caller: Caller, row: Option<Document>) {
    caller.KeyRoute? && row.Some? && !CanAccess(c, caller, true, row)
  }

  /** The refusal of a document write, or the operation it logs (its id is not known yet). */
  function Admit(db: Db, caller: Caller, coll: nat, write: Write, size: nat): Result<Operation, WriteError> {
    if coll !in db.colls then Failure(CollectionNotFound)
    else AdmitTo(db.colls[coll], Lookup(db.docs, (coll, write.id)), caller, coll, write, size)
  }

  function AdmitTo(c: Collection, row: Option<Document>, caller: Caller, coll: nat, write: Write, size: nat)
    : Result<Operation, WriteError>
  {
    if !CanAccess(c, caller, true, None) then Failure(AccessDenied)
    else
      match write
      case CreateDoc(id, data) =>
        if RejectedBy(c, caller, data, size).Some? then
          Failure(ValidatorFailed(RejectedBy(c, caller, data, size).value))
        else if Live(row) then Failure(DocumentExists)
        else if Barred(c, caller, row) then Failure(AccessDenied)
        else Success(Entry(coll, id, LoggedOwner(caller, row), CreateOp, DataPayload(data)))
      case SetDoc(id, data) =>
        if RejectedBy(c, caller, data, size).Some? then
          Failure(ValidatorFailed(RejectedBy(c, caller, data, size).value))
        else if Barred(c, caller, row) then Failure(AccessDenied)
        else
          var op := if row.None? then CreateOp else SetOp;
          Success(Entry(coll, id, LoggedOwner(caller, row), op, DataPayload(data)))
      case PatchDoc(id, data) =>
        if !Live(row) then Failure(DocumentNotFound)
        else if Barred(c, caller, row) then Failure(AccessDenied)
        else if RejectedBy(c, caller, row.value.data + data, size).Some? then
          Failure(ValidatorFailed(RejectedBy(c, caller, row.value.data + data, size).value))
        else Success(Entry(coll, id, LoggedOwner(caller, row), PatchOp, DataPayload(data)))
      case DeleteDoc(id) =>
        if !Live(row) then Failure(DocumentNotFound)
        else if Barred(c, caller, row) then Failure(AccessDenied)
        else Success(Entry(coll, id, LoggedOwner(caller, row), DeleteOp, EmptyPayload))
  }

  /** What logging `entry` under `id` means: the interpreter's effect on rows and settings. */
  function Commit(db: Db, entry: Operation, id: nat, now: int): Result<Db, ReplayError> {
    var op := entry.(id := id);
    match ReplayOne(db.docs, op)
    case Failure(e) => Failure(e)
    case Success(docs) =>
      var colls := if op.coll in db.colls
                   then db.colls[op.coll := db.colls[op.coll].(config := ApplyConfig(db.colls[op.coll].config, op))]
                   else db.colls;
      if OnDocument(op) then
        var key := (op.coll, op.docId.value);
        Success(db.(colls := colls, docs := docs, stamps := db.stamps[key := now],
                    order := if key in db.docs then db.order else db.order + [key],
                    log := db.log + [op], lastId := id))
      else
        Success(db.(colls := colls, docs := docs, log := db.log + [op], lastId := id))
  }

  /** A document request took the database from `before` to `after` and answered `r`. */
  ghost predicate Served(before: Db, after: Db, caller: Caller, coll: nat, write: Write, size: nat, now: int,
                         r: Result<Document, WriteError>)
  {
    match Admit(before, caller, coll, write, size)
    case Failure(e) => r == Failure(e) && after == before
    case Success(entry) =>
      && before.lastId < after.lastId
      && Commit(before, entry, after.lastId, now) == Success(after)
      && (coll, write.id) in after.docs && r == Success(after.docs[(coll, write.id)])
  }

  // ---------------------------------------------------------------- consistency

  /** The log creates this document. */
  predicate Creates(log: seq<Operation>, key: DocKey) {
    log != [] && (Creates(Front(log), key) || (Concerns(Last(log), key) && Last(log).op.CreateOp?))
  }

  /** Every document operation other than `create` follows a `create` of the same document. */
  predicate Started(log: seq<Operation>) {
    log == [] ||
    (Started(Front(log)) &&
     var op := Last(log);
     OnDocument(op) && !op.op.CreateOp? ==>
       op.docId.Some? && Creates(Front(log), (op.coll, op.docId.value)))
  }

  predicate CollectionsKnown(log: seq<Operation>, known: set<nat>) {
    log == [] || (CollectionsKnown(Front(log), known) && Last(log).coll in known)
  }

  /** The log holds an operation on collection `c`. */
  predicate Mentions(log: seq<Operation>, c: nat) {
    log != [] && (Mentions(Front(log), c) || Last(log).coll == c)
  }

  ghost predicate DistinctNames(colls: map<nat, Collection>) {
    forall c, d | c in colls && d in colls && colls[c].name == colls[d].name :: c == d
  }

  predicate LogConsistent(db: Db) {
    && Ascending(db.log) && HighestId(db.log) <= db.lastId
    && Replay(map[], db.log) == Success(db.docs)
    && Started(db.log)
  }

  ghost predicate SettingsConsistent(db: Db) {
    && CollectionsKnown(db.log, db.colls.Keys)
    && (forall c | c in db.colls :: c <= db.lastColl && Mentions(db.log, c))
    && (forall c | c in db.colls :: db.colls[c].config == ConfigAfter(DEFAULT_CONFIG, db.log, c))
    && DistinctNames(db.colls)
  }

  predicate OrderConsistent(db: Db) {
    && db.stamps.Keys == db.docs.Keys
    && db.docs.Keys == (set key | key in db.order)
    && NoDuplicates(db.order)
  }

  /** The materialised rows and settings are exactly what the log says. */
  ghost predicate Consistent(db: Db) {
    LogConsistent(db) && SettingsConsistent(db) && OrderConsistent(db)
  }

  /** Every row the interpreter built was created by the log. */
  lemma {:induction false} RowsWereCreated(log: seq<Operation>, key: DocKey)
    requires Started(log) && Replay(map[], log).Success? && key in Replay(map[], log).value
    ensures Creates(log, key)
  {
    if log != [] && key in Replay(map[], Front(log)).value {
      RowsWereCreated(Front(log), key);
    }
  }

  /** The first operation the log holds about a document is a `create`. */
  lemma {:induction false} SubLogStartsWithCreate(db: Db, key: DocKey, i: nat)
    requires Consistent(db) && i < |db.log| && Concerns(db.log[i], key)
    requires forall j | 0 <= j < i :: !Concerns(db.log[j], key)
    ensures db.log[i].op.CreateOp?
  {
    if !db.log[i].op.CreateOp? {
      StartedAt(db.log, i);
      CreatesSomewhere(db.log[..i], key);
    }
  }

  lemma {:induction false} StartedAt(log: seq<Operation>, i: nat)
    requires Started(log) && i < |log| && OnDocument(log[i]) && !log[i].op.CreateOp?
    ensures log[i].docId.Some? && Creates(log[..i], (log[i].coll, log[i].docId.value))
  {
    if i == |log| - 1 {
      assert log[..i] == Front(log);
    } else {
      StartedAt(Front(log), i);
      assert Front(log)[..i] == log[..i];
    }
  }

  lemma {:induction false} CreatesSomewhere(log: seq<Operation>, key: DocKey)
    requires Creates(log, key)
    ensures exists j :: 0 <= j < |log| && Concerns(log[j], key)
  {
    if Creates(Front(log), key) {
      CreatesSomewhere(Front(log), key);
      var j :| 0 <= j < |Front(log)| && Concerns(Front(log)[j], key);
      assert Concerns(log[j], key);
    } else {
      assert Concerns(log[|log| - 1], key);
    }
  }

  lemma CommitKeepsLog(db: Db, entry: Operation, id: nat, now: int)
    requires LogConsistent(db) && id > db.lastId && Commit(db, entry, id, now).Success?
    requires OnDocument(entry) && !entry.op.CreateOp? ==>
               entry.docId.Some? && (entry.coll, entry.docId.value) in db.docs
    ensures LogConsistent(Commit(db, entry, id, now).value)
  {
    var after := Commit(db, entry, id, now).value;
    assert Front(after.log) == db.log && Last(after.log) == entry.(id := id);
    if OnDocument(entry) && !entry.op.CreateOp? {
      RowsWereCreated(db.log, (entry.coll, entry.docId.value));
    }
  }

  lemma CommitKeepsSettings(db: Db, entry: Operation, id: nat, now: int)
    requires SettingsConsistent(db) && entry.coll in db.colls && Commit(db, entry, id, now).Success?
    ensures SettingsConsistent(Commit(db, entry, id, now).value)
  {
    var after := Commit(db, entry, id, now).value;
    assert Front(after.log) == db.log && Last(after.log) == entry.(id := id);
    assert after.colls.Keys == db.colls.Keys;
  }

  lemma OrderGrows(order: seq<DocKey>, keys: set<DocKey>, key: DocKey)
    requires keys == (set k | k in order) && NoDuplicates(order) && key !in keys
    ensures NoDuplicates(order + [key]) && keys + {key} == (set k | k in order + [key])
  {
    assert Front(order + [key]) == order;
  }

  lemma CommitKeepsOrder(db: Db, entry: Operation, id: nat, now: int)
    requires OrderConsistent(db) && Commit(db, entry, id, now).Success?
    ensures OrderConsistent(Commit(db, entry, id, now).value)
  {
    if OnDocument(entry) {
      var after := Commit(db, entry, id, now).value;
      var key := (entry.coll, entry.docId.value);
      assert after.docs.Keys == db.docs.Keys + {key} && after.stamps.Keys == db.stamps.Keys + {key};
      if key !in db.docs {
        OrderGrows(db.order, db.docs.Keys, key);
      } else {
        assert after.docs.Keys == db.docs.Keys;
      }
    }
  }

  /** A committed operation about a known collection keeps the database consistent, provided
      that it is a `create` or concerns a row that exists. */
  lemma CommitKeepsConsistent(db: Db, entry: Operation, id: nat, now: int)
    requires Consistent(db) && id > db.lastId && entry.coll in db.colls
    requires Commit(db, entry, id, now).Success?
    requires OnDocument(entry) && !entry.op.CreateOp? ==>
               entry.docId.Some? && (entry.coll, entry.docId.value) in db.docs
    ensures Consistent(Commit(db, entry, id, now).value)
  {
    CommitKeepsLog(db, entry, id, now);
    CommitKeepsSettings(db, entry, id, now);
    CommitKeepsOrder(db, entry, id, now);
  }

  /** An admitted operation fits the interpreter: it names a known collection and a document, it is
      a `create` or its row exists, and replaying it cannot fail. */
  lemma AdmittedOperationFits(db: Db, caller: Caller, coll: nat, write: Write, size: nat, id: nat)
    requires Admit(db, caller, coll, write, size).Success?
    ensures
      var entry := Admit(db, caller, coll, write, size).value;
      && coll in db.colls && entry.coll == coll && OnDocument(entry) && entry.docId == Some(write.id)
      && (!entry.op.CreateOp? ==> (coll, write.id) in db.docs)
      && ReplayDocument(Lookup(db.docs, (coll, write.id)), entry.(id := id)).Success?
  {
  }

  /** Whatever a route logs, the interpreter accepts it, and the result is consistent again. */
  lemma AdmittedWriteReplays(db: Db, caller: Caller, coll: nat, write: Write, size: nat, id: nat, now: int)
    requires Consistent(db) && id > db.lastId
    requires Admit(db, caller, coll, write, size).Success?
    ensures Commit(db, Admit(db, caller, coll, write, size).value, id, now).Success?
    ensures Consistent(Commit(db, Admit(db, caller, coll, write, size).value, id, now).value)
  {
    AdmittedOperationFits(db, caller, coll, write, size, id);
    CommitKeepsConsistent(db, Admit(db, caller, coll, write, size).value, id, now);
  }

  /** Every document route keeps the rows equal to what the log replays to. */
  lemma ServedKeepsConsistent(before: Db, after: Db, caller: Caller, coll: nat, write: Write, size: nat, now: int,
                              r: Result<Document, WriteError>)
    requires Consistent(before) && Served(before, after, caller, coll, write, size, now, r)
    ensures Consistent(after)
  {
    if Admit(before, caller, coll, write, size).Success? {
      AdmittedWriteReplays(before, caller, coll, write, size, after.lastId, now);
    }
  }

  /** A route that has edited the row, the stamps, the listing order and the log as `Admit` and the
      interpreter ask for has served the request. */
  lemma Settle(before: Db, after: Db, caller: Caller, coll: nat, write: Write, size: nat, now: int, row: Document)
    requires Admit(before, caller, coll, write, size).Success?
    requires before.lastId < after.lastId && after.lastColl == before.lastColl && after.colls == before.colls
    requires
      var key := (coll, write.id);
      var entry := Admit(before, caller, coll, write, size).value;
      && ReplayDocument(Lookup(before.docs, key), entry.(id := after.lastId)) == Success(row)
      && after.docs == before.docs[key := row]
      && after.stamps == before.stamps[key := now]
      && after.order == (if key in before.docs then before.order else before.order + [key])
      && after.log == before.log + [entry.(id := after.lastId)]
    ensures Served(before, after, caller, coll, write, size, now, Success(row))
  {
    AdmittedOperationFits(before, caller, coll, write, size, after.lastId);
    assert after.colls == before.colls[coll := before.colls[coll]];
  }

  // ---------------------------------------------------------------- runs

  /** The owner's single write `write` succeeds on `before` and leaves `after`. */
  ghost predicate OneServed(before: Db, after: Db, coll: nat, write: Write, now: int) {
    exists r: Result<Document, WriteError> ::
      r.Success? && Served(before, after, OwnerRoute, coll, write, 0, now, r)
  }

  /** `served` is a run of successful single owner requests, one per write. */
  ghost predicate OneByOne(served: seq<Db>, coll: nat, writes: seq<Write>, now: int) {
    && |served| == |writes| + 1
    && forall i | 0 <= i < |writes| :: OneServed(served[i], served[i + 1], coll, writes[i], now)
  }

  /** A settings request: a rules or validator operation on a known collection. */
  ghost predicate SettingsServed(before: Db, after: Db, entry: Operation) {
    && before.lastId < after.lastId && entry.coll in before.colls
    && (entry.op.RulesOp? || entry.op.ValidatorOp?)
    && Commit(before, entry, after.lastId, 0) == Success(after)
  }

  /** A new collection: default settings, a fresh id, a name nobody has, and one logged operation. */
  ghost predicate CollectionServed(before: Db, after: Db, name: string, owner: nat, database: nat) {
    && (forall c | c in before.colls :: before.colls[c].name != name)
    && before.lastColl < after.lastColl && before.lastId < after.lastId
    && var c := after.lastColl;
       after == before.(
         colls := before.colls[c := Collection(name, owner, database, DEFAULT_CONFIG)], lastColl := c,
         log := before.log + [Operation(after.lastId, c, None, None, CollectionOp, CollectionPayload(name))],
         lastId := after.lastId)
  }

  datatype Request =
    | DocumentRequest(caller: Caller, coll: nat, write: Write, size: nat, now: int,
                      answer: Result<Document, WriteError>)
    | BatchRequest(coll: nat, writes: seq<Write>, now: int, served: seq<Db>)
    | SettingsRequest(entry: Operation)
    | CollectionRequest(name: string, owner: nat, database: nat)

  /** A committed request took the database from `before` to `after`. */
  ghost predicate Steps(before: Db, after: Db, request: Request) {
    match request
    case DocumentRequest(caller, coll, write, size, now, answer) =>
      Served(before, after, caller, coll, write, size, now, answer)
    case BatchRequest(coll, writes, now, served) =>
      OneByOne(served, coll, writes, now) && served[0] == before && Last(served) == after
    case SettingsRequest(entry) =>
      SettingsServed(before, after, entry)
    case CollectionRequest(name, owner, database) =>
      CollectionServed(before, after, name, owner, database)
  }

  lemma {:induction false} BatchKeepsConsistent(served: seq<Db>, coll: nat, writes: seq<Write>, now: int, i: nat)
    requires OneByOne(served, coll, writes, now) && i < |served| && Consistent(served[0])
    ensures Consistent(served[i])
  {
    if i > 0 {
      BatchKeepsConsistent(served, coll, writes, now, i - 1);
      OneServedKeepsConsistent(served[i - 1], served[i], coll, writes[i - 1], now);
    }
  }

  lemma OneServedKeepsConsistent(before: Db, after: Db, coll: nat, write: Write, now: int)
    requires Consistent(before) && OneServed(before, after, coll, write, now)
    ensures Consistent(after)
  {
    var r: Result<Document, WriteError> :|
      r.Success? && Served(before, after, OwnerRoute, coll, write, 0, now, r);
    ServedKeepsConsistent(before, after, OwnerRoute, coll, write, 0, now, r);
  }

  lemma {:induction false} ConfigUntouched(config: Config, log: seq<Operation>, known: set<nat>, c: nat)
    requires CollectionsKnown(log, known) && c !in known
    ensures ConfigAfter(config, log, c) == config
  {
    if log != [] { ConfigUntouched(config, Front(log), known, c); }
  }

  lemma {:induction false} KnownGrows(log: seq<Operation>, known: set<nat>, more: set<nat>)
    requires CollectionsKnown(log, known) && known <= more
    ensures CollectionsKnown(log, more)
  {
    if log != [] { KnownGrows(Front(log), known, more); }
  }

  lemma CollectionKeepsConsistent(before: Db, after: Db, name: string, owner: nat, database: nat)
    requires Consistent(before) && CollectionServed(before, after, name, owner, database)
    ensures Consistent(after)
  {
    var c := after.lastColl;
    assert Front(after.log) == before.log;
    KnownGrows(before.log, before.colls.Keys, after.colls.Keys);
    ConfigUntouched(DEFAULT_CONFIG, before.log, before.colls.Keys, c);
  }

  lemma StepKeepsConsistent(before: Db, after: Db, request: Request)
    requires Consistent(before) && Steps(before, after, request)
    ensures Consistent(after)
  {
    match request
    case DocumentRequest(caller, coll, write, size, now, answer) =>
      ServedKeepsConsistent(before, after, caller, coll, write, size, now, answer);
    case BatchRequest(coll, writes, now, served) =>
      BatchKeepsConsistent(served, coll, writes, now, |served| - 1);
    case SettingsRequest(entry) =>
      CommitKeepsConsistent(before, entry, after.lastId, 0);
    case CollectionRequest(name, owner, database) =>
      CollectionKeepsConsistent(before, after, name, owner, database);
  }

  /** Log and rows agree after every request of every run from an empty database. */
  lemma {:induction false} EveryRunIsConsistent(run: seq<Db>, requests: seq<Request>, i: nat)
    requires |run| == |requests| + 1 && run[0] == EMPTY_DB && i < |run|
    requires forall k | 0 <= k < |requests| :: Steps(run[k], run[k + 1], requests[k])
    ensures Consistent(run[i])
  {
    if i > 0 {
      EveryRunIsConsistent(run, requests, i - 1);
      StepKeepsConsistent(run[i - 1], run[i], requests[i - 1]);
    }
  }

  // ---------------------------------------------------------------- the routes

  class JsonDb {
    var colls: map<nat, Collection>
    var docs: Documents
    var stamps: map<DocKey, int>
    var order: seq<DocKey>
    var log: seq<Operation>
    var lastId: nat
    var lastColl: nat

    ghost function State(): Db
      reads this
    {
      Db(colls, docs, stamps, order, log, lastId, lastColl)
    }

    constructor ()
      ensures State() == EMPTY_DB
    {
      colls, docs, stamps, order, log, lastId, lastColl := map[], map[], map[], [], [], 0, 0;
    }

    /** `sess.add(_operation(...))`: ids increase; other databases may take the `gap` ids between. */
    method AddOperation(coll: nat, docId: Option<string>, owner: Option<string>, op: OpName, payload: Payload,
                        gap: nat)
      modifies `log, `lastId
      ensures lastId == old(lastId) + 1 + gap
      ensures log == old(log) + [Operation(lastId, coll, docId, owner, op, payload)]
    {
      lastId := lastId + 1 + gap;
      log := log + [Operation(lastId, coll, docId, owner, op, payload)];
    }

    method CreateDocument(caller: Caller, coll: nat, docId: string, data: Object, size: nat, gap: nat, now: int)
      returns (r: Result<Document, WriteError>)
      modifies this
      ensures Served(old(State()), State(), caller, coll, CreateDoc(docId, data), size, now, r)
    {
      ghost var before := State();
      if coll !in colls { return Failure(CollectionNotFound); }
      var c, key := colls[coll], (coll, docId);
      if !CanAccess(c, caller, true, None) { return Failure(AccessDenied); }
      if !caller.OwnerRoute? {
        var failed := FailedCheck(c.config.validator, data, size);
        if failed.Some? { return Failure(ValidatorFailed(failed.value)); }
      }
      var existing := Lookup(docs, key);
      if existing.Some? && !existing.value.deleted { return Failure(DocumentExists); }
      var row: Document;
      if existing.None? {
        row := Document(data, 1, false, CreatedOwner(caller));
        order := order + [key];
      } else {
        if caller.KeyRoute? && !CanAccess(c, caller, true, existing) { return Failure(AccessDenied); }
        row := existing.value.(data := data);
        row := row.(version := row.version + 1, deleted := false);
      }
      docs, stamps := docs[key := row], stamps[key := now];
      AddOperation(coll, Some(docId), if caller.KeyRoute? then row.owner else None,
                   CreateOp, DataPayload(data), gap);
      Settle(before, State(), caller, coll, CreateDoc(docId, data), size, now, row);
      return Success(row);
    }

    method SetDocument(caller: Caller, coll: nat, docId: string, data: Object, size: nat, gap: nat, now: int)
      returns (r: Result<Document, WriteError>)
      modifies this
      ensures Served(old(State()), State(), caller, coll, SetDoc(docId, data), size, now, r)
    {
      ghost var before := State();
      if coll !in colls { return Failure(CollectionNotFound); }
      var c, key := colls[coll], (coll, docId);
      if !CanAccess(c, caller, true, None) { return Failure(AccessDenied); }
      if !caller.OwnerRoute? {
        var failed := FailedCheck(c.config.validator, data, size);
        if failed.Some? { return Failure(ValidatorFailed(failed.value)); }
      }
      var found := Lookup(docs, key);
      var row: Document;
      var op: OpName;
      if found.None? {
        row := Document(data, 1, false, CreatedOwner(caller));
        order := order + [key];
        op := CreateOp;
      } else {
        if caller.KeyRoute? && !CanAccess(c, caller, true, found) { return Failure(AccessDenied); }
        row := found.value.(data := data);
        row := row.(version := row.version + 1, deleted := false);
        op := SetOp;
      }
      docs, stamps := docs[key := row], stamps[key := now];
      AddOperation(coll, Some(docId), if caller.KeyRoute? then row.owner else None,
                   op, DataPayload(data), gap);
      Settle(before, State(), caller, coll, SetDoc(docId, data), size, now, row);
      return Success(row);
    }

    method PatchDocument(caller: Caller, coll: nat, docId: string, data: Object, size: nat, gap: nat, now: int)
      returns (r: Result<Document, WriteError>)
      modifies this
      ensures Served(old(State()), State(), caller, coll, PatchDoc(docId, data), size, now, r)
    {
      ghost var before := State();
      if coll !in colls { return Failure(CollectionNotFound); }
      var c, key := colls[coll], (coll, docId);
      if !CanAccess(c, caller, true, None) { return Failure(AccessDenied); }
      if key !in docs || docs[key].deleted { return Failure(DocumentNotFound); }
      var row := docs[key];
      if caller.KeyRoute? && !CanAccess(c, caller, true, Some(row)) { return Failure(AccessDenied); }
      var merged := row.data + data;
      if !caller.OwnerRoute? {
        var failed := FailedCheck(c.config.validator, merged, size);
        if failed.Some? { return Failure(ValidatorFailed(failed.value)); }
      }
      row := row.(data := merged, version := row.version + 1);
      docs, stamps := docs[key := row], stamps[key := now];
      AddOperation(coll, Some(docId), if caller.KeyRoute? then row.owner else None,
                   PatchOp, DataPayload(data), gap);
      Settle(before, State(), caller, coll, PatchDoc(docId, data), size, now, row);
      return Success(row);
    }

    method DeleteDocument(caller: Caller, coll: nat, docId: string, gap: nat, now: int)
      returns (r: Result<Document, WriteError>)
      modifies this
      ensures Served(old(State()), State(), caller, coll, DeleteDoc(docId), 0, now, r)
    {
      ghost var before := State();
      if coll !in colls { return Failure(CollectionNotFound); }
      var c, key := colls[coll], (coll, docId);
      if !CanAccess(c, caller, true, None) { return Failure(AccessDenied); }
      if key !in docs || docs[key].deleted { return Failure(DocumentNotFound); }
      var row := docs[key];
      if caller.KeyRoute? && !CanAccess(c, caller, true, Some(row)) { return Failure(AccessDenied); }
      row := row.(deleted := true, version := row.version + 1);
      docs, stamps := docs[key := row], stamps[key := now];
      AddOperation(coll, Some(docId), if caller.KeyRoute? then row.owner else None,
                   DeleteOp, EmptyPayload, gap);
      Settle(before, State(), caller, coll, DeleteDoc(docId), 0, now, row);
      return Success(row);
    }

    /** One write of a batch, inside the open transaction. */
    method WriteInBatch(coll: nat, write: Write, gap: nat, now: int) returns (error: Option<WriteError>)
      requires coll in colls
      modifies this
      ensures
        match error
        case None => OneServed(old(State()), State(), coll, write, now)
        case Some(e) => Admit(old(State()), OwnerRoute, coll, write, 0) == Failure(e) && State() == old(State())
    {
      ghost var before := State();
      var key := (coll, write.id);
      var row: Document;
      var op, payload := DeleteOp, EmptyPayload;
      if write.CreateDoc? || write.SetDoc? {
        var found := Lookup(docs, key);
        if write.CreateDoc? && found.Some? && !found.value.deleted { return Some(DocumentExists); }
        if found.None? {
          row := Document(write.data, 1, false, None);
          order := order + [key];
        } else {
          row := found.value.(data := write.data);
          row := row.(version := row.version + 1, deleted := false);
        }
        op := if write.CreateDoc? || found.None? then CreateOp else SetOp;
        payload := DataPayload(write.data);
      } else {
        if key !in docs || docs[key].deleted { return Some(DocumentNotFound); }
        if write.PatchDoc? {
          row := docs[key].(data := docs[key].data + write.data);
          op, payload := PatchOp, DataPayload(write.data);
        } else {
          row := docs[key].(deleted := true);
        }
        row := row.(version := row.version + 1);
      }
      docs, stamps := docs[key := row], stamps[key := now];
      AddOperation(coll, Some(write.id), None, op, payload, gap);
      Settle(before, State(), OwnerRoute, coll, write, 0, now, row);
      ghost var answer: Result<Document, WriteError> := Success(row);
      assert Served(before, State(), OwnerRoute, coll, write, 0, now, answer) && answer.Success?;
      return None;
    }

    /** Up to a hundred owner writes in one transaction.  On a refusal everything is rolled back, and
        `served` shows the writes before it succeeding one by one; otherwise `served` is the run of
        single requests that the batch amounts to. */
    method BatchDocuments(coll: nat, writes: seq<Write>, gap: nat, now: int)
      returns (r: Result<nat, (nat, WriteError)>, ghost served: seq<Db>)
      requires 1 <= |writes| <= MAX_BATCH_WRITES
      modifies this
      ensures |served| > 0 && served[0] == old(State())
      ensures
        match r
        case Success(total) =>
          total == |writes| && OneByOne(served, coll, writes, now) && Last(served) == State()
        case Failure((index, error)) =>
          && State() == old(State())
          && index < |writes| && OneByOne(served, coll, writes[..index], now)
          && Admit(Last(served), OwnerRoute, coll, writes[index], 0) == Failure(error)
    {
      served := [State()];
      if coll !in colls {
        return Failure((0, CollectionNotFound)), served;
      }
      var saved := (colls, docs, stamps, order, log, lastId);
      var i := 0;
      while i < |writes|
        invariant 0 <= i <= |writes|
        invariant |served| == i + 1 && served[0] == old(State()) && served[i] == State()
        invariant forall k | 0 <= k < i :: OneServed(served[k], served[k + 1], coll, writes[k], now)
        invariant coll in colls && lastColl == old(lastColl)
        invariant saved == old((colls, docs, stamps, order, log, lastId))
      {
        var error := WriteInBatch(coll, writes[i], if i == 0 then gap else 0, now);
        if error.Some? {
          colls, docs, stamps, order, log, lastId := saved.0, saved.1, saved.2, saved.3, saved.4, saved.5;
          return Failure((i, error.value)), served;
        }
        served := served + [State()];
        i := i + 1;
      }
      return Success(i), served;
    }

    method SetRules(coll: nat, read: Rule, write: Rule, gap: nat) returns (r: Result<(), WriteError>)
      modifies this
      ensures r == if coll in old(colls) then Success(()) else Failure(CollectionNotFound)
      ensures if coll in old(colls) then
                SettingsServed(old(State()), State(),
                               Operation(0, coll, None, None, RulesOp, RulesPayload(read, write)))
              else State() == old(State())
      ensures coll in colls ==> colls[coll].config.read == read && colls[coll].config.write == write
    {
      if coll !in colls { return Failure(CollectionNotFound); }
      var c := colls[coll];
      c := c.(config := c.config.(read := read));
      c := c.(config := c.config.(write := write));
      colls := colls[coll := c];
      AddOperation(coll, None, None, RulesOp, RulesPayload(read, write), gap);
      return Success(());
    }

    /** Sets the write validator, or clears it (`None`). */
    method SetValidator(coll: nat, validator: Option<Validator>, gap: nat) returns (r: Result<(), WriteError>)
      modifies this
      ensures r == if coll in old(colls) then Success(()) else Failure(CollectionNotFound)
      ensures if coll in old(colls) then
                SettingsServed(old(State()), State(),
                               Operation(0, coll, None, None, ValidatorOp, ValidatorPayload(validator)))
              else State() == old(State())
      ensures coll in colls ==> colls[coll].config.validator == validator
    {
      if coll !in colls { return Failure(CollectionNotFound); }
      var c := colls[coll];
      colls := colls[coll := c.(config := c.config.(validator := validator))];
      AddOperation(coll, None, None, ValidatorOp, ValidatorPayload(validator), gap);
      return Success(());
    }

    method CreateCollection(name: string, owner: nat, database: nat, gap: nat) returns (r: Result<nat, WriteError>)
      modifies this
      ensures r.Failure? <==> exists c :: c in old(colls) && old(colls)[c].name == name
      ensures r.Failure? ==> r.error == CollectionExists && State() == old(State())
      ensures r.Success? ==> r.value == lastColl && CollectionServed(old(State()), State(), name, owner, database)
      ensures r.Success? ==> r.value in colls && colls[r.value].name == name && colls[r.value].owner == owner
    {
      if exists c | c in colls :: colls[c].name == name { return Failure(CollectionExists); }
      lastColl := lastColl + 1 + gap;
      colls := colls[lastColl := Collection(name, owner, database, DEFAULT_CONFIG)];
      AddOperation(lastColl, None, None, CollectionOp, CollectionPayload(name), gap);
      return Success(lastColl);
    }
  }
}
