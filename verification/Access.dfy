/** Who may write, read and follow a collection, said of the answers of the routes and rule by rule; and what
    the write validator of the public routes lets through. */
module Access {
  import opened Prelude
  import opened OperationLog
  import opened JsonRoutes
  import CachedReads

  // ---------------------------------------------------------------- writing

  /** The request was refused for want of access, and so changed nothing. */
  predicate WriteDenied(before: Db, after: Db, r: Result<Document, WriteError>) {
    r == Failure(AccessDenied) && after == before
  }

  /** WRITE ACCESS.  Whatever the read rule: the owner is never denied; under the owner rule nobody else gets
      in; under the public rule everybody does; under the authenticated rule exactly signed-in users and
      members; under the document-owner rule members only. */
  lemma WriteAccess(before: Db, after: Db, caller: Caller, coll: nat, write: Write, size: nat, now: int,
                    r: Result<Document, WriteError>)
    requires Served(before, after, caller, coll, write, size, now, r) && coll in before.colls
    ensures
      var c := before.colls[coll];
      && (IsOwner(c, caller) ==> r != Failure(AccessDenied))
      && (!IsOwner(c, caller) && c.config.write.OwnerRule? ==> WriteDenied(before, after, r))
      && (c.config.write.PublicRule? ==> r != Failure(AccessDenied))
      && (c.config.write.AuthenticatedRule? ==>
            if IsSignedIn(caller) || IsMember(c, caller) then r != Failure(AccessDenied)
            else WriteDenied(before, after, r))
      && (!IsOwner(c, caller) && c.config.write.DocumentOwnerRule? && !IsMember(c, caller) ==>
            WriteDenied(before, after, r))
  {
    var c, row := before.colls[coll], Lookup(before.docs, (coll, write.id));
    AccessByRule(c, caller, true, None);
    AccessByRule(c, caller, true, row);
  }

  /** OWN DOCUMENTS.  Under the document-owner rule a member writes to a row only if it is its own, and to its
      own rows and to new ones without being denied. */
  lemma MembersWriteTheirOwn(before: Db, after: Db, caller: Caller, coll: nat, write: Write, size: nat, now: int,
                             r: Result<Document, WriteError>)
    requires Served(before, after, caller, coll, write, size, now, r) && coll in before.colls
    requires before.colls[coll].config.write.DocumentOwnerRule?
    requires !IsOwner(before.colls[coll], caller) && IsMember(before.colls[coll], caller)
    ensures
      var row := Lookup(before.docs, (coll, write.id));
      && (row.Some? && r.Success? ==> row.value.owner == Some(caller.app.value.uid))
      && (row.Some? && row.value.owner != Some(caller.app.value.uid) ==> r.Failure? && after == before)
      && (row.None? || row.value.owner == Some(caller.app.value.uid) ==> r != Failure(AccessDenied))
  {
    var c, row := before.colls[coll], Lookup(before.docs, (coll, write.id));
    AccessByRule(c, caller, true, None);
    AccessByRule(c, caller, true, row);
  }

  /** A refused request changes nothing, and one for a collection that is not there is refused so. */
  lemma RefusalsChangeNothing(before: Db, after: Db, caller: Caller, coll: nat, write: Write, size: nat, now: int,
                              r: Result<Document, WriteError>)
    requires Served(before, after, caller, coll, write, size, now, r)
    ensures r.Failure? ==> after == before
    ensures r == Failure(CollectionNotFound) <==> coll !in before.colls
  {
  }

  // ---------------------------------------------------------------- reading

  /** READ ACCESS through the owner's and the by-id routes: the same by the read rule, whatever the write rule. */
  lemma ReadAccess(db: Db, caller: Caller, coll: nat)
    requires coll in db.colls && !caller.KeyRoute?
    ensures
      var c, refusal := db.colls[coll], CachedReads.Refusal(db, caller, coll);
      && (IsOwner(c, caller) ==> refusal.None?)
      && (!IsOwner(c, caller) && c.config.read.OwnerRule? ==> refusal == Some(CachedReads.ReadDenied))
      && (c.config.read.PublicRule? ==> refusal.None?)
      && (c.config.read.AuthenticatedRule? ==>
            refusal == if IsSignedIn(caller) then None else Some(CachedReads.ReadDenied))
      && (!IsOwner(c, caller) && c.config.read.DocumentOwnerRule? ==> refusal == Some(CachedReads.ReadDenied))
  {
    AccessByRule(db.colls[coll], caller, false, None);
  }

  // ---------------------------------------------------------------- the write validator

  /** The data of the row after the write: what a public route validates. */
  function Resulting(row: Option<Document>, write: Write): Option<Object> {
    match write
    case CreateDoc(_, data) => Some(data)
    case SetDoc(_, data) => Some(data)
    case PatchDoc(_, data) => if row.Some? then Some(row.value.data + data) else None
    case DeleteDoc(_) => None
  }

  /** The data keeps every limit that the validator sets. */
  predicate Keeps(v: Validator, data: Object, size: nat) {
    && (v.maxBytes.Some? ==> size <= v.maxBytes.value)
    && (v.maxFields.Some? ==> |data| <= v.maxFields.value)
    && (forall field | field in v.required :: field in data)
    && (v.allowed != [] ==> forall field | field in data :: field in v.allowed)
  }

  /** THE VALIDATOR.  What a public route writes keeps every limit, and data that does is never refused by it;
      the owner's routes do not ask it. */
  lemma ValidatorHolds(before: Db, after: Db, caller: Caller, coll: nat, write: Write, size: nat, now: int,
                       r: Result<Document, WriteError>, v: Validator)
    requires Served(before, after, caller, coll, write, size, now, r) && coll in before.colls
    requires before.colls[coll].config.validator == Some(v)
    ensures
      var data := Resulting(Lookup(before.docs, (coll, write.id)), write);
      && (r.Success? && !caller.OwnerRoute? && data.Some? ==> Keeps(v, data.value, size))
      && (r.Failure? && r.error.ValidatorFailed? ==>
            !caller.OwnerRoute? && data.Some? && !Keeps(v, data.value, size))
  {
    var data := Resulting(Lookup(before.docs, (coll, write.id)), write);
    if data.Some? { CheckIs(v, data.value, size); }
  }

  lemma CheckIs(v: Validator, data: Object, size: nat)
    ensures FailedCheck(Some(v), data, size).None? <==> Keeps(v, data, size)
  {
  }

  /** The check that is reported is the first that fails. */
  lemma FirstFailedCheck(v: Validator, data: Object, size: nat)
    ensures
      match FailedCheck(Some(v), data, size)
      case None => Keeps(v, data, size)
      case Some(MaxBytes) => v.maxBytes.Some? && v.maxBytes.value < size
      case Some(MaxFields) => v.maxFields.Some? && v.maxFields.value < |data| && Keeps(v.(maxFields := None,
                                required := [], allowed := []), data, size)
      case Some(RequiredFields) =>
        (exists field :: field in v.required && field !in data) && Keeps(v.(required := [], allowed := []), data, size)
      case Some(AllowedFields) =>
        (exists field :: field in data && field !in v.allowed) && v.allowed != []
        && Keeps(v.(allowed := []), data, size)
  {
  }

  /** Without a validator nothing is refused by it. */
  lemma NoValidatorNoCheck(before: Db, after: Db, caller: Caller, coll: nat, write: Write, size: nat, now: int,
                           r: Result<Document, WriteError>)
    requires Served(before, after, caller, coll, write, size, now, r) && coll in before.colls
    requires before.colls[coll].config.validator.None?
    ensures r.Failure? ==> !r.error.ValidatorFailed?
  {
  }

  /** The data passes the write validator, where the route asks it. */
  predicate Passes(c: Collection, caller: Caller, data: Object, size: nat) {
    caller.OwnerRoute? || c.config.validator.None? || Keeps(c.config.validator.value, data, size)
  }

  /** THE ORDER OF REFUSALS.  A later refusal means that the earlier checks have passed: access to the collection
      first; then for a create the validator, the row that is there, and the access to it; for a set the
      validator and the access to the row; for a patch the row, the access to it, and the validator; for a
      delete the row and the access to it. */
  lemma OrderOfRefusals(before: Db, after: Db, caller: Caller, coll: nat, write: Write, size: nat, now: int,
                        r: Result<Document, WriteError>)
    requires Served(before, after, caller, coll, write, size, now, r) && r.Failure? && coll in before.colls
    ensures
      var c, row := before.colls[coll], Lookup(before.docs, (coll, write.id));
      && (r != Failure(AccessDenied) ==> Permits(c.config.write, c, caller))
      && (Permits(c.config.write, c, caller) ==>
            match write
            case CreateDoc(_, data) =>
              && (r == Failure(DocumentExists) ==> Passes(c, caller, data, size))
              && (r == Failure(AccessDenied) ==> Passes(c, caller, data, size) && row.Some? && row.value.deleted)
            case SetDoc(_, data) => r == Failure(AccessDenied) ==> Passes(c, caller, data, size) && row.Some?
            case PatchDoc(_, data) =>
              && (r == Failure(AccessDenied) ==> row.Some? && !row.value.deleted)
              && (r.error.ValidatorFailed? ==>
                    && row.Some? && !row.value.deleted
                    && (caller.KeyRoute? && c.config.write.DocumentOwnerRule? && !IsOwner(c, caller) ==>
                          IsOwn(row.value, caller)))
            case DeleteDoc(_) => r == Failure(AccessDenied) ==> row.Some? && !row.value.deleted)
  {
    var c, row := before.colls[coll], Lookup(before.docs, (coll, write.id));
    AccessByRule(c, caller, true, None);
    AccessByRule(c, caller, true, row);
  }
}
