/** What a client of the change stream is sent, said of the operations' own fields. */
module StreamContents {
  import opened Prelude
  import opened OperationLog
  import opened JsonRoutes
  import opened EventStream

  /** The caller is an app user of the publishable-key routes. */
  predicate IsAppUser(caller: Caller) {
    caller.KeyRoute? && caller.app.Some?
  }

  /** OWN OPERATIONS.  Under the document-owner rule an app user is sent exactly the operations of the collection
      in (since, last id] that carry its uid, each once and in order. */
  lemma AppUserIsSentItsOwn(since: nat, caller: Caller, coll: nat, looks: seq<Look>)
    requires looks != [] && Growing(looks) && OneRule(looks, DocumentOwnerRule) && IsAppUser(caller)
    ensures
      var c, log := Streamed(since, caller, coll, looks), Last(looks).log;
      && Ascending(c.sent)
      && (forall op :: op in c.sent <==>
            op in log && op.coll == coll && op.owner == Some(caller.app.value.uid) && since < op.id <= c.lastId)
  {
    var c, log := Streamed(since, caller, coll, looks), Last(looks).log;
    ExactlyOnce(since, DocumentOwnerRule, caller, coll, looks);
    forall op
      ensures op in c.sent <==>
              op in log && op.coll == coll && op.owner == Some(caller.app.value.uid) && since < op.id <= c.lastId
    {
      assert Visible(DocumentOwnerRule, caller, coll, op) <==>
             op.coll == coll && op.owner == Some(caller.app.value.uid);
    }
  }

  /** ALL OPERATIONS.  Under every other rule, and for everybody who is not an app user, it is all of the
      collection's operations in that window, whoever owns them. */
  lemma OthersAreSentAll(since: nat, read: Rule, caller: Caller, coll: nat, looks: seq<Look>)
    requires looks != [] && Growing(looks) && OneRule(looks, read)
    requires !read.DocumentOwnerRule? || !IsAppUser(caller)
    ensures
      var c, log := Streamed(since, caller, coll, looks), Last(looks).log;
      && Ascending(c.sent)
      && (forall op :: op in c.sent <==> op in log && op.coll == coll && since < op.id <= c.lastId)
  {
    var c, log := Streamed(since, caller, coll, looks), Last(looks).log;
    ExactlyOnce(since, read, caller, coll, looks);
    forall op ensures op in c.sent <==> op in log && op.coll == coll && since < op.id <= c.lastId {
      assert Visible(read, caller, coll, op) <==> op.coll == coll;
    }
  }

  /** Whom an operation is for. */
  predicate IsFor(read: Rule, caller: Caller, coll: nat, op: Operation) {
    op.coll == coll && (read.DocumentOwnerRule? && IsAppUser(caller) ==> op.owner == Some(caller.app.value.uid))
  }

  lemma PageMembers(wanted: seq<Operation>, op: Operation)
    requires Ascending(wanted) && wanted != []
    ensures Page(wanted) != []
    ensures op in Page(wanted) <==> op in wanted && op.id <= Last(Page(wanted)).id
  {
    var rows := Page(wanted);
    AscendingIdsIncrease(wanted);
    if op in wanted {
      var k :| 0 <= k < |wanted| && wanted[k] == op;
      assert k < |rows| ==> rows[k] == op;
    }
    if op in rows {
      var k :| 0 <= k < |rows| && rows[k] == op;
      assert wanted[k] == op;
    }
  }

  lemma PageIsFirst(wanted: seq<Operation>)
    ensures |Page(wanted)| == Min(100, |wanted|) && Page(wanted) <= wanted
  {
  }

  lemma PollIs(c: Cursor, log: seq<Operation>, read: Rule, caller: Caller, coll: nat)
    requires c.sent == []
    ensures
      var rows := Page(Wanted(log, read, caller, coll, c.lastId));
      Poll(c, caller, coll, Look(log, read)) == Cursor(if rows == [] then c.lastId else Last(rows).id, rows)
  {
    var rows := Page(Wanted(log, read, caller, coll, c.lastId));
    assert [] + rows == rows;
  }

  /** ONE TURN sends, from the operations above the last id that are for the client, the first hundred or all,
      in order; and the last id becomes that of the last one sent. */
  lemma OneTurn(log: seq<Operation>, read: Rule, caller: Caller, coll: nat, last: nat, op: Operation)
    requires Ascending(log)
    ensures
      var c := Poll(Cursor(last, []), caller, coll, Look(log, read));
      && (op in c.sent <==> op in log && IsFor(read, caller, coll, op) && last < op.id <= c.lastId)
      && Ascending(c.sent) && |c.sent| <= 100
      && (|c.sent| < 100 && op in log && IsFor(read, caller, coll, op) && last < op.id ==> op in c.sent)
      && c.lastId == (if c.sent == [] then last else Last(c.sent).id)
  {
    var wanted := Wanted(log, read, caller, coll, last);
    PollIs(Cursor(last, []), log, read, caller, coll);
    WantedAscends(log, read, caller, coll, last);
    WantedMembers(log, read, caller, coll, last, op);
    PageIsFirst(wanted);
    AscendingPrefix(wanted, |Page(wanted)|);
    assert IsFor(read, caller, coll, op) <==> Visible(read, caller, coll, op);
    if wanted != [] { PageMembers(wanted, op); }
  }

  /** THE FRAMES of a turn: its operations one by one, and nothing else; or, if there are none, a keep-alive,
      unless the client asked for one answer only. */
  lemma {:induction false} FramesExactly(rows: seq<Operation>, once: bool)
    ensures rows != [] ==> |FramesOf(rows, once)| == |rows|
                           && forall k | 0 <= k < |rows| :: FramesOf(rows, once)[k] == Change(rows[k])
    ensures rows == [] && once ==> FramesOf(rows, once) == []
    ensures rows == [] && !once ==> FramesOf(rows, once) == [KeepAlive]
  {
    if |rows| == 1 {
      assert Front(rows) == [] && Changes(Front(rows)) == [];
      assert Changes(rows) == [Change(rows[0])];
    } else if |rows| > 1 {
      FramesExactly(Front(rows), once);
      assert FramesOf(rows, once) == FramesOf(Front(rows), once) + [Change(Last(rows))];
    }
  }
}
