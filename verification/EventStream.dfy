/** The change stream of a collection: a cursor into the operation log, polled in batches. */
module EventStream {
  import opened Prelude
  import opened OperationLog
  import opened JsonRoutes
  import Backup

  const EVENT_STREAM_BATCH_LIMIT := 100

  /** Under the document-owner rule an app user only sees the operations on its own documents. */
  predicate Visible(read: Rule, caller: Caller, coll: nat, op: Operation) {
    && op.coll == coll
    && (read.DocumentOwnerRule? && caller.KeyRoute? && caller.app.Some? ==> op.owner == Some(caller.app.value.uid))
  }

  /** The visible operations above a cursor, in log order. */
  function Wanted(log: seq<Operation>, read: Rule, caller: Caller, coll: nat, after: nat): seq<Operation> {
    if log == [] then []
    else if Visible(read, caller, coll, Last(log)) && Last(log).id > after then
      Wanted(Front(log), read, caller, coll, after) + [Last(log)]
    else Wanted(Front(log), read, caller, coll, after)
  }

  /** One query: at most a batch of them. */
  function Page(wanted: seq<Operation>): seq<Operation> {
    wanted[..Min(EVENT_STREAM_BATCH_LIMIT, |wanted|)]
  }

  /** What one poll finds: the log as committed so far, and the read rule in force. */
  datatype Look = Look(log: seq<Operation>, read: Rule)

  datatype Cursor = Cursor(lastId: nat, sent: seq<Operation>)

  function Poll(c: Cursor, caller: Caller, coll: nat, look: Look): Cursor {
    var rows := Page(Wanted(look.log, look.read, caller, coll, c.lastId));
    if rows == [] then c else Cursor(Last(rows).id, c.sent + rows)
  }

  /** A stream opened at `since` that polled once for each look. */
  function Streamed(since: nat, caller: Caller, coll: nat, looks: seq<Look>): Cursor {
    if looks == [] then Cursor(since, [])
    else Poll(Streamed(since, caller, coll, Front(looks)), caller, coll, Last(looks))
  }

  /** Between polls operations are only appended, with higher ids: any interleaving of writers. */
  predicate Growing(looks: seq<Look>) {
    looks == [] ||
    (Growing(Front(looks)) && Ascending(Last(looks).log)
     && (Front(looks) != [] ==> Last(Front(looks)).log <= Last(looks).log))
  }

  predicate OneRule(looks: seq<Look>, read: Rule) {
    looks == [] || (OneRule(Front(looks), read) && Last(looks).read == read)
  }

  // ---------------------------------------------------------------- what a query returns

  lemma {:induction false} WantedMembers(log: seq<Operation>, read: Rule, caller: Caller, coll: nat, after: nat,
                                         op: Operation)
    ensures op in Wanted(log, read, caller, coll, after) <==>
        op in log && Visible(read, caller, coll, op) && after < op.id
  {
    if log != [] {
      WantedMembers(Front(log), read, caller, coll, after, op);
      assert op in log <==> op in Front(log) || op == Last(log);
    }
  }

  lemma {:induction false} WantedAscends(log: seq<Operation>, read: Rule, caller: Caller, coll: nat, after: nat)
    requires Ascending(log)
    ensures Ascending(Wanted(log, read, caller, coll, after))
    ensures HighestId(Wanted(log, read, caller, coll, after)) <= HighestId(log)
  {
    if log != [] {
      var front := Wanted(Front(log), read, caller, coll, after);
      WantedAscends(Front(log), read, caller, coll, after);
      assert Front(front + [Last(log)]) == front;
    }
  }

  lemma {:induction false} WantedConcat(a: seq<Operation>, b: seq<Operation>, read: Rule, caller: Caller, coll: nat,
                                        after: nat)
    ensures Wanted(a + b, read, caller, coll, after)
        == Wanted(a, read, caller, coll, after) + Wanted(b, read, caller, coll, after)
  {
    if b == [] {
      assert a + b == a;
    } else {
      assert Front(a + b) == a + Front(b);
      WantedConcat(a, Front(b), read, caller, coll, after);
    }
  }

  /** Moving the cursor to the `k`-th wanted operation drops the first `k`, and no other. */
  lemma {:induction false} CursorSkips(log: seq<Operation>, read: Rule, caller: Caller, coll: nat, after: nat, k: nat)
    requires Ascending(log) && 0 < k <= |Wanted(log, read, caller, coll, after)|
    ensures
      var wanted := Wanted(log, read, caller, coll, after);
      Wanted(log, read, caller, coll, wanted[k - 1].id) == wanted[k..]
  {
    var wanted := Wanted(log, read, caller, coll, after);
    var front := Wanted(Front(log), read, caller, coll, after);
    if k <= |front| {
      CursorSkips(Front(log), read, caller, coll, after, k);
      WantedAscends(Front(log), read, caller, coll, after);
      IdAtMostHighest(front, k - 1);
      WantedMembers(Front(log), read, caller, coll, after, front[k - 1]);
      AppendSkips(front, Last(log), k);
    } else {
      assert wanted == front + [Last(log)];
      NothingAbove(Front(log), read, caller, coll, Last(log).id);
    }
  }

  lemma AppendSkips(xs: seq<Operation>, x: Operation, k: nat)
    requires k <= |xs|
    ensures (xs + [x])[k..] == xs[k..] + [x]
  {
  }

  lemma {:induction false} IdAtMostHighest(ops: seq<Operation>, i: nat)
    requires Ascending(ops) && i < |ops|
    ensures ops[i].id <= HighestId(ops)
  {
    if i < |ops| - 1 { IdAtMostHighest(Front(ops), i); }
  }

  lemma {:induction false} NothingAbove(log: seq<Operation>, read: Rule, caller: Caller, coll: nat, after: nat)
    requires Ascending(log) && HighestId(log) <= after
    ensures Wanted(log, read, caller, coll, after) == []
  {
    if log != [] { NothingAbove(Front(log), read, caller, coll, after); }
  }

  /** Operations that are all above both cursors are wanted by both or by neither. */
  lemma {:induction false} AllAbove(log: seq<Operation>, n: nat, read: Rule, caller: Caller, coll: nat, a: nat, b: nat)
    requires Ascending(log) && n <= |log| && a <= HighestId(log[..n]) && b <= HighestId(log[..n])
    ensures Wanted(log[n..], read, caller, coll, a) == Wanted(log[n..], read, caller, coll, b)
  {
    if n < |log| {
      assert Front(log)[..n] == log[..n] && Front(log[n..]) == Front(log)[n..];
      AllAbove(Front(log), n, read, caller, coll, a, b);
      assert HighestId(log[..n]) <= HighestId(Front(log)) by { HighestGrows(Front(log), n); }
    }
  }

  lemma {:induction false} HighestGrows(log: seq<Operation>, n: nat)
    requires Ascending(log) && n <= |log|
    ensures HighestId(log[..n]) <= HighestId(log)
  {
    if n == |log| {
      assert log[..n] == log;
    } else {
      assert Front(log)[..n] == log[..n];
      HighestGrows(Front(log), n);
    }
  }

  // ---------------------------------------------------------------- exactly once

  /** The cursor is where the stream began, or at an operation of the log. */
  lemma {:induction false} CursorInLog(since: nat, caller: Caller, coll: nat, looks: seq<Look>)
    requires Growing(looks)
    ensures
      var c := Streamed(since, caller, coll, looks);
      c == Cursor(since, []) ||
      (looks != [] && c.lastId <= HighestId(Last(looks).log) && c.sent != [] && c.lastId == Last(c.sent).id)
    ensures since <= Streamed(since, caller, coll, looks).lastId
  {
    if looks != [] {
      var c, look := Streamed(since, caller, coll, Front(looks)), Last(looks);
      CursorInLog(since, caller, coll, Front(looks));
      if Front(looks) != [] {
        var seen := Last(Front(looks)).log;
        assert look.log[..|seen|] == seen;
        HighestGrows(look.log, |seen|);
      }
      var wanted := Wanted(look.log, look.read, caller, coll, c.lastId);
      WantedAscends(look.log, look.read, caller, coll, c.lastId);
      if wanted != [] {
        var rows := Page(wanted);
        IdAtMostHighest(wanted, |rows| - 1);
        WantedMembers(look.log, look.read, caller, coll, c.lastId, Last(rows));
      }
    }
  }

  /** A later log still holds everything wanted from the start as what was sent and what is ahead. */
  lemma GrowthKeepsSplit(read: Rule, caller: Caller, coll: nat, since: nat, c: Cursor, before: seq<Operation>,
                         now: seq<Operation>)
    requires Ascending(now) && before <= now
    requires c == Cursor(since, []) || (since <= c.lastId <= HighestId(before))
    requires Wanted(before, read, caller, coll, since) == c.sent + Wanted(before, read, caller, coll, c.lastId)
    ensures Wanted(now, read, caller, coll, since) == c.sent + Wanted(now, read, caller, coll, c.lastId)
  {
    var n := |before|;
    assert now[..n] == before && now == before + now[n..];
    WantedConcat(before, now[n..], read, caller, coll, since);
    WantedConcat(before, now[n..], read, caller, coll, c.lastId);
    if c != Cursor(since, []) {
      AllAbove(now, n, read, caller, coll, since, c.lastId);
    }
  }

  lemma PollKeepsSplit(caller: Caller, coll: nat, since: nat, c: Cursor, look: Look)
    requires Ascending(look.log)
    requires Wanted(look.log, look.read, caller, coll, since)
        == c.sent + Wanted(look.log, look.read, caller, coll, c.lastId)
    ensures
      var next := Poll(c, caller, coll, look);
      Wanted(look.log, look.read, caller, coll, since)
          == next.sent + Wanted(look.log, look.read, caller, coll, next.lastId)
  {
    var wanted := Wanted(look.log, look.read, caller, coll, c.lastId);
    if wanted != [] {
      var rows := Page(wanted);
      CursorSkips(look.log, look.read, caller, coll, c.lastId, |rows|);
      assert wanted == rows + wanted[|rows|..];
    }
  }

  /** What has been sent, followed by what lies above the cursor, is everything the stream owes. */
  lemma {:induction false} SentThenAhead(since: nat, read: Rule, caller: Caller, coll: nat, looks: seq<Look>)
    requires looks != [] && Growing(looks) && OneRule(looks, read)
    ensures
      var c, log := Streamed(since, caller, coll, looks), Last(looks).log;
      Wanted(log, read, caller, coll, since) == c.sent + Wanted(log, read, caller, coll, c.lastId)
  {
    var front, look := Front(looks), Last(looks);
    var c := Streamed(since, caller, coll, front);
    if front != [] {
      SentThenAhead(since, read, caller, coll, front);
      CursorInLog(since, caller, coll, front);
      GrowthKeepsSplit(read, caller, coll, since, c, Last(front).log, look.log);
    }
    PollKeepsSplit(caller, coll, since, c, look);
  }

  lemma {:induction false} AscendingSplit(a: seq<Operation>, b: seq<Operation>)
    requires Ascending(a + b)
    ensures Ascending(a)
  {
    AscendingPrefix(a + b, |a|);
    assert (a + b)[..|a|] == a;
  }

  /** EXACTLY ONCE.  Under any interleaving of appends and polls and an unchanged read rule, the stream
      has sent the visible operations with id in (since, last id], each once and in order. */
  lemma ExactlyOnce(since: nat, read: Rule, caller: Caller, coll: nat, looks: seq<Look>)
    requires looks != [] && Growing(looks) && OneRule(looks, read)
    ensures
      var c, log := Streamed(since, caller, coll, looks), Last(looks).log;
      && Ascending(c.sent)
      && (forall op :: op in c.sent <==> op in log && Visible(read, caller, coll, op) && since < op.id <= c.lastId)
  {
    var c, log := Streamed(since, caller, coll, looks), Last(looks).log;
    var ahead := Wanted(log, read, caller, coll, c.lastId);
    SentThenAhead(since, read, caller, coll, looks);
    CursorInLog(since, caller, coll, looks);
    WantedAscends(log, read, caller, coll, since);
    AscendingSplit(c.sent, ahead);
    forall op ensures op in c.sent <==> op in log && Visible(read, caller, coll, op) && since < op.id <= c.lastId {
      WantedMembers(log, read, caller, coll, since, op);
      WantedMembers(log, read, caller, coll, c.lastId, op);
      if op in c.sent {
        var i :| 0 <= i < |c.sent| && c.sent[i] == op;
        IdAtMostHighest(c.sent, i);
        assert op in c.sent + ahead;
      }
    }
  }

  /** Two streams opened at the same id agree however differently they polled: the one that is behind
      has sent a prefix of the other. */
  lemma StreamsAgree(since: nat, read: Rule, caller: Caller, coll: nat, a: seq<Look>, b: seq<Look>)
    requires a != [] && Growing(a) && OneRule(a, read) && b != [] && Growing(b) && OneRule(b, read)
    requires Last(a).log == Last(b).log
    ensures Streamed(since, caller, coll, a).sent <= Streamed(since, caller, coll, b).sent
         || Streamed(since, caller, coll, b).sent <= Streamed(since, caller, coll, a).sent
  {
    SentThenAhead(since, read, caller, coll, a);
    SentThenAhead(since, read, caller, coll, b);
    var wanted := Wanted(Last(a).log, read, caller, coll, since);
    var x, y := Streamed(since, caller, coll, a).sent, Streamed(since, caller, coll, b).sent;
    assert x == wanted[..|x|] && y == wanted[..|y|];
  }

  /** RESUMING.  A client that reconnects with the last id it saw continues the same sequence. */
  lemma {:induction false} ResumeContinues(since: nat, caller: Caller, coll: nat, before: seq<Look>, after: seq<Look>)
    ensures
      var first := Streamed(since, caller, coll, before);
      var resumed := Streamed(first.lastId, caller, coll, after);
      Streamed(since, caller, coll, before + after) == Cursor(resumed.lastId, first.sent + resumed.sent)
  {
    var first := Streamed(since, caller, coll, before);
    if after == [] {
      assert before + after == before;
    } else {
      assert Front(before + after) == before + Front(after);
      ResumeContinues(since, caller, coll, before, Front(after));
      var mid := Streamed(first.lastId, caller, coll, Front(after));
      var rows := Page(Wanted(Last(after).log, Last(after).read, caller, coll, mid.lastId));
      assert first.sent + (mid.sent + rows) == (first.sent + mid.sent) + rows;
    }
  }

  /** Even if the read rule changes between polls, nothing is sent twice or out of order. */
  lemma {:induction false} NeverRepeats(since: nat, caller: Caller, coll: nat, looks: seq<Look>)
    requires Growing(looks)
    ensures Ascending(Streamed(since, caller, coll, looks).sent)
  {
    if looks != [] {
      var c, look := Streamed(since, caller, coll, Front(looks)), Last(looks);
      NeverRepeats(since, caller, coll, Front(looks));
      CursorInLog(since, caller, coll, Front(looks));
      var wanted := Wanted(look.log, look.read, caller, coll, c.lastId);
      WantedAscends(look.log, look.read, caller, coll, c.lastId);
      var rows := Page(wanted);
      AscendingPrefix(wanted, |rows|);
      forall i | 0 <= i < |rows| ensures HighestId(c.sent) < rows[i].id {
        WantedMembers(look.log, look.read, caller, coll, c.lastId, rows[i]);
      }
      AscendingJoin(c.sent, rows);
    }
  }

  lemma {:induction false} AscendingJoin(a: seq<Operation>, b: seq<Operation>)
    requires Ascending(a) && Ascending(b) && (forall i | 0 <= i < |b| :: HighestId(a) < b[i].id)
    ensures Ascending(a + b)
  {
    if b == [] {
      assert a + b == a;
    } else {
      assert Front(a + b) == a + Front(b);
      assert forall i | 0 <= i < |Front(b)| :: Front(b)[i] == b[i];
      AscendingJoin(a, Front(b));
    }
  }

  /** A stream that polls an unchanging log `n` times. */
  function Polled(since: nat, caller: Caller, coll: nat, look: Look, n: nat): Cursor {
    if n == 0 then Cursor(since, []) else Poll(Polled(since, caller, coll, look, n - 1), caller, coll, look)
  }

  lemma PageExtends(wanted: seq<Operation>, sent: seq<Operation>, ahead: seq<Operation>, n: nat)
    requires wanted == sent + ahead && |sent| == Min(EVENT_STREAM_BATCH_LIMIT * n, |wanted|)
    ensures sent + Page(ahead) <= wanted
    ensures |sent + Page(ahead)| == Min(EVENT_STREAM_BATCH_LIMIT * (n + 1), |wanted|)
  {
    assert ahead == Page(ahead) + ahead[|Page(ahead)|..];
    assert wanted == (sent + Page(ahead)) + ahead[|Page(ahead)|..];
  }

  /** After `n` polls of an unchanging log, this is where the cursor stands. */
  predicate CaughtUp(c: Cursor, caller: Caller, coll: nat, look: Look, since: nat, n: nat) {
    var wanted := Wanted(look.log, look.read, caller, coll, since);
    && wanted == c.sent + Wanted(look.log, look.read, caller, coll, c.lastId)
    && |c.sent| == Min(EVENT_STREAM_BATCH_LIMIT * n, |wanted|)
  }

  lemma PollCatchesUp(c: Cursor, caller: Caller, coll: nat, look: Look, since: nat, n: nat)
    requires Ascending(look.log) && CaughtUp(c, caller, coll, look, since, n)
    ensures CaughtUp(Poll(c, caller, coll, look), caller, coll, look, since, n + 1)
  {
    PollKeepsSplit(caller, coll, since, c, look);
    var ahead := Wanted(look.log, look.read, caller, coll, c.lastId);
    PageExtends(Wanted(look.log, look.read, caller, coll, since), c.sent, ahead, n);
  }

  /** CATCHING UP.  With no new writes, `n` polls send the first `100 * n` operations the stream owes, so
      a backlog of `k` is gone after `ceil(k / 100)` polls and not before. */
  lemma {:induction false} PollsCatchUp(since: nat, caller: Caller, coll: nat, look: Look, n: nat)
    requires Ascending(look.log)
    ensures CaughtUp(Polled(since, caller, coll, look, n), caller, coll, look, since, n)
  {
    if n > 0 {
      PollsCatchUp(since, caller, coll, look, n - 1);
      PollCatchesUp(Polled(since, caller, coll, look, n - 1), caller, coll, look, since, n - 1);
    }
  }

  // ---------------------------------------------------------------- polls during a run of requests

  /** The looks are taken at the moments `at` of a run, in order. */
  predicate TakenFrom(run: seq<Db>, looks: seq<Look>, at: seq<nat>) {
    if looks == [] || at == [] then looks == [] && at == []
    else
      && TakenFrom(run, Front(looks), Front(at))
      && Last(at) < |run| && Last(looks).log == run[Last(at)].log
      && (Front(at) != [] ==> Last(Front(at)) <= Last(at))
  }

  ghost predicate RequestRun(run: seq<Db>, requests: seq<Request>) {
    && |run| == |requests| + 1 && run[0] == EMPTY_DB
    && forall k | 0 <= k < |requests| :: Steps(run[k], run[k + 1], requests[k])
  }

  lemma {:induction false} LogsGrow(run: seq<Db>, requests: seq<Request>, i: nat, j: nat)
    requires RequestRun(run, requests) && i <= j < |run|
    ensures run[i].log <= run[j].log
  {
    if i < j {
      LogsGrow(run, requests, i, j - 1);
      EveryRunIsConsistent(run, requests, j - 1);
      Backup.StepExtends(run[j - 1], run[j], requests[j - 1]);
    }
  }

  /** Whatever requests are served meanwhile, polls at successive moments see a growing log, so the
      results above hold for every stream over every run of the write routes. */
  lemma {:induction false} RunsGrow(run: seq<Db>, requests: seq<Request>, looks: seq<Look>, at: seq<nat>)
    requires RequestRun(run, requests) && TakenFrom(run, looks, at)
    ensures Growing(looks)
  {
    if looks != [] {
      RunsGrow(run, requests, Front(looks), Front(at));
      EveryRunIsConsistent(run, requests, Last(at));
      if Front(looks) != [] { LogsGrow(run, requests, Last(Front(at)), Last(at)); }
    }
  }

  // ---------------------------------------------------------------- the generator

  /** What goes over the wire: an event that carries its operation's id, or a comment line. */
  datatype Frame = Change(op: Operation) | KeepAlive

  function Changes(rows: seq<Operation>): seq<Frame> {
    if rows == [] then [] else Changes(Front(rows)) + [Change(Last(rows))]
  }

  /** What one turn sends: its rows, or a keep-alive if there are none and the stream goes on. */
  function FramesOf(rows: seq<Operation>, once: bool): seq<Frame> {
    if rows == [] && !once then [KeepAlive] else Changes(rows)
  }

  /** A client that reads the events sees exactly the operations; keep-alives carry none. */
  function Seen(frames: seq<Frame>): seq<Operation> {
    if frames == [] then []
    else if Last(frames).Change? then Seen(Front(frames)) + [Last(frames).op]
    else Seen(Front(frames))
  }

  lemma {:induction false} SeenAdds(frames: seq<Frame>, rows: seq<Operation>)
    ensures Seen(frames + Changes(rows)) == Seen(frames) + rows
  {
    if rows == [] {
      assert frames + Changes(rows) == frames;
    } else {
      var change := Change(Last(rows));
      SeenAdds(frames, Front(rows));
      assert frames + Changes(rows) == (frames + Changes(Front(rows))) + [change];
      assert Front((frames + Changes(Front(rows))) + [change]) == frames + Changes(Front(rows));
      assert rows == Front(rows) + [Last(rows)];
    }
  }

  lemma SeenByTurn(frames: seq<Frame>, rows: seq<Operation>, once: bool)
    ensures Seen(frames + FramesOf(rows, once)) == Seen(frames) + rows
  {
    SeenAdds(frames, rows);
    assert Front(frames + [KeepAlive]) == frames;
  }

  class Stream {
    const coll: nat
    const caller: Caller
    var lastId: nat
    var frames: seq<Frame>

    constructor (coll: nat, caller: Caller, since: nat)
      ensures this.coll == coll && this.caller == caller && lastId == since && frames == []
    {
      this.coll := coll;
      this.caller := caller;
      lastId := since;
      frames := [];
    }

    /** One turn of the generator's loop: re-check access, send the rows or a keep-alive, say whether to go
        on to the next poll.  What the client has seen moves as `Poll` says. */
    method Turn(db: Db, once: bool, disconnected: bool) returns (r: Result<bool, WriteError>)
      modifies this
      ensures r == if coll !in db.colls then Failure(CollectionNotFound)
                   else if !CanAccess(db.colls[coll], caller, false, None) then Failure(AccessDenied)
                   else Success(!once && !disconnected)
      ensures r == Failure(AccessDenied) <==>
              coll in db.colls && !Permits(db.colls[coll].config.read, db.colls[coll], caller)
      ensures r.Failure? ==> lastId == old(lastId) && frames == old(frames)
      ensures r.Success? ==>
        var look := Look(db.log, db.colls[coll].config.read);
        && Cursor(lastId, Seen(frames)) == Poll(Cursor(old(lastId), Seen(old(frames))), caller, coll, look)
        && frames == old(frames) + FramesOf(Page(Wanted(look.log, look.read, caller, coll, old(lastId))), once)
    {
      if coll !in db.colls {
        return Failure(CollectionNotFound);
      }
      var c := db.colls[coll];
      AccessByRule(c, caller, false, None);
      if !CanAccess(c, caller, false, None) {
        return Failure(AccessDenied);
      }
      var rows := Page(Wanted(db.log, c.config.read, caller, coll, lastId));
      SeenByTurn(frames, rows, once);
      if rows != [] {
        SendRows(rows);
      } else if !once {
        frames := frames + [KeepAlive];
      }
      return Success(!once && !disconnected);
    }

    method SendRows(rows: seq<Operation>)
      modifies this
      ensures frames == old(frames) + Changes(rows)
      ensures lastId == if rows == [] then old(lastId) else Last(rows).id
    {
      var i := 0;
      while i < |rows|
        invariant 0 <= i <= |rows|
        invariant frames == old(frames) + Changes(rows[..i])
        invariant lastId == if i == 0 then old(lastId) else rows[i - 1].id
      {
        assert Front(rows[..i + 1]) == rows[..i];
        lastId := rows[i].id;
        frames := frames + [Change(rows[i])];
        i := i + 1;
      }
      assert rows[..i] == rows;
    }
  }
}
