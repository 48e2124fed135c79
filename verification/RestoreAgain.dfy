/** Restoring into a target that was restored before: the same messages, or those of a later state. */
module RestoreAgain {
  import opened Prelude
  import opened OperationLog
  import opened JsonRoutes
  import opened Backup
  import opened Restore
  import opened RoundTrip
  import opened SettingsRestored

  // ---------------------------------------------------------------- an earlier target, seen from later

  lemma MirrorsLater(before: Db, after: Db, docs: Documents, named: map<NamedKey, Document>)
    requires Extends(before, after) && Mirrors(before.colls, docs, named)
    ensures Mirrors(after.colls, docs, named)
  {
    forall name | name in named
      ensures exists key :: key in docs && key.0 in after.colls && NameKey(after.colls, key) == name
    {
      var key :| key in docs && key.0 in before.colls && NameKey(before.colls, key) == name;
      assert NameKey(after.colls, key) == name;
    }
  }

  lemma LogAgreesLater(before: Db, after: Db, covered: seq<Operation>, log: map<nat, LoggedRow>)
    requires Extends(before, after) && Ascending(after.log) && covered <= before.log
    requires LogIs(before, covered, log)
    ensures LogAgrees(after, log)
  {
    AscendingIdsIncrease(after.log);
    forall k | 0 <= k < |after.log| && after.log[k].id in log
      ensures after.log[k].coll in after.colls
      ensures log[after.log[k].id] == RowFor(after.colls[after.log[k].coll].name, after.log[k])
    {
      var op := HasIdOf(covered, after.log[k].id);
      var j :| 0 <= j < |covered| && covered[j] == op;
      assert after.log[j] == op;
      assert j == k;
    }
  }

  lemma PrefixWithinPrefix(log: seq<Operation>, more: seq<Operation>, p: nat, q: nat)
    requires log <= more && Ascending(more) && p <= |log| && q <= |more|
    requires forall op | op in log[..p] :: op in more[..q]
    ensures p <= q && log[..p] <= more[..q]
  {
    if p > 0 {
      var op := log[p - 1];
      assert op == log[..p][p - 1] && op in more[..q];
      var k :| 0 <= k < |more[..q]| && more[..q][k] == op;
      AscendingIdsIncrease(more);
      assert more[p - 1] == op && more[k] == op;
    }
  }

  lemma CoverageGrows(s: Site, t: Site)
    requires BackupInv(s) && BackupInv(t) && Extends(s.db, t.db)
    requires forall m | m in s.messages :: m in t.messages
    ensures Reach(s.db.log, s.messages) <= |s.db.log| && Reach(t.db.log, t.messages) <= |t.db.log|
    ensures Covered(s) <= Covered(t)
  {
    UploadsCoverPrefix(s);
    UploadsCoverPrefix(t);
    forall op | op in Covered(s) ensures op in Covered(t) {
      var m :| m in s.messages && Backup.Carries(m, op);
      assert m in t.messages;
    }
    PrefixWithinPrefix(s.db.log, t.db.log, Reach(s.db.log, s.messages), Reach(t.db.log, t.messages));
  }

  /** The content reached from the documents of an earlier restore. */
  lemma LaterReplay(earlier: seq<Operation>, later: seq<Operation>, docs: Documents, ops: seq<Operation>)
    requires earlier <= later && Replay(map[], later).Success? && Squash(ops) == later
    requires Replay(map[], earlier).Success? && SameContent(Replay(map[], earlier).value, docs)
    ensures Replay(docs, ops).Success?
    ensures SameContent(Replay(map[], later).value, Replay(docs, ops).value)
  {
    assert later[..|earlier|] == earlier;
    ReplayCatchesUp(later, |earlier|);
    var plain := Replay(map[], earlier).value;
    RepetitionsAreHarmless(plain, ops);
    ReplayRespectsContent(plain, docs, ops);
  }

  lemma CollectionsLater(before: Db, after: Db, earlier: seq<Operation>, later: seq<Operation>,
                         colls: map<string, Config>)
    requires Extends(before, after) && earlier <= later && SameCollections(before, earlier, colls)
    ensures forall name | name in colls :: NamesOne(after, later, name)
  {
    forall name | name in colls ensures NamesOne(after, later, name) {
      assert NamesOne(before, earlier, name);
      var c :| c in before.colls && Mentions(earlier, c) && before.colls[c].name == name;
      var op := MentionsOf(earlier, c);
      var k :| 0 <= k < |earlier| && earlier[k] == op;
      assert later[k] == op;
      MentionsIn(later, op);
    }
  }

  lemma LastGrows(log: seq<Operation>, p: nat, q: nat)
    requires Ascending(log) && 0 < p <= q <= |log|
    ensures AdvanceCursor(Some(HighestId(log[..p])), HighestId(log[..q])) == HighestId(log[..q])
  {
    AscendingIdsIncrease(log);
  }

  lemma SecondLogIsExact(db: Db, earlier: seq<Operation>, later: seq<Operation>, ops: seq<Operation>,
                         before: map<nat, LoggedRow>, log: map<nat, LoggedRow>)
    requires SameMembers(ops, later) && earlier <= later && later <= db.log
    requires LogAgrees(db, log) && LogHolds(before, log, ops)
    requires forall id | id in before :: HasId(earlier, id)
    ensures LogIs(db, later, log)
  {
    forall op | op in later
      ensures op.coll in db.colls && op.id in log && log[op.id] == RowFor(db.colls[op.coll].name, op)
    {
      var k :| 0 <= k < |later| && later[k] == op;
      assert db.log[k] == op && op in ops;
    }
    forall id | id in log ensures HasId(later, id) {
      if id in before {
        var op := HasIdOf(earlier, id);
        var k :| 0 <= k < |earlier| && earlier[k] == op;
        assert later[k] == op;
        HasIdIn(later, op);
      } else {
        var op := HasIdOf(ops, id);
        HasIdIn(later, op);
      }
    }
  }

  /** The loop over a target restored earlier, from documents `docs` that have the earlier content. */
  lemma LaterRestore(before: Db, db: Db, earlier: seq<Operation>, covered: seq<Operation>, kept: seq<Message>,
                     raws: seq<Carried>, ops: seq<Operation>, docs: Documents, first: Replica)
    returns (second: Replica, sess: Session)
    requires Extends(before, db) && Reproduces(before, earlier, first)
    requires earlier != [] && earlier <= covered && earlier <= before.log
    requires Mirrors(before.colls, docs, first.docs) && SameContent(Replay(map[], earlier).value, docs)
    requires Gathered(db, covered, raws, ops) && kept != [] && raws == SortedOperations(kept)
    ensures RestoreInto(first, kept) == Success(second) && Reproduces(db, covered, second)
    ensures second == Recorded(first, kept, HighestId(covered), sess)
    ensures ReplayAll(Session(map[], first), raws) == Success(sess) && Tracks(db.colls, sess, raws)
  {
    LaterReplay(earlier, covered, docs, ops);
    MirrorsLater(before, db, docs, first.docs);
    LogAgreesLater(before, db, earlier, first.log);
    sess := ReplayOver(db, covered, raws, ops, docs, first);
    RestoreIs(first, kept, raws, sess);
    second := Recorded(first, kept, HighestId(covered), sess);
    MirrorsSameContent(db.colls, Replay(map[], covered).value, Replay(docs, ops).value, second.docs);
    CollectionsLater(before, db, earlier, covered, first.colls);
    CollectionsReplayed(db, covered, raws, ops, first, sess);
    SecondLogIsExact(db, earlier, covered, ops, first.log, second.log);
    LaterCursor(db, earlier, covered);
  }

  lemma LaterCursor(db: Db, earlier: seq<Operation>, covered: seq<Operation>)
    requires Ascending(db.log) && earlier != [] && earlier <= covered <= db.log
    ensures AdvanceCursor(Some(HighestId(earlier)), HighestId(covered)) == HighestId(covered)
  {
    assert earlier == db.log[..|earlier|] && covered == db.log[..|covered|];
    LastGrows(db.log, |earlier|, |covered|);
  }

  /** Restoring a later state of the same backup into a target that was restored earlier brings the
      target to the later state: repeated restores converge on the source. */
  lemma RestoreAgainCatchesUp(s: Site, arrivedS: seq<Message>, keptS: seq<Message>, first: Replica,
                              t: Site, arrivedT: seq<Message>, keptT: seq<Message>)
    returns (second: Replica)
    requires BackupInv(s) && Arrives(s, arrivedS, keptS) && s.messages != []
    requires BackupInv(t) && Arrives(t, arrivedT, keptT)
    requires Extends(s.db, t.db) && forall m | m in s.messages :: m in t.messages
    requires RestoreInto(EMPTY_REPLICA, keptS) == Success(first)
    ensures RestoreInto(first, keptT) == Success(second)
    ensures Reach(t.db.log, t.messages) <= |t.db.log| && Reproduces(t.db, Covered(t), second)
    ensures second.marks == RecordSegments(first.marks, keptT)
    ensures Pending(t.db.log, t.cursor) == [] ==> SameSettings(t.db, second.colls)
  {
    assert s.messages[0] in t.messages;
    CoverageGrows(s, t);
    Gather(s, arrivedS, keptS);
    Gather(t, arrivedT, keptT);
    var sess;
    second, sess := TwoRestores(s.db, Covered(s), keptS, SortedOperations(keptS), first,
                                t.db, Covered(t), keptT, SortedOperations(keptT));
    if Pending(t.db.log, t.cursor) == [] {
      NothingPendingCoversAll(t);
      DrainedSettings(t, arrivedT, keptT, sess);
    }
  }

  /** Of two moments of one run, the later has the earlier's log and messages. */
  lemma {:induction false} LaterInRun(run: seq<Site>, events: seq<Event>, i: nat, j: nat)
    requires BackupRun(run, events) && i <= j < |run|
    ensures Extends(run[i].db, run[j].db) && forall m | m in run[i].messages :: m in run[j].messages
  {
    if i < j {
      LaterInRun(run, events, i, j - 1);
      EveryRunKeepsInv(run, events, j - 1);
      assert Next(run[j - 1], run[j], events[j - 1]);
      if events[j - 1].Write? { StepExtends(run[j - 1].db, run[j].db, events[j - 1].request); }
    }
  }

  /** CONVERGENCE along a run.  Restore what was uploaded at one moment of a backup's run, and later what was
      uploaded at another: whatever writes, crashes and repeated uploads lie between, the second restore
      succeeds and brings the target to the later moment. */
  lemma RestoresAlongRunConverge(run: seq<Site>, events: seq<Event>, i: nat, j: nat,
                                 arrivedS: seq<Message>, keptS: seq<Message>,
                                 arrivedT: seq<Message>, keptT: seq<Message>)
    returns (first: Replica, second: Replica)
    requires BackupRun(run, events) && i <= j < |run| && run[i].messages != []
    requires Arrives(run[i], arrivedS, keptS) && Arrives(run[j], arrivedT, keptT)
    ensures RestoreInto(EMPTY_REPLICA, keptS) == Success(first) && RestoreInto(first, keptT) == Success(second)
    ensures Reach(run[i].db.log, run[i].messages) <= |run[i].db.log|
    ensures Reproduces(run[i].db, Covered(run[i]), first)
    ensures Reach(run[j].db.log, run[j].messages) <= |run[j].db.log|
    ensures Reproduces(run[j].db, Covered(run[j]), second) && Covered(run[i]) <= Covered(run[j])
    ensures Pending(run[j].db.log, run[j].cursor) == [] ==> SameSettings(run[j].db, second.colls)
  {
    EveryRunKeepsInv(run, events, i);
    EveryRunKeepsInv(run, events, j);
    LaterInRun(run, events, i, j);
    CoverageGrows(run[i], run[j]);
    first := RestoreReproducesSource(run[i], arrivedS, keptS);
    second := RestoreAgainCatchesUp(run[i], arrivedS, keptS, first, run[j], arrivedT, keptT);
  }

  lemma TwoRestores(before: Db, earlier: seq<Operation>, keptS: seq<Message>, rawsS: seq<Carried>, first: Replica,
                    db: Db, covered: seq<Operation>, keptT: seq<Message>, rawsT: seq<Carried>)
    returns (second: Replica, sess: Session)
    requires Gathered(before, earlier, rawsS, Ops(rawsS)) && keptS != [] && rawsS == SortedOperations(keptS)
    requires Gathered(db, covered, rawsT, Ops(rawsT)) && keptT != [] && rawsT == SortedOperations(keptT)
    requires Extends(before, db) && earlier <= covered && RestoreInto(EMPTY_REPLICA, keptS) == Success(first)
    ensures RestoreInto(first, keptT) == Success(second) && Reproduces(db, covered, second)
    ensures second == Recorded(first, keptT, HighestId(covered), sess) && Tracks(db.colls, sess, rawsT)
  {
    var rep, run := FirstRestore(before, earlier, keptS, rawsS, Ops(rawsS));
    GatheredReplays(before, earlier, rawsS, Ops(rawsS));
    second, sess := LaterRestore(before, db, earlier, covered, keptT, rawsT, Ops(rawsT),
                                 Replay(map[], Ops(rawsS)).value, first);
  }

  // ---------------------------------------------------------------- restoring the same messages twice

  lemma {:induction false} RecordAgain(marks: seq<Mark>, segments: seq<Message>, m: Message)
    requires m in segments
    ensures Marked(RecordSegments(marks, segments), m.segment.first, m.segment.last)
  {
    assert segments == Front(segments) + [Last(segments)];
    var before := RecordSegments(marks, Front(segments));
    if m in Front(segments) {
      RecordAgain(marks, Front(segments), m);
      var k :| 0 <= k < |before| && before[k].first == m.segment.first && before[k].last == m.segment.last;
      assert RecordSegments(marks, segments)[k] == before[k];
    } else if !Marked(before, m.segment.first, m.segment.last) {
      assert Last(RecordSegments(marks, segments)) == MarkOf(m);
    }
  }

  lemma {:induction false} RecordNothing(marks: seq<Mark>, segments: seq<Message>)
    requires forall m | m in segments :: Marked(marks, m.segment.first, m.segment.last)
    ensures RecordSegments(marks, segments) == marks
  {
    if segments != [] {
      assert Last(segments) in segments;
      RecordNothing(marks, Front(segments));
    }
  }

  lemma SecondSettings(colls: map<nat, Collection>, first: Replica, raws: seq<Carried>, one: Session, two: Session)
    requires ReplayAll(Session(map[], EMPTY_REPLICA), raws) == Success(one) && first.colls == one.rep.colls
    requires ReplayAll(Session(map[], first), raws) == Success(two)
    requires Tracks(colls, one, raws) && Tracks(colls, two, raws)
    ensures two.rep.colls == first.colls
  {
    forall name ensures name in two.rep.colls <==> name in first.colls
      ensures name in first.colls && name in two.rep.colls ==> two.rep.colls[name] == first.colls[name]
    {
      if name in first.colls {
        LoopColls(Session(map[], EMPTY_REPLICA), raws, name);
        var c :| c in one.known && one.known[c] == name;
        assert TracksAt(colls, one, raws, c) && TracksAt(colls, two, raws, c);
      } else if name in two.rep.colls {
        LoopColls(Session(map[], first), raws, name);
      }
    }
  }

  lemma SecondLog(db: Db, ops: seq<Operation>, first: map<nat, LoggedRow>, second: map<nat, LoggedRow>)
    requires LogHolds(map[], first, ops) && LogHolds(first, second, ops)
    ensures first == second
  {
    forall id | id in second ensures id in first {
      if HasId(ops, id) { var op := HasIdOf(ops, id); }
    }
  }

  lemma SecondDocuments(colls: map<nat, Collection>, docs: Documents, again: Documents,
                        first: map<NamedKey, Document>, second: map<NamedKey, Document>, name: NamedKey)
    requires SameContent(docs, again) && Mirrors(colls, docs, first) && Mirrors(colls, again, second)
    ensures name in first <==> name in second
    ensures name in first && name in second ==> SameDocument(first[name], second[name])
  {
    if name in first {
      var key :| key in docs && key.0 in colls && NameKey(colls, key) == name;
      assert key in again;
    }
    if name in second {
      var key :| key in again && key.0 in colls && NameKey(colls, key) == name;
      assert key in docs;
    }
  }

  lemma SecondRestore(db: Db, covered: seq<Operation>, kept: seq<Message>, raws: seq<Carried>, ops: seq<Operation>,
                      first: Replica)
    returns (second: Replica, docs: Documents, again: Documents)
    requires Gathered(db, covered, raws, ops) && kept != [] && raws == SortedOperations(kept)
    requires RestoreInto(EMPTY_REPLICA, kept) == Success(first)
    ensures RestoreInto(first, kept) == Success(second) && SameContent(docs, again)
    ensures Mirrors(db.colls, docs, first.docs) && Mirrors(db.colls, again, second.docs)
    ensures Replay(map[], ops) == Success(docs) && Replay(docs, ops) == Success(again)
    ensures first.colls == second.colls && first.log == second.log && first.cursor == second.cursor
    ensures first.marks == RecordSegments([], kept) && second.marks == RecordSegments(first.marks, kept)
  {
    var rep, one := FirstRestore(db, covered, kept, raws, ops);
    docs := Replay(map[], ops).value;
    RerunChangesNothing(ops);
    again := Replay(docs, ops).value;
    LogAgreesLater(db, db, covered, first.log);
    var two := ReplayOver(db, covered, raws, ops, docs, first);
    RestoreIs(first, kept, raws, two);
    second := Recorded(first, kept, HighestId(covered), two);
    SecondLog(db, ops, first.log, second.log);
    SecondSettings(db.colls, first, raws, one, two);
  }

  /** Restoring the same messages a second time changes no document's content, no setting, no log
      row, no segment record and not the cursor. */
  lemma RestoreTwiceChangesNothing(s: Site, arrived: seq<Message>, kept: seq<Message>, first: Replica)
    returns (second: Replica)
    requires BackupInv(s) && Arrives(s, arrived, kept) && s.messages != []
    requires RestoreInto(EMPTY_REPLICA, kept) == Success(first)
    ensures RestoreInto(first, kept) == Success(second)
    ensures second.colls == first.colls && second.log == first.log
    ensures second.marks == first.marks && second.cursor == first.cursor
    ensures forall name :: name in second.docs <==> name in first.docs
    ensures forall name | name in first.docs && name in second.docs :: SameDocument(first.docs[name], second.docs[name])
  {
    var docs, again;
    Gather(s, arrived, kept);
    second, docs, again := SecondRestore(s.db, Covered(s), kept, SortedOperations(kept),
        Ops(SortedOperations(kept)), first);
    forall m | m in kept ensures Marked(first.marks, m.segment.first, m.segment.last) { RecordAgain([], kept, m); }
    RecordNothing(first.marks, kept);
    forall name ensures name in second.docs <==> name in first.docs
      ensures name in first.docs && name in second.docs ==> SameDocument(first.docs[name], second.docs[name])
    {
      SecondDocuments(s.db.colls, docs, again, first.docs, second.docs, name);
    }
  }
}
