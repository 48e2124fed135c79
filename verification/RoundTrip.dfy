/** Backup followed by restore gives the source back: the composition of the routes, the backup
    protocol with its crashes, the dedupe and the replay into another database. */
module RoundTrip {
  import opened Prelude
  import opened Sorting
  import opened OperationLog
  import opened JsonRoutes
  import opened Backup
  import opened Restore

  // ---------------------------------------------------------------- the carried operations

  function Ops(raws: seq<Carried>): seq<Operation> {
    if raws == [] then [] else Ops(Front(raws)) + [Last(raws).op]
  }

  lemma {:induction false} OpsAt(raws: seq<Carried>)
    ensures |Ops(raws)| == |raws|
    ensures forall k | 0 <= k < |raws| :: Ops(raws)[k] == raws[k].op
  {
    if raws != [] { OpsAt(Front(raws)); }
  }

  lemma {:induction false} FlattenMembers(segments: seq<Message>, raw: Carried)
    ensures raw in Flatten(segments) <==> exists m :: m in segments && raw in m.segment.ops
  {
    if segments != [] {
      FlattenMembers(Front(segments), raw);
      assert segments == Front(segments) + [Last(segments)];
    }
  }

  /** Two segments of one log that name the same first and last operation carry the same ones. */
  lemma SameRangeSameOps(log: seq<Operation>, a: Message, b: Message, i: nat, j: nat, op: Operation)
    requires Ascending(log) && SliceAt(log, a.segment, i) && SliceAt(log, b.segment, j)
    requires a.segment.first == b.segment.first && a.segment.last == b.segment.last
    requires Backup.Carries(a, op)
    ensures Backup.Carries(b, op)
  {
    AscendingIdsIncrease(log);
    SliceEnd(log, a.segment, i);
    SliceEnd(log, b.segment, j);
    assert i == j;
    var k :| 0 <= k < |a.segment.ops| && a.segment.ops[k].op == op;
    assert b.segment.ops[k].op == op;
  }

  /** Deduplicating loses no operation that was uploaded. */
  lemma DedupeLosesNothing(s: Site, arrived: seq<Message>, kept: seq<Message>, op: Operation)
    requires BackupInv(s) && Deduped(arrived, kept)
    requires forall m :: m in arrived <==> m in s.messages
    ensures Uploaded(kept, op) <==> Uploaded(s.messages, op)
  {
    if Uploaded(s.messages, op) {
      var m :| m in s.messages && Backup.Carries(m, op);
      assert m in arrived;
      var k := SurvivorOf(kept, m);
      assert k in arrived;
      var i := SliceStart(s, m);
      var j := SliceStart(s, k);
      SameRangeSameOps(s.db.log, m, k, i, j, op);
    }
    if Uploaded(kept, op) {
      var m :| m in kept && Backup.Carries(m, op);
      assert m in arrived;
    }
  }

  lemma FlattenOps(segments: seq<Message>, op: Operation)
    ensures op in Ops(Flatten(segments)) <==> Uploaded(segments, op)
  {
    var flat := Flatten(segments);
    OpsAt(flat);
    if op in Ops(flat) {
      var k :| 0 <= k < |flat| && Ops(flat)[k] == op;
      FlattenMembers(segments, flat[k]);
      var m :| m in segments && flat[k] in m.segment.ops;
      var n :| 0 <= n < |m.segment.ops| && m.segment.ops[n] == flat[k];
      assert Backup.Carries(m, op);
    }
    if Uploaded(segments, op) {
      var m :| m in segments && Backup.Carries(m, op);
      var n :| 0 <= n < |m.segment.ops| && m.segment.ops[n].op == op;
      FlattenMembers(segments, m.segment.ops[n]);
      var k :| 0 <= k < |flat| && flat[k] == m.segment.ops[n];
      assert Ops(flat)[k] == op;
    }
  }

  lemma OpIdLeIsOrder()
    ensures TotalPreorder(OpIdLe)
  {
  }

  lemma SortedOpsMembers(segments: seq<Message>)
    ensures SortedById(Ops(SortedOperations(segments)))
    ensures forall op :: op in Ops(SortedOperations(segments)) <==> Uploaded(segments, op)
  {
    var flat := Flatten(segments);
    var sorted := SortedOperations(segments);
    OpIdLeIsOrder();
    SortSorts(flat, OpIdLe);
    SortMembers(flat, OpIdLe);
    OpsAt(sorted);
    OpsAt(flat);
    forall i, j | 0 <= i < j < |sorted| ensures Ops(sorted)[i].id <= Ops(sorted)[j].id {
      assert OpIdLe(sorted[i], sorted[j]);
    }
    forall op ensures op in Ops(sorted) <==> Uploaded(segments, op) {
      FlattenOps(segments, op);
      if op in Ops(sorted) {
        var k :| 0 <= k < |sorted| && Ops(sorted)[k] == op;
        assert sorted[k] in flat;
        var n :| 0 <= n < |flat| && flat[n] == sorted[k];
        assert Ops(flat)[n] == op;
      }
      if op in Ops(flat) {
        var n :| 0 <= n < |flat| && Ops(flat)[n] == op;
        assert flat[n] in sorted;
        var k :| 0 <= k < |sorted| && sorted[k] == flat[n];
        assert Ops(sorted)[k] == op;
      }
    }
  }

  /** The messages arrived, in any order and any number of times, and were deduplicated. */
  ghost predicate Arrives(s: Site, arrived: seq<Message>, kept: seq<Message>) {
    (forall m :: m in arrived <==> m in s.messages) && Deduped(arrived, kept)
  }

  /** The part of the log that the uploads cover. */
  function Covered(s: Site): seq<Operation>
    requires Reach(s.db.log, s.messages) <= |s.db.log|
  {
    s.db.log[..Reach(s.db.log, s.messages)]
  }

  /** The sorted carried operations are the covered prefix of the log, with repetitions. */
  lemma SortedSquashesToCovered(s: Site, arrived: seq<Message>, kept: seq<Message>)
    requires BackupInv(s) && Arrives(s, arrived, kept)
    ensures Reach(s.db.log, s.messages) <= |s.db.log|
    ensures Squash(Ops(SortedOperations(kept))) == Covered(s)
  {
    UploadsCoverPrefix(s);
    SortedOpsMembers(kept);
    forall op ensures op in Ops(SortedOperations(kept)) <==> op in Covered(s) {
      DedupeLosesNothing(s, arrived, kept, op);
    }
    AscendingPrefix(s.db.log, Reach(s.db.log, s.messages));
    AscendingIdsIncrease(Covered(s));
    SortedSquashesToLog(Ops(SortedOperations(kept)), Covered(s));
  }

  /** Every prefix of a consistent log replays. */
  lemma PrefixReplays(db: Db, n: nat)
    requires Consistent(db) && n <= |db.log|
    ensures Replay(map[], db.log[..n]).Success?
  {
    assert db.log == db.log[..n] + db.log[n..];
    ReplayConcat(map[], db.log[..n], db.log[n..]);
  }

  /** So the carried operations replay, to the documents of the covered prefix. */
  lemma CarriedReplays(s: Site, arrived: seq<Message>, kept: seq<Message>)
    requires BackupInv(s) && Arrives(s, arrived, kept)
    ensures Reach(s.db.log, s.messages) <= |s.db.log|
    ensures Replay(map[], Covered(s)).Success? && Replay(map[], Ops(SortedOperations(kept))).Success?
    ensures SameContent(Replay(map[], Covered(s)).value, Replay(map[], Ops(SortedOperations(kept))).value)
  {
    SortedSquashesToCovered(s, arrived, kept);
    PrefixReplays(s.db, Reach(s.db.log, s.messages));
    RepetitionsAreHarmless(map[], Ops(SortedOperations(kept)));
  }

  // ---------------------------------------------------------------- source ids and target names

  /** The carried metadata names the operation's own collection. */
  predicate NamedBy(colls: map<nat, Collection>, raw: Carried) {
    raw.op.coll in colls && raw.coll.id == raw.op.coll && raw.coll.name == colls[raw.op.coll].name
  }

  function NameKey(colls: map<nat, Collection>, key: DocKey): NamedKey
    requires key.0 in colls
  {
    (colls[key.0].name, key.1)
  }

  /** The target holds the source's documents, each under the name of its collection. */
  ghost predicate Mirrors(colls: map<nat, Collection>, docs: Documents, named: map<NamedKey, Document>) {
    && (forall key | key in docs ::
          key.0 in colls && NameKey(colls, key) in named && named[NameKey(colls, key)] == docs[key])
    && (forall name | name in named ::
          exists key :: key in docs && key.0 in colls && NameKey(colls, key) == name)
  }

  lemma MirrorLookup(colls: map<nat, Collection>, docs: Documents, named: map<NamedKey, Document>, key: DocKey)
    requires DistinctNames(colls) && Mirrors(colls, docs, named) && key.0 in colls
    ensures Lookup(named, NameKey(colls, key)) == Lookup(docs, key)
  {
    if NameKey(colls, key) in named {
      var other :| other in docs && other.0 in colls && NameKey(colls, other) == NameKey(colls, key);
      assert other == key;
    }
  }

  lemma MirrorStep(colls: map<nat, Collection>, docs: Documents, named: map<NamedKey, Document>, op: Operation)
    requires DistinctNames(colls) && Mirrors(colls, docs, named)
    requires op.coll in colls && ReplayOne(docs, op).Success?
    ensures ReplayNamed(named, colls[op.coll].name, op).Success?
    ensures Mirrors(colls, ReplayOne(docs, op).value, ReplayNamed(named, colls[op.coll].name, op).value)
  {
    if OnDocument(op) {
      var key := (op.coll, op.docId.value);
      MirrorLookup(colls, docs, named, key);
      MirrorUpdate(colls, docs, named, key, ReplayOne(docs, op).value[key]);
    }
  }

  lemma MirrorUpdate(colls: map<nat, Collection>, docs: Documents, named: map<NamedKey, Document>, key: DocKey,
                     row: Document)
    requires DistinctNames(colls) && Mirrors(colls, docs, named) && key.0 in colls
    ensures Mirrors(colls, docs[key := row], named[NameKey(colls, key) := row])
  {
    var docs', named' := docs[key := row], named[NameKey(colls, key) := row];
    forall other | other in docs'
      ensures other.0 in colls && NameKey(colls, other) in named' && named'[NameKey(colls, other)] == docs'[other]
    {
      assert other.0 in colls && (NameKey(colls, other) == NameKey(colls, key) ==> other == key);
    }
    forall name | name in named'
      ensures exists k :: k in docs' && k.0 in colls && NameKey(colls, k) == name
    {
      if name == NameKey(colls, key) {
        assert key in docs';
      } else {
        var k :| k in docs && k.0 in colls && NameKey(colls, k) == name;
        assert k in docs';
      }
    }
  }

  // ---------------------------------------------------------------- the replay loop

  /** The settings carried with the first operation on a collection. */
  function FirstSettings(raws: seq<Carried>, c: nat): Option<Config> {
    if raws == [] then None
    else if FirstSettings(Front(raws), c).Some? then FirstSettings(Front(raws), c)
    else if Last(raws).op.coll == c then Some(Last(raws).coll.config)
    else None
  }

  lemma {:induction false} NoSettingsNoChange(config: Config, raws: seq<Carried>, c: nat)
    requires FirstSettings(raws, c).None?
    ensures ConfigAfter(config, Ops(raws), c) == config
  {
    if raws != [] {
      assert Front(Ops(raws)) == Ops(Front(raws));
      NoSettingsNoChange(config, Front(raws), c);
    }
  }

  /** Collection `c` is known to the session exactly if it was seen, under its name and with the
      settings that the operations seen so far leave of its first carried settings. */
  predicate TracksAt(colls: map<nat, Collection>, sess: Session, raws: seq<Carried>, c: nat) {
    && (c in sess.known <==> FirstSettings(raws, c).Some?)
    && (c in sess.known ==>
          && c in colls && sess.known[c] == colls[c].name && colls[c].name in sess.rep.colls
          && sess.rep.colls[colls[c].name] == ConfigAfter(FirstSettings(raws, c).value, Ops(raws), c))
  }

  ghost predicate Tracks(colls: map<nat, Collection>, sess: Session, raws: seq<Carried>) {
    forall c {:trigger c in sess.known} {:trigger FirstSettings(raws, c)} {:trigger TracksAt(colls, sess, raws, c)} ::
      TracksAt(colls, sess, raws, c)
  }

  /** Whatever the target has logged under a source id is that source operation. */
  ghost predicate LogAgrees(db: Db, log: map<nat, LoggedRow>) {
    forall k | 0 <= k < |db.log| && db.log[k].id in log ::
      db.log[k].coll in db.colls && log[db.log[k].id] == RowFor(db.colls[db.log[k].coll].name, db.log[k])
  }

  predicate HasId(ops: seq<Operation>, id: nat) {
    ops != [] && (HasId(Front(ops), id) || Last(ops).id == id)
  }

  lemma {:induction false} HasIdOf(ops: seq<Operation>, id: nat) returns (op: Operation)
    requires HasId(ops, id)
    ensures op in ops && op.id == id
  {
    if HasId(Front(ops), id) { op := HasIdOf(Front(ops), id); } else { op := Last(ops); }
  }

  lemma {:induction false} HasIdIn(ops: seq<Operation>, op: Operation)
    requires op in ops
    ensures HasId(ops, op.id)
  {
    assert ops == Front(ops) + [Last(ops)];
    if op in Front(ops) { HasIdIn(Front(ops), op); }
  }

  /** What a row of the target's log says about the operations that were replayed. */
  ghost predicate LogHolds(before: map<nat, LoggedRow>, after: map<nat, LoggedRow>, ops: seq<Operation>) {
    && (forall id | id in before :: id in after && after[id] == before[id])
    && (forall id | id in after :: id in before || HasId(ops, id))
    && (forall op | op in ops :: op.id in after)
  }

  /** The operation comes from this log, and its metadata names its collection. */
  ghost predicate FromSource(db: Db, raw: Carried) {
    raw.op in db.log && NamedBy(db.colls, raw)
  }

  lemma LogStep(db: Db, log: map<nat, LoggedRow>, op: Operation)
    requires Ascending(db.log) && LogAgrees(db, log) && op in db.log && op.coll in db.colls
    ensures
      var row := RowFor(db.colls[op.coll].name, op);
      && (op.id in log ==> log[op.id] == row)
      && LogAgrees(db, log[op.id := row])
  {
    AscendingIdsIncrease(db.log);
    var k :| 0 <= k < |db.log| && db.log[k] == op;
    assert forall j | 0 <= j < |db.log| && db.log[j].id == op.id :: j == k;
  }

  lemma EnsureKeeps(colls: map<nat, Collection>, sess: Session, raws: seq<Carried>, raw: Carried)
    requires DistinctNames(colls) && Tracks(colls, sess, raws) && NamedBy(colls, raw)
    ensures
      var ready := Ensure(sess, raw.coll);
      var c := raw.op.coll;
      && ready.rep.docs == sess.rep.docs && ready.rep.log == sess.rep.log
      && c in ready.known && ready.known[c] == colls[c].name
      && FirstSettings(raws + [raw], c).Some? && colls[c].name in ready.rep.colls
      && ready.rep.colls[colls[c].name] == ConfigAfter(FirstSettings(raws + [raw], c).value, Ops(raws), c)
  {
    assert Front(raws + [raw]) == raws;
    var c := raw.op.coll;
    if c !in sess.known {
      NoSettingsNoChange(raw.coll.config, raws, c);
    }
  }

  /** One operation only touches the settings of its own collection. */
  lemma CarriedSettings(sess: Session, raw: Carried, ready: Session, after: Session)
    requires ready == Ensure(sess, raw.coll) && ReplayCarried(sess, raw) == Success(after)
    ensures after.known == ready.known && raw.coll.id in ready.known
    ensures
      var name := ready.known[raw.coll.id];
      after.rep.colls ==
      if name in ready.rep.colls then ready.rep.colls[name := ApplyConfig(ready.rep.colls[name], raw.op)]
      else ready.rep.colls
  {
  }

  lemma OwnTracks(colls: map<nat, Collection>, sess: Session, raws: seq<Carried>, raw: Carried, after: Session)
    requires DistinctNames(colls) && Tracks(colls, sess, raws) && NamedBy(colls, raw)
    requires ReplayCarried(sess, raw) == Success(after)
    ensures TracksAt(colls, after, raws + [raw], raw.op.coll)
  {
    assert Front(Ops(raws + [raw])) == Ops(raws) by { assert Front(raws + [raw]) == raws; }
    EnsureKeeps(colls, sess, raws, raw);
    CarriedSettings(sess, raw, Ensure(sess, raw.coll), after);
  }

  lemma OtherTracks(colls: map<nat, Collection>, sess: Session, raws: seq<Carried>, raw: Carried, after: Session,
                    c: nat)
    requires DistinctNames(colls) && TracksAt(colls, sess, raws, c) && NamedBy(colls, raw) && c != raw.op.coll
    requires raw.op.coll in sess.known ==> sess.known[raw.op.coll] == colls[raw.op.coll].name
    requires ReplayCarried(sess, raw) == Success(after)
    ensures TracksAt(colls, after, raws + [raw], c)
  {
    assert Front(raws + [raw]) == raws;
    assert Front(Ops(raws + [raw])) == Ops(raws);
    CarriedSettings(sess, raw, Ensure(sess, raw.coll), after);
    assert c in colls ==> colls[c].name != colls[raw.op.coll].name;
  }

  lemma TracksStep(colls: map<nat, Collection>, sess: Session, raws: seq<Carried>, raw: Carried, after: Session)
    requires DistinctNames(colls) && Tracks(colls, sess, raws) && NamedBy(colls, raw)
    requires ReplayCarried(sess, raw) == Success(after)
    ensures Tracks(colls, after, raws + [raw])
  {
    OwnTracks(colls, sess, raws, raw, after);
    forall c ensures TracksAt(colls, after, raws + [raw], c) {
      if c != raw.op.coll { OtherTracks(colls, sess, raws, raw, after, c); }
    }
  }

  lemma CarriedStep(db: Db, docs: Documents, sess: Session, raws: seq<Carried>, raw: Carried)
    requires Ascending(db.log) && DistinctNames(db.colls) && FromSource(db, raw)
    requires Tracks(db.colls, sess, raws) && LogAgrees(db, sess.rep.log)
    requires Mirrors(db.colls, docs, sess.rep.docs) && ReplayOne(docs, raw.op).Success?
    ensures ReplayCarried(sess, raw).Success?
    ensures
      var after := ReplayCarried(sess, raw).value;
      && Mirrors(db.colls, ReplayOne(docs, raw.op).value, after.rep.docs)
      && LogAgrees(db, after.rep.log)
      && after.rep.log == sess.rep.log[raw.op.id := RowFor(db.colls[raw.op.coll].name, raw.op)]
  {
    EnsureKeeps(db.colls, sess, raws, raw);
    MirrorStep(db.colls, docs, sess.rep.docs, raw.op);
    LogStep(db, sess.rep.log, raw.op);
    assert raw.op.id in sess.rep.log ==>
        sess.rep.log[raw.op.id := RowFor(db.colls[raw.op.coll].name, raw.op)] == sess.rep.log;
  }

  /** The whole loop: it raises none of its errors, and the target ends up holding what the
      interpreter makes of the carried operations, under names. */
  lemma {:induction false} LoopMirrors(db: Db, docs: Documents, rep: Replica, raws: seq<Carried>)
    requires Ascending(db.log) && DistinctNames(db.colls)
    requires forall raw | raw in raws :: FromSource(db, raw)
    requires Mirrors(db.colls, docs, rep.docs) && LogAgrees(db, rep.log)
    requires Replay(docs, Ops(raws)).Success?
    ensures ReplayAll(Session(map[], rep), raws).Success?
    ensures
      var sess := ReplayAll(Session(map[], rep), raws).value;
      && Mirrors(db.colls, Replay(docs, Ops(raws)).value, sess.rep.docs)
      && Tracks(db.colls, sess, raws)
      && LogAgrees(db, sess.rep.log)
      && LogHolds(rep.log, sess.rep.log, Ops(raws))
    decreases |raws|
  {
    if raws != [] {
      var front, raw := Front(raws), Last(raws);
      assert raws == front + [raw];
      assert Front(Ops(raws)) == Ops(front);
      LoopMirrors(db, docs, rep, front);
      var sess := ReplayAll(Session(map[], rep), front).value;
      CarriedStep(db, Replay(docs, Ops(front)).value, sess, front, raw);
      TracksStep(db.colls, sess, front, raw, ReplayCarried(sess, raw).value);
      LogHoldsStep(db, rep.log, sess.rep.log, Ops(front), raw.op);
    }
  }

  lemma LogHoldsStep(db: Db, before: map<nat, LoggedRow>, log: map<nat, LoggedRow>, ops: seq<Operation>, op: Operation)
    requires Ascending(db.log) && LogAgrees(db, log) && op in db.log && op.coll in db.colls
    requires LogHolds(before, log, ops)
    ensures LogHolds(before, log[op.id := RowFor(db.colls[op.coll].name, op)], ops + [op])
  {
    LogStep(db, log, op);
    var log', ops' := log[op.id := RowFor(db.colls[op.coll].name, op)], ops + [op];
    assert Front(ops') == ops;
  }

  // ---------------------------------------------------------------- from the messages to the log

  /** What a segment carries comes from the log, under its collection's name, with the settings
      that some prefix of the log leaves. */
  lemma CutCarries(db: Db, g: Segment, p: nat, raw: Carried) returns (m: nat)
    requires CutFrom(db, g, p) && raw in g.ops
    ensures FromSource(db, raw)
    ensures m <= |db.log| && raw.coll.config == ConfigAfter(DEFAULT_CONFIG, db.log[..m], raw.op.coll)
  {
    var i: nat, n: nat :| i <= p && SliceAt(db.log, g, i) && i + |g.ops| <= n && SnapshotsAt(db, g, n);
    var k :| 0 <= k < |g.ops| && g.ops[k] == raw;
    assert g.ops[k].op == db.log[i + k] && SnapshotAt(db, g, n, k);
    m := n;
  }

  lemma KeptFromSource(s: Site, arrived: seq<Message>, kept: seq<Message>, raw: Carried) returns (m: nat)
    requires BackupInv(s) && Arrives(s, arrived, kept) && raw in SortedOperations(kept)
    ensures FromSource(s.db, raw)
    ensures m <= |s.db.log| && raw.coll.config == ConfigAfter(DEFAULT_CONFIG, s.db.log[..m], raw.op.coll)
  {
    SortMembers(Flatten(kept), OpIdLe);
    FlattenMembers(kept, raw);
    var message :| message in kept && raw in message.segment.ops;
    assert message in arrived && message in s.messages;
    m := CutCarries(s.db, message.segment, CursorPosition(s), raw);
  }

  lemma LastCovered(s: Site, arrived: seq<Message>, kept: seq<Message>)
    requires BackupInv(s) && Arrives(s, arrived, kept) && s.messages != []
    ensures kept != [] && SortedOperations(kept) != []
    ensures Reach(s.db.log, s.messages) <= |s.db.log| && Covered(s) != []
    ensures Last(SortedOperations(kept)).op.id == HighestId(Covered(s))
  {
    var raws := SortedOperations(kept);
    var m := s.messages[0];
    assert m in s.messages && m in arrived;
    var i := SliceStart(s, m);
    SliceCarries(s.db.log, m, i, i);
    assert Uploaded(s.messages, s.db.log[i]);
    UploadsCoverPrefix(s);
    CoveredMembers(s, arrived, kept);
    SortedOpsMembers(kept);
    OpsAt(raws);
    AscendingPrefix(s.db.log, Reach(s.db.log, s.messages));
    AscendingIdsIncrease(Covered(s));
    assert s.db.log[i] in Covered(s);
    SameLast(Ops(raws), Covered(s));
  }

  lemma CoveredMembers(s: Site, arrived: seq<Message>, kept: seq<Message>)
    requires BackupInv(s) && Arrives(s, arrived, kept)
    ensures Reach(s.db.log, s.messages) <= |s.db.log|
    ensures SameMembers(Ops(SortedOperations(kept)), Covered(s))
  {
    UploadsCoverPrefix(s);
    SortedOpsMembers(kept);
    forall op ensures op in Ops(SortedOperations(kept)) <==> op in Covered(s) {
      DedupeLosesNothing(s, arrived, kept, op);
    }
  }

  /** The target's documents are the given ones, under names, except for their versions. */
  ghost predicate MirrorsContent(colls: map<nat, Collection>, docs: Documents, named: map<NamedKey, Document>) {
    && (forall key | key in docs ::
          key.0 in colls && NameKey(colls, key) in named && SameDocument(named[NameKey(colls, key)], docs[key]))
    && (forall name | name in named ::
          exists key :: key in docs && key.0 in colls && NameKey(colls, key) == name)
  }

  lemma MirrorsSameContent(colls: map<nat, Collection>, docs: Documents, other: Documents,
                           named: map<NamedKey, Document>)
    requires SameContent(docs, other) && Mirrors(colls, other, named)
    ensures MirrorsContent(colls, docs, named)
  {
    forall name | name in named ensures exists key :: key in docs && key.0 in colls && NameKey(colls, key) == name {
      var key :| key in other && key.0 in colls && NameKey(colls, key) == name;
      assert key in docs;
    }
  }

  /** The target has exactly the collections that the operations are about, under their names. */
  ghost predicate SameCollections(db: Db, ops: seq<Operation>, colls: map<string, Config>) {
    && (forall c | Mentions(ops, c) :: c in db.colls && db.colls[c].name in colls)
    && (forall name | name in colls :: NamesOne(db, ops, name))
  }

  ghost predicate NamesOne(db: Db, ops: seq<Operation>, name: string) {
    exists c :: c in db.colls && Mentions(ops, c) && db.colls[c].name == name
  }

  /** The target holds the content of the source after `ops`, and exactly those collections and operations. */
  ghost predicate Reproduces(db: Db, ops: seq<Operation>, rep: Replica) {
    && Replay(map[], ops).Success?
    && MirrorsContent(db.colls, Replay(map[], ops).value, rep.docs)
    && SameCollections(db, ops, rep.colls)
    && LogIs(db, ops, rep.log)
    && rep.cursor == Some(HighestId(ops))
  }

  /** The log holds exactly the operations, each under its id and its collection's name. */
  ghost predicate LogIs(db: Db, ops: seq<Operation>, log: map<nat, LoggedRow>) {
    && (forall op | op in ops ::
          op.coll in db.colls && op.id in log && log[op.id] == RowFor(db.colls[op.coll].name, op))
    && (forall id | id in log :: HasId(ops, id))
  }

  // ---------------------------------------------------------------- what a restore gets to replay

  /** Whatever messages arrive, this is what the replay loop is given: the operations of a prefix of the
      source's log, in order, each once or more, under the names of their collections. */
  ghost predicate Gathered(db: Db, covered: seq<Operation>, raws: seq<Carried>, ops: seq<Operation>) {
    && Ascending(db.log) && DistinctNames(db.colls)
    && covered <= db.log && covered != [] && Replay(map[], covered).Success?
    && raws != [] && ops == Ops(raws) && SameMembers(ops, covered) && Squash(ops) == covered
    && Last(raws).op.id == HighestId(covered)
    && (forall raw | raw in raws :: FromSource(db, raw))
  }

  lemma Gather(s: Site, arrived: seq<Message>, kept: seq<Message>)
    requires BackupInv(s) && Arrives(s, arrived, kept) && s.messages != []
    ensures kept != [] && CursorPosition(s) <= Reach(s.db.log, s.messages) <= |s.db.log|
    ensures Gathered(s.db, Covered(s), SortedOperations(kept), Ops(SortedOperations(kept)))
  {
    UploadsCoverPrefix(s);
    SortedSquashesToCovered(s, arrived, kept);
    PrefixReplays(s.db, Reach(s.db.log, s.messages));
    LastCovered(s, arrived, kept);
    CoveredMembers(s, arrived, kept);
    forall raw | raw in SortedOperations(kept) ensures FromSource(s.db, raw) {
      var _ := KeptFromSource(s, arrived, kept, raw);
    }
  }

  lemma GatheredReplays(db: Db, covered: seq<Operation>, raws: seq<Carried>, ops: seq<Operation>)
    requires Gathered(db, covered, raws, ops)
    ensures Replay(map[], ops).Success? && SameContent(Replay(map[], covered).value, Replay(map[], ops).value)
  {
    RepetitionsAreHarmless(map[], ops);
  }

  /** The loop over a target that mirrors `docs` and logs nothing but source operations. */
  lemma ReplayOver(db: Db, covered: seq<Operation>, raws: seq<Carried>, ops: seq<Operation>, docs: Documents,
                   before: Replica)
    returns (sess: Session)
    requires Gathered(db, covered, raws, ops) && Replay(docs, ops).Success?
    requires Mirrors(db.colls, docs, before.docs) && LogAgrees(db, before.log)
    ensures ReplayAll(Session(map[], before), raws) == Success(sess)
    ensures Mirrors(db.colls, Replay(docs, ops).value, sess.rep.docs)
    ensures Tracks(db.colls, sess, raws)
    ensures LogAgrees(db, sess.rep.log) && LogHolds(before.log, sess.rep.log, ops)
  {
    LoopMirrors(db, docs, before, raws);
    sess := ReplayAll(Session(map[], before), raws).value;
  }

  /** The target once the replayed state is recorded: all that a restore adds to its loop. */
  function Recorded(before: Replica, kept: seq<Message>, last: nat, sess: Session): Replica {
    sess.rep.(marks := RecordSegments(before.marks, kept), cursor := Some(AdvanceCursor(before.cursor, last)))
  }

  lemma RestoreIs(before: Replica, kept: seq<Message>, raws: seq<Carried>, sess: Session)
    requires kept != [] && raws == SortedOperations(kept) && raws != []
    requires ReplayAll(Session(map[], before), raws) == Success(sess)
    ensures RestoreInto(before, kept) == Success(Recorded(before, kept, Last(raws).op.id, sess))
  {
  }

  // ---------------------------------------------------------------- collections

  lemma {:induction false} MentionsIn(ops: seq<Operation>, op: Operation)
    requires op in ops
    ensures Mentions(ops, op.coll)
  {
    assert ops == Front(ops) + [Last(ops)];
    if op in Front(ops) { MentionsIn(Front(ops), op); }
  }

  lemma {:induction false} MentionsOf(ops: seq<Operation>, c: nat) returns (op: Operation)
    requires Mentions(ops, c)
    ensures op in ops && op.coll == c
  {
    if Mentions(Front(ops), c) { op := MentionsOf(Front(ops), c); } else { op := Last(ops); }
  }

  lemma MentionsSame(a: seq<Operation>, b: seq<Operation>, c: nat)
    requires SameMembers(a, b)
    ensures Mentions(a, c) <==> Mentions(b, c)
  {
    if Mentions(a, c) {
      var op := MentionsOf(a, c);
      MentionsIn(b, op);
    }
    if Mentions(b, c) {
      var op := MentionsOf(b, c);
      MentionsIn(a, op);
    }
  }

  lemma {:induction false} SettingsComeFirst(raws: seq<Carried>, c: nat)
    ensures FirstSettings(raws, c).Some? <==> Mentions(Ops(raws), c)
  {
    if raws != [] {
      assert Front(Ops(raws)) == Ops(Front(raws));
      SettingsComeFirst(Front(raws), c);
    }
  }

  lemma SeenIffMentioned(db: Db, covered: seq<Operation>, raws: seq<Carried>, ops: seq<Operation>, c: nat)
    requires Gathered(db, covered, raws, ops)
    ensures FirstSettings(raws, c).Some? <==> Mentions(covered, c)
  {
    SettingsComeFirst(raws, c);
    MentionsSame(ops, covered, c);
  }

  lemma {:induction false} LoopColls(sess: Session, raws: seq<Carried>, name: string)
    requires ReplayAll(sess, raws).Success?
    requires name in ReplayAll(sess, raws).value.rep.colls && name !in sess.rep.colls
    ensures exists c :: c in ReplayAll(sess, raws).value.known && ReplayAll(sess, raws).value.known[c] == name
  {
    if raws != [] {
      var mid := ReplayAll(sess, Front(raws)).value;
      if name in mid.rep.colls {
        LoopColls(sess, Front(raws), name);
        var c :| c in mid.known && mid.known[c] == name;
        assert c in ReplayAll(sess, raws).value.known;
      } else {
        assert Last(raws).coll.id in ReplayAll(sess, raws).value.known;
      }
    }
  }

  /** The collections after the loop: those there were, and those that the operations are about. */
  lemma CollectionsReplayed(db: Db, covered: seq<Operation>, raws: seq<Carried>, ops: seq<Operation>,
                            before: Replica, sess: Session)
    requires Gathered(db, covered, raws, ops) && Tracks(db.colls, sess, raws)
    requires ReplayAll(Session(map[], before), raws) == Success(sess)
    requires forall name | name in before.colls :: NamesOne(db, covered, name)
    ensures SameCollections(db, covered, sess.rep.colls)
  {
    forall c | Mentions(covered, c) ensures c in db.colls && db.colls[c].name in sess.rep.colls {
      SeenIffMentioned(db, covered, raws, ops, c);
      assert TracksAt(db.colls, sess, raws, c);
    }
    forall name | name in sess.rep.colls ensures NamesOne(db, covered, name) {
      if name !in before.colls {
        LoopColls(Session(map[], before), raws, name);
        var c :| c in sess.known && sess.known[c] == name;
        assert TracksAt(db.colls, sess, raws, c);
        SeenIffMentioned(db, covered, raws, ops, c);
      }
    }
  }

  // ---------------------------------------------------------------- the round trip

  /** THE ROUND TRIP.  Take any reachable state of a database and its backup, with any crashes
      behind it, and its messages in any order.  Restoring them into an empty database succeeds, and
      the target then holds the documents (data, deleted flag, owner), the collections, the log and the
      cursor of the source as it was after exactly the operations that the uploads cover. */
  lemma RestoreReproducesSource(s: Site, arrived: seq<Message>, kept: seq<Message>) returns (rep: Replica)
    requires BackupInv(s) && Arrives(s, arrived, kept) && s.messages != []
    ensures RestoreInto(EMPTY_REPLICA, kept) == Success(rep)
    ensures CursorPosition(s) <= Reach(s.db.log, s.messages) <= |s.db.log|
    ensures Reproduces(s.db, Covered(s), rep)
  {
    Gather(s, arrived, kept);
    var sess;
    rep, sess := FirstRestore(s.db, Covered(s), kept, SortedOperations(kept), Ops(SortedOperations(kept)));
  }

  /** The same of anything that was gathered, with the session that the loop ends in. */
  lemma FirstRestore(db: Db, covered: seq<Operation>, kept: seq<Message>, raws: seq<Carried>, ops: seq<Operation>)
    returns (rep: Replica, sess: Session)
    requires Gathered(db, covered, raws, ops) && kept != [] && raws == SortedOperations(kept)
    ensures RestoreInto(EMPTY_REPLICA, kept) == Success(rep) && Reproduces(db, covered, rep)
    ensures ReplayAll(Session(map[], EMPTY_REPLICA), raws) == Success(sess) && Tracks(db.colls, sess, raws)
    ensures rep == Recorded(EMPTY_REPLICA, kept, HighestId(covered), sess)
    ensures Replay(map[], ops).Success? && Mirrors(db.colls, Replay(map[], ops).value, rep.docs)
    ensures LogHolds(map[], rep.log, ops)
  {
    GatheredReplays(db, covered, raws, ops);
    sess := ReplayOver(db, covered, raws, ops, map[], EMPTY_REPLICA);
    RestoreIs(EMPTY_REPLICA, kept, raws, sess);
    rep := Recorded(EMPTY_REPLICA, kept, HighestId(covered), sess);
    CollectionsReplayed(db, covered, raws, ops, EMPTY_REPLICA, sess);
    MirrorsSameContent(db.colls, Replay(map[], covered).value, Replay(map[], ops).value, rep.docs);
    LogIsExact(db, covered, ops, rep.log);
  }

  lemma LogIsExact(db: Db, covered: seq<Operation>, ops: seq<Operation>, log: map<nat, LoggedRow>)
    requires SameMembers(ops, covered) && LogAgrees(db, log) && LogHolds(map[], log, ops)
    requires covered <= db.log
    ensures LogIs(db, covered, log)
  {
    forall op | op in covered
      ensures op.coll in db.colls && op.id in log && log[op.id] == RowFor(db.colls[op.coll].name, op)
    {
      var k :| 0 <= k < |covered| && covered[k] == op;
      assert db.log[k] == op && op in ops;
    }
    forall id | id in log ensures HasId(covered, id) {
      var op := HasIdOf(ops, id);
      HasIdIn(covered, op);
    }
  }

  /** With nothing pending, the target holds the content of the source as it is now. */
  lemma DrainedRestoreIsComplete(s: Site, arrived: seq<Message>, kept: seq<Message>) returns (rep: Replica)
    requires BackupInv(s) && Arrives(s, arrived, kept) && s.messages != []
    requires Pending(s.db.log, s.cursor) == []
    ensures RestoreInto(EMPTY_REPLICA, kept) == Success(rep)
    ensures Reproduces(s.db, s.db.log, rep) && MirrorsContent(s.db.colls, s.db.docs, rep.docs)
  {
    NothingPendingCoversAll(s);
    rep := RestoreReproducesSource(s, arrived, kept);
  }

  lemma NothingPendingCoversAll(s: Site)
    requires BackupInv(s) && Pending(s.db.log, s.cursor) == []
    ensures Reach(s.db.log, s.messages) == |s.db.log| && Covered(s) == s.db.log
  {
    UploadsCoverPrefix(s);
    PendingIsSuffix(s.db.log, s.cursor);
  }

  // ---------------------------------------------------------------- segment records

  /** The restored segment records are exactly the kept segments, in order. */
  lemma {:induction false} RestoredMarks(kept: seq<Message>, owner: nat)
    requires StrictlyOrdered(kept) && forall m | m in kept :: m.owner == owner
    ensures |RecordSegments([], kept)| == |kept|
    ensures forall k | 0 <= k < |kept| :: RecordSegments([], kept)[k] == MarkOf(kept[k])
  {
    if kept != [] {
      var front, last := Front(kept), Last(kept);
      assert kept == front + [last];
      RestoredMarks(front, owner);
      forall k | 0 <= k < |front| ensures RangeLess(RangeOf(front[k]), RangeOf(last)) {
        assert front[k] in front;
      }
    }
  }
}
