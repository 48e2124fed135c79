/** When a restored version number is the source's: exactly where no operation was carried twice. */
module VersionNumbers {
  import opened Prelude
  import opened Sorting
  import opened OperationLog
  import opened Backup
  import opened Restore
  import opened RoundTrip
  import opened RestoreAgain

  // ---------------------------------------------------------------- counting copies

  /** How many copies of operations on this document the kept segments carry. */
  function CarriedCopies(kept: seq<Message>, key: DocKey): nat {
    if kept == [] then 0
    else CarriedCopies(Front(kept), key) + CountConcerning(Ops(Last(kept).segment.ops), key)
  }

  function CopiesIn(raws: seq<Carried>, key: DocKey): nat {
    if raws == [] then 0 else CopiesIn(Front(raws), key) + if Concerns(Last(raws).op, key) then 1 else 0
  }

  lemma {:induction false} CopiesAreCounted(raws: seq<Carried>, key: DocKey)
    ensures CopiesIn(raws, key) == CountConcerning(Ops(raws), key)
  {
    if raws != [] {
      CopiesAreCounted(Front(raws), key);
      assert Front(Ops(raws)) == Ops(Front(raws));
    }
  }

  lemma {:induction false} CopiesConcat(a: seq<Carried>, b: seq<Carried>, key: DocKey)
    ensures CopiesIn(a + b, key) == CopiesIn(a, key) + CopiesIn(b, key)
  {
    if b == [] {
      assert a + b == a;
    } else {
      assert Front(a + b) == a + Front(b);
      CopiesConcat(a, Front(b), key);
    }
  }

  lemma {:induction false} FlattenCopies(kept: seq<Message>, key: DocKey)
    ensures CopiesIn(Flatten(kept), key) == CarriedCopies(kept, key)
  {
    if kept != [] {
      FlattenCopies(Front(kept), key);
      CopiesConcat(Flatten(Front(kept)), Last(kept).segment.ops, key);
      CopiesAreCounted(Last(kept).segment.ops, key);
    }
  }

  lemma {:induction false} InsertCopies(xs: seq<Carried>, x: Carried, key: DocKey)
    ensures CopiesIn(Insert(xs, x, OpIdLe), key) == CopiesIn(xs, key) + if Concerns(x.op, key) then 1 else 0
  {
    if xs == [] || OpIdLe(Last(xs), x) {
      assert Front(xs + [x]) == xs && [x] == [] + [x];
    } else {
      var lower := Insert(Front(xs), x, OpIdLe);
      InsertCopies(Front(xs), x, key);
      assert Front(lower + [Last(xs)]) == lower;
    }
  }

  lemma {:induction false} SortCopies(xs: seq<Carried>, key: DocKey)
    ensures CopiesIn(StableSort(xs, OpIdLe), key) == CopiesIn(xs, key)
  {
    if xs != [] {
      SortCopies(Front(xs), key);
      InsertCopies(StableSort(Front(xs), OpIdLe), Last(xs), key);
    }
  }

  /** A restored version counts every carried copy, while the source's version counts operations. */
  lemma RestoredVersions(s: Site, arrived: seq<Message>, kept: seq<Message>, rep: Replica, key: DocKey)
    requires BackupInv(s) && Arrives(s, arrived, kept) && s.messages != []
    requires RestoreInto(EMPTY_REPLICA, kept) == Success(rep)
    ensures Reach(s.db.log, s.messages) <= |s.db.log| && Replay(map[], Covered(s)).Success?
    ensures key in Replay(map[], Covered(s)).value ==>
              && key.0 in s.db.colls && NameKey(s.db.colls, key) in rep.docs
              && rep.docs[NameKey(s.db.colls, key)].version == CarriedCopies(kept, key)
              && Replay(map[], Covered(s)).value[key].version == CountConcerning(Covered(s), key)
  {
    Gather(s, arrived, kept);
    var raws := SortedOperations(kept);
    GatheredReplays(s.db, Covered(s), raws, Ops(raws));
    var again, sess := FirstRestore(s.db, Covered(s), kept, raws, Ops(raws));
    VersionCountsOperations(map[], Ops(raws), key);
    VersionCountsOperations(map[], Covered(s), key);
    CopiesInAll(kept, key);
  }

  lemma CopiesInAll(kept: seq<Message>, key: DocKey)
    ensures CountConcerning(Ops(SortedOperations(kept)), key) == CarriedCopies(kept, key)
  {
    SortCopies(Flatten(kept), key);
    CopiesAreCounted(SortedOperations(kept), key);
    FlattenCopies(kept, key);
  }

  // ---------------------------------------------------------------- distinct operations

  /** The operations on one document. */
  function Touching(ops: seq<Operation>, key: DocKey): set<Operation> {
    if ops == [] then {}
    else if Concerns(Last(ops), key) then Touching(Front(ops), key) + {Last(ops)}
    else Touching(Front(ops), key)
  }

  lemma {:induction false} TouchingMembers(ops: seq<Operation>, key: DocKey, op: Operation)
    ensures op in Touching(ops, key) <==> op in ops && Concerns(op, key)
  {
    if ops != [] {
      TouchingMembers(Front(ops), key, op);
      assert op in ops <==> op in Front(ops) || op == Last(ops);
    }
  }

  lemma {:induction false} TouchingCounts(ops: seq<Operation>, key: DocKey)
    requires NoDuplicates(ops)
    ensures |Touching(ops, key)| == CountConcerning(ops, key)
  {
    if ops != [] {
      TouchingCounts(Front(ops), key);
      TouchingMembers(Front(ops), key, Last(ops));
    }
  }

  /** The operations on one document that some kept segment carries. */
  function Carried(kept: seq<Message>, key: DocKey): set<Operation> {
    if kept == [] then {} else Carried(Front(kept), key) + Touching(Ops(Last(kept).segment.ops), key)
  }

  lemma CarriesIsIn(m: Message, op: Operation)
    ensures Carries(m, op) <==> op in Ops(m.segment.ops)
  {
    OpsAt(m.segment.ops);
    if Carries(m, op) {
      var k :| 0 <= k < |m.segment.ops| && m.segment.ops[k].op == op;
      assert Ops(m.segment.ops)[k] == op;
    }
  }

  lemma {:induction false} CarriedMembers(kept: seq<Message>, key: DocKey, op: Operation)
    ensures op in Carried(kept, key) <==> Uploaded(kept, op) && Concerns(op, key)
  {
    if kept != [] {
      var front, last := Front(kept), Last(kept);
      CarriedMembers(front, key, op);
      CarriesIsIn(last, op);
      TouchingMembers(Ops(last.segment.ops), key, op);
      assert kept == front + [last];
      if Uploaded(front, op) {
        var m :| m in front && Carries(m, op);
        assert m in kept;
      }
      if Uploaded(kept, op) {
        var m :| m in kept && Carries(m, op);
        assert m in front || m == last;
      }
    }
  }

  /** No two kept segments carry the same operation on the document. */
  predicate CarriedOnce(kept: seq<Message>, key: DocKey) {
    kept == [] ||
    (CarriedOnce(Front(kept), key) && Carried(Front(kept), key) !! Touching(Ops(Last(kept).segment.ops), key))
  }

  predicate SegmentsDistinct(kept: seq<Message>) {
    kept == [] || (SegmentsDistinct(Front(kept)) && NoDuplicates(Ops(Last(kept).segment.ops)))
  }

  lemma UnionSize<T>(a: set<T>, b: set<T>)
    ensures |a + b| <= |a| + |b|
    ensures |a + b| == |a| + |b| <==> a !! b
  {
    assert |a + b| + |a * b| == |a| + |b|;
    if a !! b {
      assert a * b == {};
    } else {
      var x :| x in a && x in b;
      assert x in a * b;
    }
  }

  lemma {:induction false} CopiesBoundCarried(kept: seq<Message>, key: DocKey)
    requires SegmentsDistinct(kept)
    ensures |Carried(kept, key)| <= CarriedCopies(kept, key)
    ensures |Carried(kept, key)| == CarriedCopies(kept, key) <==> CarriedOnce(kept, key)
  {
    if kept != [] {
      var ops := Ops(Last(kept).segment.ops);
      CopiesBoundCarried(Front(kept), key);
      TouchingCounts(ops, key);
      UnionSize(Carried(Front(kept), key), Touching(ops, key));
    }
  }

  // ---------------------------------------------------------------- segments are cut from one log

  lemma {:induction false} IncreasingIsDistinct(log: seq<Operation>, ops: seq<Operation>, i: nat)
    requires IdsIncrease(log) && i + |ops| <= |log| && ops == log[i..i + |ops|]
    ensures NoDuplicates(ops)
  {
    if ops != [] {
      assert Front(ops) == log[i..i + |Front(ops)|];
      IncreasingIsDistinct(log, Front(ops), i);
      forall k | 0 <= k < |ops| - 1 ensures ops[k] != Last(ops) {
        assert log[i + k].id < log[i + |ops| - 1].id;
      }
    }
  }

  lemma SliceIsDistinct(s: Site, m: Message)
    requires BackupInv(s) && m in s.messages
    ensures NoDuplicates(Ops(m.segment.ops))
  {
    var i := SliceStart(s, m);
    var ops := Ops(m.segment.ops);
    OpsAt(m.segment.ops);
    AscendingIdsIncrease(s.db.log);
    assert ops == s.db.log[i..i + |ops|];
    IncreasingIsDistinct(s.db.log, ops, i);
  }

  lemma {:induction false} KeptAreDistinct(s: Site, kept: seq<Message>)
    requires BackupInv(s) && forall m | m in kept :: m in s.messages
    ensures SegmentsDistinct(kept)
  {
    if kept != [] {
      assert kept == Front(kept) + [Last(kept)];
      KeptAreDistinct(s, Front(kept));
      SliceIsDistinct(s, Last(kept));
    }
  }

  lemma CarriedIsTouching(s: Site, arrived: seq<Message>, kept: seq<Message>, key: DocKey, op: Operation)
    requires BackupInv(s) && Arrives(s, arrived, kept)
    ensures Reach(s.db.log, s.messages) <= |s.db.log|
    ensures op in Carried(kept, key) <==> op in Touching(Covered(s), key)
  {
    CoveredMembers(s, arrived, kept);
    SortedOpsMembers(kept);
    CarriedMembers(kept, key, op);
    TouchingMembers(Covered(s), key, op);
    assert op in Ops(SortedOperations(kept)) <==> op in Covered(s);
  }

  lemma CoveredIsDistinct(s: Site)
    requires BackupInv(s) && Reach(s.db.log, s.messages) <= |s.db.log|
    ensures NoDuplicates(Covered(s))
  {
    AscendingIdsIncrease(s.db.log);
    IncreasingIsDistinct(s.db.log, Covered(s), 0);
  }

  lemma CarriedIsCovered(s: Site, arrived: seq<Message>, kept: seq<Message>, key: DocKey)
    requires BackupInv(s) && Arrives(s, arrived, kept)
    ensures Reach(s.db.log, s.messages) <= |s.db.log|
    ensures |Carried(kept, key)| == CountConcerning(Covered(s), key)
  {
    UploadsCoverPrefix(s);
    forall op ensures op in Carried(kept, key) <==> op in Touching(Covered(s), key) {
      CarriedIsTouching(s, arrived, kept, key, op);
    }
    assert Carried(kept, key) == Touching(Covered(s), key);
    CoveredIsDistinct(s);
    TouchingCounts(Covered(s), key);
  }

  /** VERSIONS.  A restored version is never below the source's, and equals it if and only if no two
      kept segments carry the same operation on the document. */
  lemma VersionsMatchIffCarriedOnce(s: Site, arrived: seq<Message>, kept: seq<Message>, rep: Replica, key: DocKey)
    requires BackupInv(s) && Arrives(s, arrived, kept) && s.messages != []
    requires RestoreInto(EMPTY_REPLICA, kept) == Success(rep)
    ensures Reach(s.db.log, s.messages) <= |s.db.log| && Replay(map[], Covered(s)).Success?
    ensures key in Replay(map[], Covered(s)).value ==>
      && key.0 in s.db.colls && NameKey(s.db.colls, key) in rep.docs
      && var restored := rep.docs[NameKey(s.db.colls, key)].version;
         var original := Replay(map[], Covered(s)).value[key].version;
         original <= restored && (original == restored <==> CarriedOnce(kept, key))
  {
    RestoredVersions(s, arrived, kept, rep, key);
    CarriedIsCovered(s, arrived, kept, key);
    KeptAreDistinct(s, kept);
    CopiesBoundCarried(kept, key);
  }

  /** A second restore of the same messages adds every carried copy once more, so versions only grow,
      and they grow for exactly the documents that the messages mention. */
  lemma RepeatedRestoreVersions(
      s: Site, arrived: seq<Message>, kept: seq<Message>, first: Replica, second: Replica, key: DocKey)
    requires BackupInv(s) && Arrives(s, arrived, kept) && s.messages != []
    requires RestoreInto(EMPTY_REPLICA, kept) == Success(first) && RestoreInto(first, kept) == Success(second)
    ensures Reach(s.db.log, s.messages) <= |s.db.log| && Replay(map[], Covered(s)).Success?
    ensures key in Replay(map[], Covered(s)).value ==>
      && key.0 in s.db.colls
      && var name := NameKey(s.db.colls, key);
         && name in first.docs && name in second.docs
         && second.docs[name].version == first.docs[name].version + CarriedCopies(kept, key)
  {
    Gather(s, arrived, kept);
    var raws := SortedOperations(kept);
    var again, docs, later := SecondRestore(s.db, Covered(s), kept, raws, Ops(raws), first);
    GatheredReplays(s.db, Covered(s), raws, Ops(raws));
    VersionCountsOperations(docs, Ops(raws), key);
    CopiesInAll(kept, key);
  }
}
