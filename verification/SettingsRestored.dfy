/** In what state a restore brings back the rules and the validator of a collection. */
module SettingsRestored {
  import opened Prelude
  import opened OperationLog
  import opened JsonRoutes
  import opened Backup
  import opened Restore
  import opened RoundTrip

  predicate HasRules(ops: seq<Operation>, c: nat) {
    ops != [] && (HasRules(Front(ops), c) ||
                  (Last(ops).coll == c && Last(ops).op.RulesOp? && Last(ops).payload.RulesPayload?))
  }

  predicate HasValidator(ops: seq<Operation>, c: nat) {
    ops != [] && (HasValidator(Front(ops), c) || (Last(ops).coll == c && Last(ops).op.ValidatorOp?))
  }

  /** Settings after a log: the last rules and validator operations decide, else the start does. */
  lemma {:induction false} SettingsDecided(a: Config, b: Config, ops: seq<Operation>, c: nat)
    ensures
      var x, y := ConfigAfter(a, ops, c), ConfigAfter(b, ops, c);
      && (if HasRules(ops, c) then x.read == y.read && x.write == y.write
          else x.read == a.read && x.write == a.write)
      && (if HasValidator(ops, c) then x.validator == y.validator else x.validator == a.validator)
  {
    if ops != [] {
      SettingsDecided(a, b, Front(ops), c);
    }
  }

  lemma {:induction false} SquashKeepsSettings(config: Config, ops: seq<Operation>, c: nat)
    ensures ConfigAfter(config, Squash(ops), c) == ConfigAfter(config, ops, c)
  {
    if |ops| > 1 {
      SquashKeepsSettings(config, Front(ops), c);
      if Last(ops) != Last(Front(ops)) {
        assert Front(Squash(ops)) == Squash(Front(ops));
      }
    }
  }

  /** Settings that were carried first and then replayed over are those of the covered operations exactly
      where, for the rules and for the validator separately, the operations set them or the carried ones
      were still the defaults. */
  predicate SettingsAgree(covered: seq<Operation>, c: nat, carried: Config, restored: Config) {
    var source := ConfigAfter(DEFAULT_CONFIG, covered, c);
    && (restored.read == source.read && restored.write == source.write <==>
          HasRules(covered, c) || (carried.read == DEFAULT_CONFIG.read && carried.write == DEFAULT_CONFIG.write))
    && (restored.validator == source.validator <==> HasValidator(covered, c) || carried.validator == None)
  }

  lemma SettingsReplayed(db: Db, covered: seq<Operation>, raws: seq<Carried>, ops: seq<Operation>, sess: Session,
                         c: nat)
    requires Gathered(db, covered, raws, ops) && Tracks(db.colls, sess, raws) && Mentions(covered, c)
    ensures c in db.colls && FirstSettings(raws, c).Some? && db.colls[c].name in sess.rep.colls
    ensures SettingsAgree(covered, c, FirstSettings(raws, c).value, sess.rep.colls[db.colls[c].name])
  {
    SeenIffMentioned(db, covered, raws, ops, c);
    assert TracksAt(db.colls, sess, raws, c);
    var carried := FirstSettings(raws, c).value;
    SquashKeepsSettings(carried, ops, c);
    SettingsDecided(carried, DEFAULT_CONFIG, covered, c);
    SettingsDecided(DEFAULT_CONFIG, carried, covered, c);
  }

  /** SETTINGS, exactly.  Whatever collection the covered operations are about, its restored settings are
      the source's after those operations if and only if, for the rules and for the validator separately,
      the operations set them or the first carried metadata still had the defaults. */
  lemma RestoredSettings(s: Site, arrived: seq<Message>, kept: seq<Message>, rep: Replica, c: nat)
    requires BackupInv(s) && Arrives(s, arrived, kept) && s.messages != []
    requires RestoreInto(EMPTY_REPLICA, kept) == Success(rep)
    ensures Reach(s.db.log, s.messages) <= |s.db.log|
    ensures Mentions(Covered(s), c) ==>
      && c in s.db.colls && s.db.colls[c].name in rep.colls && FirstSettings(SortedOperations(kept), c).Some?
      && SettingsAgree(Covered(s), c, FirstSettings(SortedOperations(kept), c).value, rep.colls[s.db.colls[c].name])
  {
    Gather(s, arrived, kept);
    var raws := SortedOperations(kept);
    var again, sess := FirstRestore(s.db, Covered(s), kept, raws, Ops(raws));
    if Mentions(Covered(s), c) { SettingsReplayed(s.db, Covered(s), raws, Ops(raws), sess, c); }
  }

  lemma {:induction false} FirstSettingsCarried(raws: seq<Carried>, c: nat) returns (raw: Carried)
    requires FirstSettings(raws, c).Some?
    ensures raw in raws && raw.op.coll == c && FirstSettings(raws, c) == Some(raw.coll.config)
  {
    if FirstSettings(Front(raws), c).Some? {
      raw := FirstSettingsCarried(Front(raws), c);
    } else {
      raw := Last(raws);
    }
  }

  lemma {:induction false} PrefixHasSettings(log: seq<Operation>, m: nat, c: nat)
    requires m <= |log|
    ensures HasRules(log[..m], c) ==> HasRules(log, c)
    ensures HasValidator(log[..m], c) ==> HasValidator(log, c)
  {
    if m < |log| {
      PrefixHasSettings(Front(log), m, c);
      assert Front(log)[..m] == log[..m];
    } else {
      assert log[..m] == log;
    }
  }

  /** With nothing pending, what was carried is no newer than the log: settings that the log never set
      were carried as the defaults. */
  lemma CarriedNotAhead(s: Site, arrived: seq<Message>, kept: seq<Message>, c: nat)
    requires BackupInv(s) && Arrives(s, arrived, kept) && FirstSettings(SortedOperations(kept), c).Some?
    ensures
      var carried := FirstSettings(SortedOperations(kept), c).value;
      && (HasRules(s.db.log, c) || (carried.read == DEFAULT_CONFIG.read && carried.write == DEFAULT_CONFIG.write))
      && (HasValidator(s.db.log, c) || carried.validator == None)
  {
    var raw := FirstSettingsCarried(SortedOperations(kept), c);
    var m := KeptFromSource(s, arrived, kept, raw);
    PrefixHasSettings(s.db.log, m, c);
    SettingsDecided(DEFAULT_CONFIG, DEFAULT_CONFIG, s.db.log[..m], c);
  }

  /** The target has the collections of the source, all of them and no others, with their settings. */
  ghost predicate SameSettings(db: Db, colls: map<string, Config>) {
    && (forall c | c in db.colls :: db.colls[c].name in colls && colls[db.colls[c].name] == db.colls[c].config)
    && (forall name | name in colls :: exists c :: c in db.colls && db.colls[c].name == name)
  }

  /** A loop over everything that a drained source has uploaded leaves the source's settings. */
  lemma DrainedSettings(s: Site, arrived: seq<Message>, kept: seq<Message>, sess: Session)
    requires BackupInv(s) && Arrives(s, arrived, kept) && s.messages != []
    requires Pending(s.db.log, s.cursor) == [] && Tracks(s.db.colls, sess, SortedOperations(kept))
    requires SameCollections(s.db, s.db.log, sess.rep.colls)
    ensures SameSettings(s.db, sess.rep.colls)
  {
    Gather(s, arrived, kept);
    NothingPendingCoversAll(s);
    var raws := SortedOperations(kept);
    forall c | c in s.db.colls
      ensures s.db.colls[c].name in sess.rep.colls && sess.rep.colls[s.db.colls[c].name] == s.db.colls[c].config
    {
      SettingsReplayed(s.db, s.db.log, raws, Ops(raws), sess, c);
      CarriedNotAhead(s, arrived, kept, c);
    }
    forall name | name in sess.rep.colls ensures exists c :: c in s.db.colls && s.db.colls[c].name == name {
      assert NamesOne(s.db, s.db.log, name);
    }
  }

  lemma NothingWritten(s: Site, arrived: seq<Message>, kept: seq<Message>)
    requires BackupInv(s) && Arrives(s, arrived, kept) && s.messages == [] && Pending(s.db.log, s.cursor) == []
    ensures kept == [] && s.db.colls == map[]
  {
    if kept != [] { Restore.HasMember(kept); }
    NothingPendingCoversAll(s);
    forall c ensures c !in s.db.colls { assert c in s.db.colls ==> Mentions(s.db.log, c); }
  }

  /** With nothing pending, a restore into an empty target gives the source's collections, all of them and
      no others, each with its rules and validator. */
  lemma DrainedRestoreKeepsSettings(s: Site, arrived: seq<Message>, kept: seq<Message>, rep: Replica)
    requires BackupInv(s) && Arrives(s, arrived, kept) && Pending(s.db.log, s.cursor) == []
    requires RestoreInto(EMPTY_REPLICA, kept) == Success(rep)
    ensures SameSettings(s.db, rep.colls)
  {
    if s.messages == [] {
      NothingWritten(s, arrived, kept);
    } else {
      Gather(s, arrived, kept);
      NothingPendingCoversAll(s);
      var again, sess := FirstRestore(s.db, Covered(s), kept, SortedOperations(kept), Ops(SortedOperations(kept)));
      DrainedSettings(s, arrived, kept, sess);
    }
  }
}
