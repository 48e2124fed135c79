/** `JsonDbBackupWorker`: one round over the databases with pending operations, and how rounds drain
    the logs.  Every database is a `Site`; its position in `sites` is its id. */
module BackupWorker {
  import opened Prelude
  import opened Sorting
  import opened OperationLog
  import opened JsonRoutes
  import opened Backup

  /** What happens to one upload: delivered and acknowledged, not sent at all, or delivered while the
      worker fails before marking it. */
  datatype Outcome = Delivered | NotSent | Unacknowledged

  function PendingCount(s: Site): nat {
    |Pending(s.db.log, s.cursor)|
  }

  predicate HasPending(s: Site) {
    PendingCount(s) > 0
  }

  /** The id of the oldest pending operation of database `d`. */
  function OldestPending(sites: seq<Site>, d: nat): nat {
    if d < |sites| && HasPending(sites[d]) then Pending(sites[d].db.log, sites[d].cursor)[0].id else 0
  }

  function PendingSites(sites: seq<Site>): seq<nat> {
    if sites == [] then []
    else if HasPending(Last(sites)) then PendingSites(Front(sites)) + [|sites| - 1]
    else PendingSites(Front(sites))
  }

  /** The databases with something pending, oldest pending operation first. */
  function Ranked(sites: seq<Site>): seq<nat> {
    StableSort(PendingSites(sites), (a: nat, b: nat) => OldestPending(sites, a) <= OldestPending(sites, b))
  }

  /** `_databases_with_pending_operations`: the first `limit` of them. */
  function SelectedSites(sites: seq<Site>, limit: nat): seq<nat> {
    Take(Ranked(sites), limit)
  }

  function NextMessageId(s: Site): nat {
    if s.messages == [] then 1 else Last(s.messages).id + 1
  }

  /** What one turn of the round does with the segment it has built. */
  function TurnWith(s: Site, cut: Option<Segment>, outcome: Outcome): Site {
    match cut
    case None => s
    case Some(g) =>
      var m := Message(NextMessageId(s), s.owner, g);
      match outcome
      case NotSent => s
      case Unacknowledged => s.(messages := s.messages + [m])
      case Delivered =>
        s.(messages := s.messages + [m], marks := s.marks + [MarkOf(m)], cursor := Max(s.cursor, g.last))
  }

  function AfterTurn(s: Site, limit: nat, outcome: Outcome): Site {
    TurnWith(s, Cut(s.db, s.cursor, limit), outcome)
  }

  lemma {:induction false} PendingSitesAre(sites: seq<Site>, d: nat)
    ensures d in PendingSites(sites) <==> d < |sites| && HasPending(sites[d])
  {
    if sites != [] {
      var before := PendingSites(Front(sites));
      PendingSitesAre(Front(sites), d);
      var one: seq<nat> := [|sites| - 1];
      assert d in before + one <==> d in before || d == |sites| - 1;
      var has := HasPending(Last(sites));
      assert PendingSites(sites) == if has then before + one else before;
      if d < |sites| - 1 {
        assert sites[d] == Front(sites)[d];
        assert d in before <==> HasPending(sites[d]);
        assert d in PendingSites(sites) <==> d in before;
      } else if d == |sites| - 1 {
        assert d !in before;
        assert d in PendingSites(sites) <==> has;
      } else {
        assert d !in before;
        assert d !in PendingSites(sites);
      }
    }
  }

  lemma {:induction false} PendingSitesDistinct(sites: seq<Site>)
    ensures NoDuplicates(PendingSites(sites))
  {
    if sites != [] {
      var before := PendingSites(Front(sites));
      var one: seq<nat> := [|sites| - 1];
      PendingSitesDistinct(Front(sites));
      PendingSitesAre(Front(sites), |sites| - 1);
      assert PendingSites(sites) == if HasPending(Last(sites)) then before + one else before;
      assert Front(before + one) == before && Last(before + one) == |sites| - 1;
    }
  }

  lemma RankedMembers(sites: seq<Site>, d: nat)
    ensures d in Ranked(sites) <==> d < |sites| && HasPending(sites[d])
  {
    SortMembers(PendingSites(sites), (a: nat, b: nat) => OldestPending(sites, a) <= OldestPending(sites, b));
    PendingSitesAre(sites, d);
  }

  lemma RankedDistinct(sites: seq<Site>)
    ensures NoDuplicates(Ranked(sites)) && |Ranked(sites)| == |PendingSites(sites)|
  {
    var le := (a: nat, b: nat) => OldestPending(sites, a) <= OldestPending(sites, b);
    PendingSitesDistinct(sites);
    SortDistinct(PendingSites(sites), le);
    SortKeeps(PendingSites(sites), le);
  }

  lemma OldestIsOrder(sites: seq<Site>)
    ensures TotalPreorder((a: nat, b: nat) => OldestPending(sites, a) <= OldestPending(sites, b))
  {
  }

  lemma RankedAscends(sites: seq<Site>, i: nat, j: nat)
    requires i < j < |Ranked(sites)|
    ensures OldestPending(sites, Ranked(sites)[i]) <= OldestPending(sites, Ranked(sites)[j])
  {
    var le := (a: nat, b: nat) => OldestPending(sites, a) <= OldestPending(sites, b);
    OldestIsOrder(sites);
    SortSorts(PendingSites(sites), le);
    assert le(Ranked(sites)[i], Ranked(sites)[j]);
  }

  lemma TakeIsPrefix<T>(xs: seq<T>, n: nat)
    ensures |Take(xs, n)| == Min(n, |xs|) && Take(xs, n) == xs[..|Take(xs, n)|]
    ensures forall x | x in Take(xs, n) :: x in xs
  {
  }

  /** The selection picks distinct databases that have something pending, and all of them if they
      fit into the limit. */
  lemma SelectedAre(sites: seq<Site>, limit: nat)
    ensures forall i, j | 0 <= i < j < |SelectedSites(sites, limit)| ::
              SelectedSites(sites, limit)[i] != SelectedSites(sites, limit)[j]
    ensures forall d | d in SelectedSites(sites, limit) :: d < |sites| && HasPending(sites[d])
    ensures |PendingSites(sites)| <= limit ==>
              forall d | 0 <= d < |sites| && HasPending(sites[d]) :: d in SelectedSites(sites, limit)
  {
    var ranked, selected := Ranked(sites), SelectedSites(sites, limit);
    RankedDistinct(sites);
    TakeIsPrefix(ranked, limit);
    forall i, j | 0 <= i < j < |selected| ensures selected[i] != selected[j] { DistinctAt(ranked, i, j); }
    forall d | d in selected ensures d < |sites| && HasPending(sites[d]) { RankedMembers(sites, d); }
    forall d: nat | d < |sites| && HasPending(sites[d]) ensures d in ranked { RankedMembers(sites, d); }
  }

  lemma BehindPrefix<T>(xs: seq<T>, n: nat, x: T) returns (j: nat)
    requires n <= |xs| && x in xs && x !in xs[..n]
    ensures n <= j < |xs| && xs[j] == x
  {
    assert xs == xs[..n] + xs[n..];
    var k :| 0 <= k < |xs[n..]| && xs[n..][k] == x;
    j := n + k;
  }

  /** Whoever is left out is not older than anyone selected. */
  lemma LeftOutIsNewer(sites: seq<Site>, limit: nat, d: nat, e: nat)
    requires d in SelectedSites(sites, limit) && e !in SelectedSites(sites, limit)
    requires e < |sites| && HasPending(sites[e])
    ensures OldestPending(sites, d) <= OldestPending(sites, e)
  {
    var ranked, selected := Ranked(sites), SelectedSites(sites, limit);
    TakeIsPrefix(ranked, limit);
    RankedMembers(sites, e);
    var i :| 0 <= i < |selected| && selected[i] == d;
    var j := BehindPrefix(ranked, |selected|, e);
    RankedAscends(sites, i, j);
  }

  /** The selection is the oldest: at most `limit` databases, in the order of their oldest pending
      operations, and nobody who is left out has an older one. */
  lemma SelectedOldestFirst(sites: seq<Site>, limit: nat)
    ensures |SelectedSites(sites, limit)| == Min(limit, |PendingSites(sites)|)
    ensures forall i, j | 0 <= i < j < |SelectedSites(sites, limit)| ::
              OldestPending(sites, SelectedSites(sites, limit)[i])
              <= OldestPending(sites, SelectedSites(sites, limit)[j])
    ensures forall d, e | d in SelectedSites(sites, limit) && 0 <= e < |sites| && HasPending(sites[e])
                          && e !in SelectedSites(sites, limit) :: OldestPending(sites, d) <= OldestPending(sites, e)
  {
    var selected := SelectedSites(sites, limit);
    RankedDistinct(sites);
    TakeIsPrefix(Ranked(sites), limit);
    forall i, j | 0 <= i < j < |selected|
      ensures OldestPending(sites, selected[i]) <= OldestPending(sites, selected[j])
    {
      RankedAscends(sites, i, j);
    }
    forall d, e: nat | d in selected && e < |sites| && HasPending(sites[e]) && e !in selected
      ensures OldestPending(sites, d) <= OldestPending(sites, e)
    {
      LeftOutIsNewer(sites, limit, d, e);
    }
  }

  // ---------------------------------------------------------------- a turn follows the protocol

  lemma BuildStep(s: Site, g: Segment, limit: nat)
    requires BackupInv(s) && s.worker.Idle? && Cut(s.db, s.cursor, limit) == Some(g)
    ensures BackupInv(s.(worker := Built(g)))
  {
    NextKeepsInv(s, s.(worker := Built(g)), Build(limit));
  }

  lemma UploadStep(s: Site, m: Message)
    requires BackupInv(s) && s.worker == Built(m.segment) && m.id == NextMessageId(s) && m.owner == s.owner
    ensures BackupInv(s.(messages := s.messages + [m], worker := Sent(m)))
  {
    NextKeepsInv(s, s.(messages := s.messages + [m], worker := Sent(m)), Upload(m.id));
  }

  lemma CrashStep(s: Site)
    requires BackupInv(s)
    ensures BackupInv(s.(worker := Idle))
  {
    NextKeepsInv(s, s.(worker := Idle), Crash);
  }

  lemma MarkStep(s: Site, m: Message)
    requires BackupInv(s) && s.worker == Sent(m)
    ensures BackupInv(s.(marks := s.marks + [MarkOf(m)], cursor := Max(s.cursor, m.segment.last), worker := Idle))
    ensures !Marked(s.marks, m.segment.first, m.segment.last)
  {
    CursorNeverGoesBack(s, s.(worker := Idle), Crash);
    var marked := s.(marks := s.marks + [MarkOf(m)], cursor := Max(s.cursor, m.segment.last), worker := Idle);
    NextKeepsInv(s, marked, MarkSent);
  }

  /** A turn is a run of protocol steps, so it keeps everything the protocol keeps. */
  lemma TurnFollowsProtocol(s: Site, limit: nat, outcome: Outcome)
    requires BackupInv(s) && s.worker.Idle?
    ensures BackupInv(AfterTurn(s, limit, outcome))
  {
    var cut := Cut(s.db, s.cursor, limit);
    if cut.Some? && !outcome.NotSent? {
      var m := Message(NextMessageId(s), s.owner, cut.value);
      var built := s.(worker := Built(cut.value));
      BuildStep(s, cut.value, limit);
      UploadStep(built, m);
      var sent := built.(messages := built.messages + [m], worker := Sent(m));
      if outcome.Delivered? {
        MarkStep(sent, m);
        assert AfterTurn(s, limit, outcome) ==
               sent.(marks := sent.marks + [MarkOf(m)], cursor := Max(sent.cursor, m.segment.last), worker := Idle);
      } else {
        CrashStep(sent);
        assert AfterTurn(s, limit, outcome) == sent.(worker := Idle);
      }
    }
  }

  /** Between turns: the protocol's invariant holds and the worker holds no segment of this database. */
  ghost predicate Sound(s: Site) {
    BackupInv(s) && s.worker.Idle?
  }

  ghost predicate SoundAt(sites: seq<Site>, d: nat)
    requires d < |sites|
  {
    Sound(sites[d])
  }

  ghost predicate AllSound(sites: seq<Site>) {
    forall d | 0 <= d < |sites| :: SoundAt(sites, d)
  }

  /** The range that a turn is about to mark is not marked yet. */
  lemma NeverMarkedTwice(s: Site, limit: nat, g: Segment)
    requires Sound(s) && Cut(s.db, s.cursor, limit) == Some(g)
    ensures !Marked(s.marks, g.first, g.last)
  {
    var m := Message(NextMessageId(s), s.owner, g);
    var built := s.(worker := Built(g));
    BuildStep(s, g, limit);
    UploadStep(built, m);
    MarkStep(built.(messages := built.messages + [m], worker := Sent(m)), m);
  }

  /** The part of the invariant that counting needs. */
  predicate Countable(s: Site) {
    Ascending(s.db.log) && CursorAligned(s)
  }

  lemma PendingLength(log: seq<Operation>, cursor: nat)
    requires Ascending(log)
    ensures Passed(log, cursor) <= |log| && |Pending(log, cursor)| == |log| - Passed(log, cursor)
  {
    PendingIsSuffix(log, cursor);
  }

  lemma SliceClears(log: seq<Operation>, cursor: nat, limit: nat, g: Segment)
    requires Ascending(log) && Passed(log, cursor) <= |log| && cursor == HighestId(log[..Passed(log, cursor)])
    requires SliceAt(log, g, Passed(log, cursor)) && |g.ops| == Min(limit, |log| - Passed(log, cursor))
    ensures cursor < g.last && Passed(log, g.last) <= |log| && g.last == HighestId(log[..Passed(log, g.last)])
    ensures |Pending(log, g.last)| == Max(0, |Pending(log, cursor)| - limit)
  {
    CursorAdvances(log, cursor, g);
    PendingLength(log, cursor);
    PendingLength(log, g.last);
  }

  lemma TurnWithClears(s: Site, cut: Option<Segment>, limit: nat)
    requires Countable(s)
    requires match cut
             case None => PendingCount(s) == Max(0, PendingCount(s) - limit)
             case Some(g) =>
               SliceAt(s.db.log, g, CursorPosition(s)) && |g.ops| == Min(limit, |s.db.log| - CursorPosition(s))
    ensures Countable(TurnWith(s, cut, Delivered)) && TurnWith(s, cut, Delivered).db == s.db
    ensures PendingCount(TurnWith(s, cut, Delivered)) == Max(0, PendingCount(s) - limit)
  {
    if cut.Some? { SliceClears(s.db.log, s.cursor, limit, cut.value); }
  }

  /** A delivered turn clears exactly `limit` pending operations, or all of them if there are fewer. */
  lemma TurnClears(s: Site, limit: nat)
    requires Countable(s)
    ensures Countable(AfterTurn(s, limit, Delivered)) && AfterTurn(s, limit, Delivered).db == s.db
    ensures PendingCount(AfterTurn(s, limit, Delivered)) == Max(0, PendingCount(s) - limit)
  {
    var cut := Cut(s.db, s.cursor, limit);
    if cut.Some? { CutIsSlice(s.db, s.cursor, limit, cut.value); }
    TurnWithClears(s, cut, limit);
  }

  // ---------------------------------------------------------------- rounds

  /** One delivered turn for every chosen database. */
  function Turns(sites: seq<Site>, chosen: seq<nat>, limit: nat): seq<Site> {
    if sites == [] then []
    else Turns(Front(sites), chosen, limit) +
         [if |sites| - 1 in chosen then AfterTurn(Last(sites), limit, Delivered) else Last(sites)]
  }

  /** A round in which every upload is delivered. */
  function Round(sites: seq<Site>, limit: nat): seq<Site> {
    Turns(sites, SelectedSites(sites, limit), limit)
  }

  lemma {:induction false} TurnsAt(sites: seq<Site>, chosen: seq<nat>, limit: nat, d: nat)
    requires d < |sites|
    ensures |Turns(sites, chosen, limit)| == |sites|
    ensures Turns(sites, chosen, limit)[d] ==
            if d in chosen then AfterTurn(sites[d], limit, Delivered) else sites[d]
  {
    if d < |sites| - 1 {
      TurnsAt(Front(sites), chosen, limit, d);
    } else if |sites| > 1 {
      TurnsAt(Front(sites), chosen, limit, 0);
    }
  }

  lemma RoundByTurns(was: seq<Site>, now: seq<Site>, selected: seq<nat>, limit: nat)
    requires |now| == |was|
    requires forall d | 0 <= d < |was| && d !in selected :: now[d] == was[d]
    requires forall i | 0 <= i < |selected| && selected[i] < |was| ::
               now[selected[i]] == AfterTurn(was[selected[i]], limit, Delivered)
    ensures now == Turns(was, selected, limit)
  {
    if was == [] {
      assert Turns(was, selected, limit) == [];
    } else {
      TurnsAt(was, selected, limit, 0);
      forall d | 0 <= d < |was| ensures now[d] == Turns(was, selected, limit)[d] {
        TurnsAt(was, selected, limit, d);
        if d in selected {
          var i :| 0 <= i < |selected| && selected[i] == d;
        }
      }
    }
  }

  lemma IdleTurn(s: Site, limit: nat)
    requires !HasPending(s)
    ensures AfterTurn(s, limit, Delivered) == s
  {
  }

  /** When all pending databases fit into the limit, a round is a turn for every database. */
  lemma RoundIsTurn(sites: seq<Site>, next: seq<Site>, limit: nat, d: nat)
    requires next == Round(sites, limit) && |PendingSites(sites)| <= limit && d < |sites|
    ensures |next| == |sites| && next[d] == AfterTurn(sites[d], limit, Delivered)
  {
    SelectedAre(sites, limit);
    TurnsAt(sites, SelectedSites(sites, limit), limit, d);
    if !HasPending(sites[d]) { IdleTurn(sites[d], limit); }
  }

  lemma {:induction false} FewerPending(before: seq<Site>, after: seq<Site>)
    requires |before| == |after|
    requires forall d | 0 <= d < |before| && HasPending(after[d]) :: HasPending(before[d])
    ensures |PendingSites(after)| <= |PendingSites(before)|
  {
    if before != [] {
      var n := |before| - 1;
      forall d | 0 <= d < n && HasPending(Front(after)[d]) ensures HasPending(Front(before)[d]) {
        assert Front(after)[d] == after[d] && Front(before)[d] == before[d];
      }
      FewerPending(Front(before), Front(after));
      assert HasPending(after[n]) ==> HasPending(before[n]);
    }
  }

  lemma RoundStillFits(sites: seq<Site>, limit: nat)
    requires |PendingSites(sites)| <= limit
    ensures |Round(sites, limit)| == |sites| && |PendingSites(Round(sites, limit))| <= limit
  {
    var after := Round(sites, limit);
    if sites != [] { RoundIsTurn(sites, after, limit, 0); }
    forall d | 0 <= d < |sites| && HasPending(after[d]) ensures HasPending(sites[d]) {
      RoundIsTurn(sites, after, limit, d);
      if !HasPending(sites[d]) { IdleTurn(sites[d], limit); }
    }
    FewerPending(sites, after);
  }

  /** Successive rounds in which every upload is delivered and nobody writes. */
  predicate RunOfRounds(run: seq<seq<Site>>, limit: nat) {
    forall i | 0 < i < |run| :: RoundAt(run, limit, i)
  }

  predicate RoundAt(run: seq<seq<Site>>, limit: nat, i: nat)
    requires 0 < i < |run|
  {
    run[i] == Round(run[i - 1], limit)
  }

  /** A round in which all pending databases fit takes a batch off every backlog. */
  lemma RoundClears(before: seq<Site>, after: seq<Site>, limit: nat, d: nat)
    requires after == Round(before, limit) && |PendingSites(before)| <= limit && d < |before| && Countable(before[d])
    ensures |after| == |before| && |PendingSites(after)| <= limit
    ensures Countable(after[d]) && after[d].db == before[d].db
    ensures PendingCount(after[d]) == Max(0, PendingCount(before[d]) - limit)
  {
    RoundStillFits(before, limit);
    RoundIsTurn(before, after, limit, d);
    TurnClears(before[d], limit);
  }

  lemma ClearsAdd(start: nat, before: nat, after: nat, limit: nat, k: nat)
    requires k > 0 && before == Max(0, start - (k - 1) * limit) && after == Max(0, before - limit)
    ensures after == Max(0, start - k * limit)
  {
    assert (k - 1) * limit + limit == k * limit;
  }

  lemma {:induction false} RoundsClear(run: seq<seq<Site>>, limit: nat, k: nat, d: nat)
    requires RunOfRounds(run, limit) && k < |run| && |PendingSites(run[0])| <= limit
    requires d < |run[0]| && Countable(run[0][d])
    ensures |run[k]| == |run[0]| && |PendingSites(run[k])| <= limit
    ensures Countable(run[k][d]) && run[k][d].db == run[0][d].db
    ensures PendingCount(run[k][d]) == Max(0, PendingCount(run[0][d]) - k * limit)
  {
    if k > 0 {
      assert RoundAt(run, limit, k);
      RoundsClear(run, limit, k - 1, d);
      RoundClears(run[k - 1], run[k], limit, d);
      ClearsAdd(PendingCount(run[0][d]), PendingCount(run[k - 1][d]), PendingCount(run[k][d]), limit, k);
    }
  }

  /** DRAINING.  While at most `limit` databases are pending and nothing is written, `k` successful
      rounds take `k * limit` operations off every reachable database's backlog; so a backlog of `n`
      is gone after exactly the first `k` with `n <= k * limit`. */
  lemma RoundsDrain(run: seq<seq<Site>>, limit: nat, k: nat, d: nat)
    requires RunOfRounds(run, limit) && k < |run| && |PendingSites(run[0])| <= limit
    requires d < |run[0]| && BackupInv(run[0][d])
    ensures |run[k]| == |run[0]| && run[k][d].db == run[0][d].db
    ensures PendingCount(run[k][d]) == Max(0, PendingCount(run[0][d]) - k * limit)
  {
    RoundsClear(run, limit, k, d);
  }

  // ---------------------------------------------------------------- more pending databases than the limit

  /** How many delivered turns a backlog of `n` needs: `n / limit`, rounded up. */
  function TurnsFor(n: nat, limit: nat): nat
    requires limit > 0
    decreases n
  {
    if n == 0 then 0 else 1 + TurnsFor(Max(0, n - limit), limit)
  }

  /** The turns that all backlogs together need. */
  function Work(sites: seq<Site>, limit: nat): nat
    requires limit > 0
  {
    if sites == [] then 0 else Work(Front(sites), limit) + TurnsFor(PendingCount(Last(sites)), limit)
  }

  /** How many of the chosen databases have something pending. */
  function Busy(sites: seq<Site>, chosen: seq<nat>): nat {
    if sites == [] then 0
    else Busy(Front(sites), chosen) + if |sites| - 1 in chosen && HasPending(Last(sites)) then 1 else 0
  }

  predicate AllCountable(sites: seq<Site>) {
    sites == [] || (AllCountable(Front(sites)) && Countable(Last(sites)))
  }

  lemma {:induction false} TurnsDoWork(sites: seq<Site>, chosen: seq<nat>, limit: nat)
    requires limit > 0 && AllCountable(sites)
    ensures AllCountable(Turns(sites, chosen, limit))
    ensures Work(Turns(sites, chosen, limit), limit) == Work(sites, limit) - Busy(sites, chosen)
  {
    if sites != [] {
      TurnsDoWork(Front(sites), chosen, limit);
      if |sites| - 1 in chosen {
        TurnWorks(Last(sites), AfterTurn(Last(sites), limit, Delivered), limit);
        WorkAdds(Turns(Front(sites), chosen, limit), AfterTurn(Last(sites), limit, Delivered), limit);
      } else {
        WorkAdds(Turns(Front(sites), chosen, limit), Last(sites), limit);
      }
    }
  }

  lemma TurnWorks(s: Site, t: Site, limit: nat)
    requires limit > 0 && Countable(s) && t == AfterTurn(s, limit, Delivered)
    ensures Countable(t)
    ensures TurnsFor(PendingCount(t), limit) == TurnsFor(PendingCount(s), limit) - if HasPending(s) then 1 else 0
  {
    TurnClears(s, limit);
  }

  lemma WorkAdds(sites: seq<Site>, s: Site, limit: nat)
    requires limit > 0
    ensures Work(sites + [s], limit) == Work(sites, limit) + TurnsFor(PendingCount(s), limit)
    ensures AllCountable(sites + [s]) <==> AllCountable(sites) && Countable(s)
  {
    assert Front(sites + [s]) == sites && Last(sites + [s]) == s;
  }

  lemma {:induction false} BusyAdd(sites: seq<Site>, chosen: seq<nat>, d: nat)
    requires d !in chosen
    ensures Busy(sites, chosen + [d]) == Busy(sites, chosen) + if d < |sites| && HasPending(sites[d]) then 1 else 0
  {
    if sites != [] {
      BusyAdd(Front(sites), chosen, d);
      var n := |sites| - 1;
      assert n in chosen + [d] <==> n in chosen || n == d;
    }
  }

  lemma {:induction false} NoneBusy(sites: seq<Site>)
    ensures Busy(sites, []) == 0
  {
    if sites != [] { NoneBusy(Front(sites)); }
  }

  lemma {:induction false} AllBusy(sites: seq<Site>, chosen: seq<nat>)
    requires NoDuplicates(chosen) && forall d | d in chosen :: d < |sites| && HasPending(sites[d])
    ensures Busy(sites, chosen) == |chosen|
  {
    if chosen == [] {
      NoneBusy(sites);
    } else {
      assert chosen == Front(chosen) + [Last(chosen)];
      AllBusy(sites, Front(chosen));
      BusyAdd(sites, Front(chosen), Last(chosen));
    }
  }

  lemma {:induction false} PrefixDistinct<T>(xs: seq<T>, n: nat)
    requires NoDuplicates(xs) && n <= |xs|
    ensures NoDuplicates(xs[..n])
  {
    if n < |xs| {
      PrefixDistinct(Front(xs), n);
      assert Front(xs)[..n] == xs[..n];
    } else {
      assert xs[..n] == xs;
    }
  }

  /** Every selected database is busy. */
  lemma SelectedAreBusy(sites: seq<Site>, limit: nat)
    ensures Busy(sites, SelectedSites(sites, limit)) == Min(limit, |PendingSites(sites)|)
  {
    SelectionIsChoice(sites, limit);
    SelectedOldestFirst(sites, limit);
    AllBusy(sites, SelectedSites(sites, limit));
  }

  lemma {:induction false} NoWorkNothingPending(sites: seq<Site>, limit: nat)
    requires limit > 0
    ensures Work(sites, limit) == 0 <==> |PendingSites(sites)| == 0
  {
    if sites != [] { NoWorkNothingPending(Front(sites), limit); }
  }

  /** A delivered round does one turn's work for each of the `limit` oldest databases, so it makes progress
      while there is any. */
  lemma RoundDoesWork(before: seq<Site>, after: seq<Site>, limit: nat)
    requires limit > 0 && AllCountable(before) && after == Round(before, limit)
    ensures AllCountable(after)
    ensures Work(after, limit) == Work(before, limit) - Min(limit, |PendingSites(before)|)
  {
    TurnsDoWork(before, SelectedSites(before, limit), limit);
    SelectedAreBusy(before, limit);
  }

  lemma Progress(before: nat, after: nat, limit: nat, pending: nat, start: nat, k: nat)
    requires limit > 0 && k > 0 && after == before - Min(limit, pending) && (before == 0 <==> pending == 0)
    requires before <= Max(0, start - (k - 1))
    ensures after <= Max(0, start - k)
  {
  }

  lemma RoundProgresses(before: seq<Site>, after: seq<Site>, limit: nat, start: nat, k: nat)
    requires limit > 0 && k > 0 && AllCountable(before) && after == Round(before, limit)
    requires Work(before, limit) <= Max(0, start - (k - 1))
    ensures AllCountable(after) && Work(after, limit) <= Max(0, start - k)
  {
    RoundDoesWork(before, after, limit);
    NoWorkNothingPending(before, limit);
    Progress(Work(before, limit), Work(after, limit), limit, |PendingSites(before)|, start, k);
  }

  lemma {:induction false} WorkFalls(run: seq<seq<Site>>, limit: nat, start: nat, k: nat)
    requires RunOfRounds(run, limit) && k < |run| && limit > 0
    requires AllCountable(run[0]) && Work(run[0], limit) == start
    ensures AllCountable(run[k]) && Work(run[k], limit) <= Max(0, start - k)
  {
    if k > 0 {
      assert RoundAt(run, limit, k);
      WorkFalls(run, limit, start, k - 1);
      RoundProgresses(run[k - 1], run[k], limit, start, k);
    }
  }

  /** EVERY BACKLOG DRAINS, however many databases are pending: if nothing is written and every upload is
      delivered, then after as many rounds as the backlogs need turns, nothing is pending anywhere. */
  lemma EveryBacklogDrains(run: seq<seq<Site>>, limit: nat, k: nat)
    requires RunOfRounds(run, limit) && k < |run| && limit > 0 && AllCountable(run[0])
    requires Work(run[0], limit) <= k
    ensures PendingSites(run[k]) == []
  {
    WorkFalls(run, limit, Work(run[0], limit), k);
    NoWorkNothingPending(run[k], limit);
  }

  // ---------------------------------------------------------------- the worker

  class Worker {
    var sites: seq<Site>

    constructor (sites: seq<Site>)
      ensures this.sites == sites
    {
      this.sites := sites;
    }

    /** `_build_segment_file`: the operations are appended one by one with their collection. */
    method BuildSegment(d: nat, limit: nat) returns (segment: Option<Segment>)
      requires d < |sites|
      ensures segment == Cut(sites[d].db, sites[d].cursor, limit)
    {
      var s := sites[d];
      var rows := Take(Pending(s.db.log, s.cursor), limit);
      if rows == [] { return None; }
      var operations: seq<Carried> := [];
      for n := 0 to |rows|
        invariant operations == Carry(s.db.colls, rows[..n])
      {
        assert Front(rows[..n + 1]) == rows[..n];
        operations := operations + [Carried(rows[n], SnapshotOf(s.db.colls, rows[n].coll))];
      }
      assert rows[..|rows|] == rows;
      return Some(Segment(rows[0].id, rows[|rows| - 1].id, operations));
    }

    /** `_mark_segment_uploaded`: the unique constraint on (database, first, last) rolls a second record
        of the same range back. */
    method MarkUploaded(d: nat, m: Message) returns (ok: bool)
      requires d < |sites|
      modifies this
      ensures ok <==> !Marked(old(sites)[d].marks, m.segment.first, m.segment.last)
      ensures sites == if !ok then old(sites) else old(sites)[d := old(sites)[d].(
                marks := old(sites)[d].marks + [MarkOf(m)], cursor := Max(old(sites)[d].cursor, m.segment.last))]
    {
      var s := sites[d];
      if Marked(s.marks, m.segment.first, m.segment.last) { return false; }
      s := s.(marks := s.marks + [Mark(m.segment.first, m.segment.last, |m.segment.ops|, m.id)]);
      if s.cursor < m.segment.last { s := s.(cursor := m.segment.last); }
      sites := sites[d := s];
      return true;
    }

    /** The body of the round for one database: build, upload, mark. */
    method TakeTurn(d: nat, limit: nat, outcome: Outcome) returns (delivered: bool)
      requires d < |sites| && HasPending(sites[d]) && limit > 0 && Sound(sites[d])
      modifies this
      ensures sites == old(sites)[d := AfterTurn(old(sites)[d], limit, outcome)]
      ensures delivered <==> outcome.Delivered?
    {
      var segment := BuildSegment(d, limit);
      if outcome.NotSent? { return false; }
      var m := Message(NextMessageId(sites[d]), sites[d].owner, segment.value);
      NeverMarkedTwice(sites[d], limit, segment.value);
      sites := sites[d := sites[d].(messages := sites[d].messages + [m])];
      if outcome.Unacknowledged? { return false; }
      delivered := MarkUploaded(d, m);
    }

    /** The loop body: the turn of the `n`-th chosen database. */
    method NextTurn(chosen: seq<nat>, limit: nat, outcomes: seq<Outcome>, n: nat, ghost was: seq<Site>)
      returns (delivered: bool)
      requires n < |chosen| && limit > 0 && Choice(was, chosen) && AllSound(was)
      requires TurnsTaken(was, sites, chosen, limit, outcomes, n)
      modifies this
      ensures TurnsTaken(was, sites, chosen, limit, outcomes, n + 1)
      ensures delivered <==> outcomes[n].Delivered?
    {
      ReadyForTurn(was, sites, chosen, limit, outcomes, n);
      delivered := TakeTurn(chosen[n], limit, outcomes[n]);
    }

    /** The loop over the chosen databases. */
    method TakeTurns(chosen: seq<nat>, limit: nat, outcomes: seq<Outcome>) returns (uploaded: nat, failed: bool)
      requires |chosen| <= |outcomes| && |chosen| <= limit && Choice(sites, chosen) && AllSound(sites)
      modifies this
      ensures uploaded <= |chosen| && (failed <==> uploaded < |chosen|)
      ensures TurnsTaken(old(sites), sites, chosen, limit, outcomes, if failed then uploaded + 1 else uploaded)
      ensures (forall i | 0 <= i < uploaded :: outcomes[i].Delivered?) && (failed ==> !outcomes[uploaded].Delivered?)
    {
      ghost var was := sites;
      uploaded, failed := 0, false;
      while uploaded < |chosen|
        invariant uploaded <= |chosen| && !failed
        invariant TurnsTaken(was, sites, chosen, limit, outcomes, uploaded)
        invariant forall i | 0 <= i < uploaded :: outcomes[i].Delivered?
      {
        var delivered := NextTurn(chosen, limit, outcomes, uploaded, was);
        if !delivered { return uploaded, true; }
        uploaded := uploaded + 1;
      }
    }

    /** `backup_once`: one turn for each selected database, in order.  The first upload that fails
        ends the round, with the sites before it done and the ones after it untouched. */
    method BackupOnce(limit: nat, outcomes: seq<Outcome>) returns (uploaded: nat, failed: bool)
      requires |SelectedSites(sites, limit)| <= |outcomes|
      requires AllSound(sites)
      modifies this
      ensures RoundEnded(old(sites), sites, limit, outcomes, uploaded, failed)
      ensures !failed ==> sites == Round(old(sites), limit)
      ensures AllSound(sites)
    {
      ghost var was := sites;
      var selected := SelectedSites(sites, limit);
      SelectionIsChoice(sites, limit);
      uploaded, failed := TakeTurns(selected, limit, outcomes);
      RoundEnds(was, sites, selected, limit, outcomes, uploaded, failed);
    }
  }

  /** What a round leaves: the selected databases before the first failure are done, the failed one is
      where its upload left it, everything else is untouched. */
  predicate RoundEnded(was: seq<Site>, now: seq<Site>, limit: nat, outcomes: seq<Outcome>, uploaded: nat,
                       failed: bool)
  {
    var selected := SelectedSites(was, limit);
    && |now| == |was| && uploaded <= |selected| <= |outcomes|
    && (failed <==> uploaded < |selected|) && (failed ==> !outcomes[uploaded].Delivered?)
    && (forall d | 0 <= d < |now| && d !in selected :: now[d] == was[d])
    && forall i | 0 <= i < |selected| && selected[i] < |was| ::
         now[selected[i]] ==
           if i < uploaded then AfterTurn(was[selected[i]], limit, Delivered)
           else if i == uploaded then AfterTurn(was[selected[i]], limit, outcomes[i])
           else was[selected[i]]
  }

  /** The first `n` chosen databases take their turns, each with its own outcome. */
  function AfterTurns(sites: seq<Site>, chosen: seq<nat>, outcomes: seq<Outcome>, limit: nat, n: nat): seq<Site>
    requires n <= |chosen| && n <= |outcomes|
  {
    if n == 0 then sites
    else
      var before := AfterTurns(sites, chosen, outcomes, limit, n - 1);
      var d := chosen[n - 1];
      if d < |before| then before[d := AfterTurn(before[d], limit, outcomes[n - 1])] else before
  }

  predicate TurnsTaken(was: seq<Site>, now: seq<Site>, chosen: seq<nat>, limit: nat, outcomes: seq<Outcome>, n: nat) {
    n <= |chosen| <= |outcomes| && now == AfterTurns(was, chosen, outcomes, limit, n)
  }

  /** Distinct databases that have something pending. */
  predicate Choice(sites: seq<Site>, chosen: seq<nat>) {
    NoDuplicates(chosen) && forall d | d in chosen :: d < |sites| && HasPending(sites[d])
  }

  /** Turns of other databases leave a database alone. */
  lemma {:induction false} AfterTurnsKeep(
      sites: seq<Site>, chosen: seq<nat>, outcomes: seq<Outcome>, limit: nat, m: nat, n: nat, d: nat)
    requires m <= n <= |chosen| && n <= |outcomes| && d < |sites| && forall a | m <= a < n :: chosen[a] != d
    ensures |AfterTurns(sites, chosen, outcomes, limit, m)| == |sites|
    ensures |AfterTurns(sites, chosen, outcomes, limit, n)| == |sites|
    ensures AfterTurns(sites, chosen, outcomes, limit, n)[d] == AfterTurns(sites, chosen, outcomes, limit, m)[d]
  {
    AfterTurnsLength(sites, chosen, outcomes, limit, n);
    if m < n {
      AfterTurnsKeep(sites, chosen, outcomes, limit, m, n - 1, d);
    }
  }

  /** A database that has not been chosen so far is as it was. */
  lemma AfterTurnsElsewhere(
      sites: seq<Site>, chosen: seq<nat>, outcomes: seq<Outcome>, limit: nat, n: nat, d: nat)
    requires n <= |chosen| && n <= |outcomes| && d < |sites| && forall a | 0 <= a < n :: chosen[a] != d
    ensures |AfterTurns(sites, chosen, outcomes, limit, n)| == |sites|
    ensures AfterTurns(sites, chosen, outcomes, limit, n)[d] == sites[d]
  {
    AfterTurnsKeep(sites, chosen, outcomes, limit, 0, n, d);
  }

  /** A chosen database has taken its turn. */
  lemma AfterTurnsDone(
      sites: seq<Site>, chosen: seq<nat>, outcomes: seq<Outcome>, limit: nat, n: nat, i: nat)
    requires i < n <= |chosen| && n <= |outcomes| && chosen[i] < |sites| && NoDuplicates(chosen)
    ensures |AfterTurns(sites, chosen, outcomes, limit, n)| == |sites|
    ensures AfterTurns(sites, chosen, outcomes, limit, n)[chosen[i]] == AfterTurn(sites[chosen[i]], limit, outcomes[i])
  {
    OwnTurn(sites, chosen, outcomes, limit, i);
    LaterTurns(sites, chosen, outcomes, limit, n, i);
  }

  lemma OwnTurn(sites: seq<Site>, chosen: seq<nat>, outcomes: seq<Outcome>, limit: nat, i: nat)
    requires i < |chosen| && i < |outcomes| && chosen[i] < |sites| && NoDuplicates(chosen)
    ensures |AfterTurns(sites, chosen, outcomes, limit, i + 1)| == |sites|
    ensures AfterTurns(sites, chosen, outcomes, limit, i + 1)[chosen[i]] ==
            AfterTurn(sites[chosen[i]], limit, outcomes[i])
  {
    OthersDiffer(chosen, i);
    AfterTurnsElsewhere(sites, chosen, outcomes, limit, i, chosen[i]);
    OneTurn(sites, chosen, outcomes, limit, i);
  }

  lemma LaterTurns(sites: seq<Site>, chosen: seq<nat>, outcomes: seq<Outcome>, limit: nat, n: nat, i: nat)
    requires i < n <= |chosen| && n <= |outcomes| && chosen[i] < |sites| && NoDuplicates(chosen)
    ensures |AfterTurns(sites, chosen, outcomes, limit, i + 1)| == |sites|
    ensures |AfterTurns(sites, chosen, outcomes, limit, n)| == |sites|
    ensures AfterTurns(sites, chosen, outcomes, limit, n)[chosen[i]] ==
            AfterTurns(sites, chosen, outcomes, limit, i + 1)[chosen[i]]
  {
    OthersDiffer(chosen, i);
    AfterTurnsKeep(sites, chosen, outcomes, limit, i + 1, n, chosen[i]);
  }

  lemma OthersDiffer(chosen: seq<nat>, i: nat)
    requires NoDuplicates(chosen) && i < |chosen|
    ensures forall a | 0 <= a < |chosen| && a != i :: chosen[a] != chosen[i]
  {
    forall a | 0 <= a < |chosen| && a != i ensures chosen[a] != chosen[i] {
      if a < i { DistinctAt(chosen, a, i); } else { DistinctAt(chosen, i, a); }
    }
  }

  lemma OneTurn(sites: seq<Site>, chosen: seq<nat>, outcomes: seq<Outcome>, limit: nat, i: nat)
    requires i < |chosen| && i < |outcomes|
    ensures
      var before := AfterTurns(sites, chosen, outcomes, limit, i);
      var after := AfterTurns(sites, chosen, outcomes, limit, i + 1);
      && |after| == |before|
      && (chosen[i] < |before| ==> after[chosen[i]] == AfterTurn(before[chosen[i]], limit, outcomes[i]))
  {
  }

  lemma {:induction false} AfterTurnsLength(sites: seq<Site>, chosen: seq<nat>, outcomes: seq<Outcome>, limit: nat,
                                            n: nat)
    requires n <= |chosen| && n <= |outcomes|
    ensures |AfterTurns(sites, chosen, outcomes, limit, n)| == |sites|
  {
    if n > 0 { AfterTurnsLength(sites, chosen, outcomes, limit, n - 1); }
  }

  /** The next chosen database is as it was, has something pending, and is sound. */
  lemma ReadyForTurn(was: seq<Site>, now: seq<Site>, chosen: seq<nat>, limit: nat, outcomes: seq<Outcome>, n: nat)
    requires n < |chosen| && Choice(was, chosen) && AllSound(was) && TurnsTaken(was, now, chosen, limit, outcomes, n)
    ensures chosen[n] < |was| == |now| && now[chosen[n]] == was[chosen[n]]
    ensures HasPending(was[chosen[n]]) && Sound(was[chosen[n]])
  {
    assert chosen[n] in chosen;
    forall a | 0 <= a < n ensures chosen[a] != chosen[n] { DistinctAt(chosen, a, n); }
    AfterTurnsElsewhere(was, chosen, outcomes, limit, n, chosen[n]);
    assert SoundAt(was, chosen[n]);
  }

  lemma SelectionIsChoice(sites: seq<Site>, limit: nat)
    ensures Choice(sites, SelectedSites(sites, limit))
    ensures |SelectedSites(sites, limit)| <= limit
  {
    RankedDistinct(sites);
    TakeIsPrefix(Ranked(sites), limit);
    PrefixDistinct(Ranked(sites), |SelectedSites(sites, limit)|);
    SelectedAre(sites, limit);
  }

  /** The turns taken, read site by site. */
  lemma TurnsEnd(was: seq<Site>, now: seq<Site>, chosen: seq<nat>, limit: nat, outcomes: seq<Outcome>, n: nat)
    requires Choice(was, chosen) && TurnsTaken(was, now, chosen, limit, outcomes, n)
    ensures |now| == |was|
    ensures forall d | 0 <= d < |was| && d !in chosen :: now[d] == was[d]
    ensures forall i | 0 <= i < |chosen| && chosen[i] < |was| ::
              now[chosen[i]] == if i < n then AfterTurn(was[chosen[i]], limit, outcomes[i]) else was[chosen[i]]
  {
    AfterTurnsLength(was, chosen, outcomes, limit, n);
    forall d | 0 <= d < |was| && d !in chosen ensures now[d] == was[d] {
      assert forall a | 0 <= a < n :: chosen[a] in chosen;
      AfterTurnsElsewhere(was, chosen, outcomes, limit, n, d);
    }
    forall i | 0 <= i < |chosen| && chosen[i] < |was|
      ensures now[chosen[i]] == if i < n then AfterTurn(was[chosen[i]], limit, outcomes[i]) else was[chosen[i]]
    {
      if i < n {
        AfterTurnsDone(was, chosen, outcomes, limit, n, i);
      } else {
        forall a | 0 <= a < n ensures chosen[a] != chosen[i] { DistinctAt(chosen, a, i); }
        AfterTurnsElsewhere(was, chosen, outcomes, limit, n, chosen[i]);
      }
    }
  }

  lemma RoundEnds(was: seq<Site>, now: seq<Site>, selected: seq<nat>, limit: nat, outcomes: seq<Outcome>,
                  uploaded: nat, failed: bool)
    requires selected == SelectedSites(was, limit) && uploaded <= |selected| <= |outcomes| && AllSound(was)
    requires failed <==> uploaded < |selected|
    requires failed ==> !outcomes[uploaded].Delivered?
    requires forall i | 0 <= i < uploaded :: outcomes[i].Delivered?
    requires TurnsTaken(was, now, selected, limit, outcomes, if failed then uploaded + 1 else uploaded)
    ensures RoundEnded(was, now, limit, outcomes, uploaded, failed) && AllSound(now)
    ensures !failed ==> now == Round(was, limit)
  {
    SelectionIsChoice(was, limit);
    TurnsEnd(was, now, selected, limit, outcomes, if failed then uploaded + 1 else uploaded);
    RoundStaysSound(was, now, limit, outcomes, uploaded, failed);
    if !failed { RoundByTurns(was, now, selected, limit); }
  }

  /** Whatever the uploads do, every database is left where the protocol can be. */
  lemma RoundStaysSound(was: seq<Site>, now: seq<Site>, limit: nat, outcomes: seq<Outcome>, uploaded: nat, failed: bool)
    requires RoundEnded(was, now, limit, outcomes, uploaded, failed) && AllSound(was)
    ensures AllSound(now)
  {
    forall d | 0 <= d < |now| ensures SoundAt(now, d) {
      SiteStaysSound(was, now, limit, outcomes, uploaded, failed, d);
    }
  }

  lemma SiteStaysSound(was: seq<Site>, now: seq<Site>, limit: nat, outcomes: seq<Outcome>, uploaded: nat,
                       failed: bool, d: nat)
    requires RoundEnded(was, now, limit, outcomes, uploaded, failed) && AllSound(was) && d < |now|
    ensures Sound(now[d])
  {
    var selected := SelectedSites(was, limit);
    assert SoundAt(was, d);
    TurnStaysSound(was[d], limit, Delivered);
    if d in selected {
      var i :| 0 <= i < |selected| && selected[i] == d;
      if i == uploaded { TurnStaysSound(was[d], limit, outcomes[i]); }
    }
  }

  lemma TurnStaysSound(s: Site, limit: nat, outcome: Outcome)
    requires Sound(s)
    ensures Sound(AfterTurn(s, limit, outcome))
  {
    TurnFollowsProtocol(s, limit, outcome);
  }
}
