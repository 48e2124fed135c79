/** The cached routes await between their steps: a read looks the key up, computes its answer, and files it;
    a write commits, and invalidates.  Here other requests run in between, so a read can file an answer that
    was computed before a write and file it after that write's invalidation. */
module ReadsInFlight {
  import opened Prelude
  import opened Sorting
  import opened OperationLog
  import opened JsonRoutes
  import opened CacheKeys
  import opened TtlCache
  import opened CachedReads

  // ---------------------------------------------------------------- the steps

  /** A read that missed: it has yet to compute its answer, or to file it. */
  datatype Flight = Asked(read: Read) | Computed(read: Read, answer: Body)

  /** A committed write that has yet to invalidate, with the database as it left it. */
  datatype Due = Due(request: Request, after: Db)

  datatype Scene = Scene(db: Db, entries: seq<Entry<Body>>, now: real, flights: seq<Flight>, due: seq<Due>)

  /** `n` names a flight, or a write that is due. */
  datatype Action =
    | Wait(seconds: real)
    | Look(read: Read)
    | Compute(n: nat)
    | File(n: nat, estimate: nat)
    | Cancel(n: nat)
    | CommitWrite(request: Request)
    | Invalidate(n: nat)
    | Lose(keep: Entry<Body> -> bool)

  function Removed<T>(xs: seq<T>, n: nat): seq<T>
    requires n < |xs|
  {
    xs[..n] + xs[n + 1..]
  }

  function EntryFor(env: Env, read: Read, answer: Body, estimate: nat, now: real): Entry<Body> {
    var key := Render(KeyOf(env, read));
    Entry(key, answer, now + TtlOf(env, read), estimate + |key|, Tag(KeyOf(env, read)))
  }

  /** Nothing is filed for no time. */
  function Filed(entries: seq<Entry<Body>>, env: Env, flight: Flight, estimate: nat, now: real): seq<Entry<Body>>
    requires flight.Computed?
  {
    if TtlOf(env, flight.read) <= 0.0 then entries
    else AfterSet(entries, EntryFor(env, flight.read, flight.answer, estimate, now), env.maxEntries, env.maxBytes)
  }

  ghost predicate Follows(v: Scene, w: Scene, a: Action, env: Env) {
    match a
    case Wait(seconds) => seconds >= 0.0 && w == v.(now := v.now + seconds)
    case Look(read) =>
      var key := Render(KeyOf(env, read));
      w == v.(entries := AfterGet(v.entries, key, v.now),
              flights := if Hit(v.entries, key, v.now).Some? then v.flights else v.flights + [Asked(read)])
    case Compute(n) =>
      && n < |v.flights| && v.flights[n].Asked?
      && var read := v.flights[n].read;
         w == v.(flights := match Uncached(v.db, read, env.str)
                            case None => Removed(v.flights, n)
                            case Some(answer) => v.flights[n := Computed(read, answer)])
    case File(n, estimate) =>
      && n < |v.flights| && v.flights[n].Computed?
      && w == v.(entries := Filed(v.entries, env, v.flights[n], estimate, v.now), flights := Removed(v.flights, n))
    case Cancel(n) =>
      n < |v.flights| && w == v.(flights := Removed(v.flights, n))
    case CommitWrite(request) =>
      && Steps(v.db, w.db, request)
      && w == v.(db := w.db, due := if ByKey(request) then v.due else v.due + [Due(request, w.db)])
    case Invalidate(n) =>
      && n < |v.due|
      && w == v.(entries := Invalidated(v.entries, v.due[n].after, v.due[n].request), due := Removed(v.due, n))
    case Lose(keep) => w == v.(entries := Filter(v.entries, keep))
  }

  ghost predicate FollowsAt(run: seq<Scene>, actions: seq<Action>, env: Env, k: nat)
    requires |run| == |actions| + 1 && k < |actions|
  {
    Follows(run[k], run[k + 1], actions[k], env)
  }

  ghost predicate Stretch(run: seq<Scene>, actions: seq<Action>, env: Env) {
    |run| == |actions| + 1 && forall k | 0 <= k < |actions| :: FollowsAt(run, actions, env, k)
  }

  ghost predicate Interleaving(run: seq<Scene>, actions: seq<Action>, env: Env) {
    Stretch(run, actions, env) && run[0].entries == [] && run[0].flights == [] && run[0].due == []
  }

  // ---------------------------------------------------------------- whole steps are interleavings

  function Whole(w: World): Scene {
    Scene(w.db, w.entries, w.now, [], [])
  }

  lemma StretchGrows(run: seq<Scene>, actions: seq<Action>, env: Env, w: Scene, a: Action)
    requires Stretch(run, actions, env) && Follows(Last(run), w, a, env)
    ensures Stretch(run + [w], actions + [a], env)
  {
    var longer, more := run + [w], actions + [a];
    forall k | 0 <= k < |more| ensures FollowsAt(longer, more, env, k) {
      if k < |actions| { assert FollowsAt(run, actions, env, k); }
    }
  }

  lemma OneAction(v: Scene, w: Scene, a: Action, env: Env) returns (run: seq<Scene>, actions: seq<Action>)
    requires Follows(v, w, a, env)
    ensures Stretch(run, actions, env) && run[0] == v && Last(run) == w
  {
    run, actions := [v, w], [a];
    assert FollowsAt(run, actions, env, 0);
  }

  lemma TwoActions(u: Scene, v: Scene, w: Scene, a: Action, b: Action, env: Env)
    returns (run: seq<Scene>, actions: seq<Action>)
    requires Follows(u, v, a, env) && Follows(v, w, b, env)
    ensures Stretch(run, actions, env) && run[0] == u && Last(run) == w
  {
    run, actions := OneAction(u, v, a, env);
    StretchGrows(run, actions, env, w, b);
    run, actions := run + [w], actions + [b];
  }

  /** The scene after `read` was looked up, with these flights. */
  function Looked(w: World, env: Env, read: Read, flights: seq<Flight>): Scene {
    Scene(w.db, AfterGet(w.entries, Render(KeyOf(env, read)), w.now), w.now, flights, [])
  }

  lemma LookMisses(w: World, env: Env, read: Read)
    requires Hit(w.entries, Render(KeyOf(env, read)), w.now).None?
    ensures Follows(Whole(w), Looked(w, env, read, [Asked(read)]), Look(read), env)
  {
  }

  lemma ComputeAnswers(w: World, env: Env, read: Read)
    ensures
      var answer := Uncached(w.db, read, env.str);
      Follows(Looked(w, env, read, [Asked(read)]),
              Looked(w, env, read, if answer.Some? then [Computed(read, answer.value)] else []), Compute(0), env)
  {
  }

  lemma RemovedOnly<T>(x: T)
    ensures Removed([x], 0) == []
  {
  }

  lemma FiledIsAfterRead(w: World, env: Env, read: Read, estimate: nat, answer: Body)
    requires Hit(w.entries, Render(KeyOf(env, read)), w.now).None? && Uncached(w.db, read, env.str) == Some(answer)
    ensures
      var looked := AfterGet(w.entries, Render(KeyOf(env, read)), w.now);
      AfterRead(w, env, read, estimate) ==
      w.(entries := Filed(looked, env, Computed(read, answer), estimate, w.now))
  {
    MissFiles(w.entries, Render(KeyOf(env, read)), TtlOf(env, read), Tag(KeyOf(env, read)),
              Uncached(w.db, read, env.str), estimate, w.now, env.maxEntries, env.maxBytes);
  }

  lemma FileEnds(w: World, v: World, env: Env, read: Read, estimate: nat, answer: Body)
    requires v == AfterRead(w, env, read, estimate) && Hit(w.entries, Render(KeyOf(env, read)), w.now).None?
    requires Uncached(w.db, read, env.str) == Some(answer)
    ensures Follows(Looked(w, env, read, [Computed(read, answer)]), Whole(v), File(0, estimate), env)
  {
    FiledIsAfterRead(w, env, read, estimate, answer);
    RemovedOnly(Computed(read, answer));
  }

  lemma ReadIsActions(w: World, v: World, env: Env, read: Read, estimate: nat)
    returns (run: seq<Scene>, actions: seq<Action>)
    requires v == AfterRead(w, env, read, estimate)
    ensures Stretch(run, actions, env) && run[0] == Whole(w) && Last(run) == Whole(v)
  {
    if Hit(w.entries, Render(KeyOf(env, read)), w.now).Some? {
      run, actions := OneAction(Whole(w), Whole(v), Look(read), env);
    } else {
      var answer := Uncached(w.db, read, env.str);
      var computed := Looked(w, env, read, if answer.Some? then [Computed(read, answer.value)] else []);
      LookMisses(w, env, read);
      ComputeAnswers(w, env, read);
      run, actions := TwoActions(Whole(w), Looked(w, env, read, [Asked(read)]), computed, Look(read), Compute(0), env);
      if answer.Some? {
        FileEnds(w, v, env, read, estimate, answer.value);
        StretchGrows(run, actions, env, Whole(v), File(0, estimate));
        run, actions := run + [Whole(v)], actions + [File(0, estimate)];
      }
    }
  }

  lemma WriteIsActions(w: World, v: World, env: Env, request: Request)
    returns (run: seq<Scene>, actions: seq<Action>)
    requires Steps(w.db, v.db, request) && v.now == w.now && v.entries == Invalidated(w.entries, v.db, request)
    ensures Stretch(run, actions, env) && run[0] == Whole(w) && Last(run) == Whole(v)
  {
    if ByKey(request) {
      run, actions := OneAction(Whole(w), Whole(v), CommitWrite(request), env);
    } else {
      var committed := Whole(w).(db := v.db, due := [Due(request, v.db)]);
      run, actions := TwoActions(Whole(w), committed, Whole(v), CommitWrite(request), Invalidate(0), env);
    }
  }

  /** Whatever happens in whole steps also happens here, with nothing in between. */
  lemma WholeStepIsActions(w: World, v: World, e: Event, env: Env) returns (run: seq<Scene>, actions: seq<Action>)
    requires Next(w, v, e, env)
    ensures Stretch(run, actions, env) && run[0] == Whole(w) && Last(run) == Whole(v)
  {
    match e
    case Tick(seconds) => run, actions := OneAction(Whole(w), Whole(v), Wait(seconds), env);
    case ReadEvent(read, estimate) => run, actions := ReadIsActions(w, v, env, read, estimate);
    case WriteEvent(request) => run, actions := WriteIsActions(w, v, env, request);
    case Forget(keep) => run, actions := OneAction(Whole(w), Whole(v), Lose(keep), env);
  }

  // ---------------------------------------------------------------- where an entry comes from

  /** The reads that were started before step `i` under this read's key are this read. */
  ghost predicate NoSharing(actions: seq<Action>, i: nat, env: Env, read: Read)
    requires i <= |actions|
  {
    forall k | 0 <= k < i :: !Shares(actions[k], env, read)
  }

  predicate Shares(a: Action, env: Env, read: Read) {
    a.Look? && Render(KeyOf(env, a.read)) == Render(KeyOf(env, read)) && a.read != read
  }

  lemma DocumentsAndListsNeverShare(actions: seq<Action>, i: nat, env: Env, read: Read)
    requires i <= |actions| && !read.QueryDocs?
    ensures NoSharing(actions, i, env, read)
  {
    forall k | 0 <= k < i ensures !Shares(actions[k], env, read) {
      if Shares(actions[k], env, read) { KeysAreInjective(KeyOf(env, actions[k].read), KeyOf(env, read)); }
    }
  }

  lemma {:induction false} LastFalse(flags: seq<bool>, i: nat) returns (j: nat)
    requires i < |flags| && !flags[0] && flags[i]
    ensures j < i && !flags[j] && forall k | j < k <= i :: flags[k]
  {
    if flags[i - 1] { j := LastFalse(flags, i - 1); } else { j := i - 1; }
  }

  predicate InCache(s: Scene, e: Entry<Body>) {
    e in s.entries
  }

  predicate InFlight(s: Scene, flight: Flight) {
    flight in s.flights
  }

  predicate StillDue(s: Scene, due: Due) {
    due in s.due
  }

  lemma EntryIsOldOrFiled(v: Scene, w: Scene, a: Action, env: Env, e: Entry<Body>, read: Read)
    requires Follows(v, w, a, env) && InCache(w, e) && !InCache(v, e) && e.key == Render(KeyOf(env, read))
    ensures a.File? && v.flights[a.n].Computed? && v.flights[a.n].answer == e.value
    ensures Render(KeyOf(env, v.flights[a.n].read)) == e.key
    ensures e.expiresAt == v.now + TtlOf(env, v.flights[a.n].read)
  {
    match a
    case Look(r) => GetKeepsOnlyOld(v.entries, Render(KeyOf(env, r)), v.now, e);
    case File(n, estimate) =>
      var filed := EntryFor(env, v.flights[n].read, v.flights[n].answer, estimate, v.now);
      SetKeepsOnlyOld(v.entries, filed, env.maxEntries, env.maxBytes, e);
    case Invalidate(n) => InvalidatedIsOld(v.entries, v.due[n].after, v.due[n].request, e, env, read);
    case Lose(keep) => FilterMembers(v.entries, keep, e);
    case _ =>
  }

  lemma FlightIsOldOrComputed(v: Scene, w: Scene, a: Action, env: Env, flight: Flight)
    requires Follows(v, w, a, env) && InFlight(w, flight) && !InFlight(v, flight)
    ensures flight.Computed? ==> a.Compute? && Uncached(v.db, flight.read, env.str) == Some(flight.answer)
    ensures flight.Asked? ==> a == Look(flight.read)
  {
  }

  lemma RemovedKeeps<T>(xs: seq<T>, n: nat, x: T)
    requires n < |xs| && x in xs && xs[n] != x
    ensures x in Removed(xs, n)
  {
    var k :| 0 <= k < |xs| && xs[k] == x;
    assert Removed(xs, n)[if k < n then k else k - 1] == x;
  }

  lemma DueIsDoneByInvalidation(v: Scene, w: Scene, a: Action, env: Env, due: Due)
    requires Follows(v, w, a, env) && StillDue(v, due) && !StillDue(w, due)
    ensures a.Invalidate? && v.due[a.n] == due
  {
    if a.Invalidate? && v.due[a.n] != due { RemovedKeeps(v.due, a.n, due); }
  }

  /** What an action does to the flights. */
  predicate FlightsMoved(before: seq<Flight>, after: seq<Flight>, a: Action) {
    match a
    case Look(read) => after == before || after == before + [Asked(read)]
    case Compute(n) =>
      n < |before| && (after == Removed(before, n) || (|after| == |before| && forall k | 0 <= k < |before| ::
                                                         after[k].read == before[k].read))
    case File(n, _) => n < |before| && after == Removed(before, n)
    case Cancel(n) => n < |before| && after == Removed(before, n)
    case _ => after == before
  }

  lemma FlightsMove(v: Scene, w: Scene, a: Action, env: Env)
    requires Follows(v, w, a, env)
    ensures FlightsMoved(v.flights, w.flights, a)
  {
  }

  lemma RemovedAt<T>(xs: seq<T>, n: nat, k: nat)
    requires n < |xs| && k < |xs| - 1
    ensures |Removed(xs, n)| == |xs| - 1 && Removed(xs, n)[k] == xs[if k >= n then k + 1 else k]
  {
  }

  /** A flight was there before, perhaps not yet computed and at another place, or begins now. */
  lemma FlightStep(before: seq<Flight>, after: seq<Flight>, a: Action, n: nat) returns (m: nat)
    requires FlightsMoved(before, after, a) && n < |after|
    ensures a == Look(after[n].read) || (m < |before| && before[m].read == after[n].read)
  {
    m := n;
    if (a.Compute? || a.File? || a.Cancel?) && |after| < |before| {
      RemovedAt(before, a.n, n);
      m := if n >= a.n then n + 1 else n;
    }
  }

  lemma FlightStepAt(run: seq<Scene>, actions: seq<Action>, env: Env, i: nat, n: nat) returns (m: nat)
    requires Stretch(run, actions, env) && i < |actions| && n < |run[i + 1].flights|
    ensures || actions[i] == Look(run[i + 1].flights[n].read)
            || (m < |run[i].flights| && run[i].flights[m].read == run[i + 1].flights[n].read)
  {
    assert FollowsAt(run, actions, env, i);
    FlightsMove(run[i], run[i + 1], actions[i], env);
    m := FlightStep(run[i].flights, run[i + 1].flights, actions[i], n);
  }

  /** Every flight began with a lookup of its read. */
  lemma {:induction false} FlightWasAsked(run: seq<Scene>, actions: seq<Action>, env: Env, i: nat, n: nat)
    returns (k: nat)
    requires Interleaving(run, actions, env) && i < |run| && n < |run[i].flights|
    ensures k < i && actions[k] == Look(run[i].flights[n].read)
  {
    var m := FlightStepAt(run, actions, env, i - 1, n);
    if actions[i - 1] == Look(run[i].flights[n].read) {
      k := i - 1;
    } else {
      k := FlightWasAsked(run, actions, env, i - 1, m);
    }
  }

  lemma FlightWasComputed(run: seq<Scene>, actions: seq<Action>, env: Env, f: nat, flight: Flight) returns (j: nat)
    requires Interleaving(run, actions, env) && f < |run| && InFlight(run[f], flight) && flight.Computed?
    ensures j < f && Uncached(run[j].db, flight.read, env.str) == Some(flight.answer)
    ensures actions[j].Compute? && forall k | j < k <= f :: InFlight(run[k], flight)
  {
    var flags := seq(|run|, k requires 0 <= k < |run| => InFlight(run[k], flight));
    j := LastFalse(flags, f);
    forall k | j < k <= f ensures InFlight(run[k], flight) { assert flags[k]; }
    assert FollowsAt(run, actions, env, j) && !flags[j] && flags[j + 1];
    FlightIsOldOrComputed(run[j], run[j + 1], actions[j], env, flight);
  }

  /** The answer was computed at step `j`, was in flight from then until it was filed at step `f`, and has been
      in the cache from then until step `i`. */
  ghost predicate FlownIn(run: seq<Scene>, actions: seq<Action>, env: Env, i: nat, e: Entry<Body>, read: Read,
                          j: nat, f: nat)
    requires |run| == |actions| + 1 && i < |run|
  {
    && j < f < i && actions[j].Compute? && actions[f].File?
    && Uncached(run[j].db, read, env.str) == Some(e.value) && run[f].now + TtlOf(env, read) == e.expiresAt
    && (forall k | j < k <= f :: InFlight(run[k], Computed(read, e.value)))
    && (forall k | f < k <= i :: InCache(run[k], e))
  }

  lemma EntryHasFlownIn(run: seq<Scene>, actions: seq<Action>, env: Env, i: nat, read: Read, e: Entry<Body>)
    returns (j: nat, f: nat)
    requires Interleaving(run, actions, env) && i < |run| && NoSharing(actions, i, env, read)
    requires InCache(run[i], e) && e.key == Render(KeyOf(env, read))
    ensures FlownIn(run, actions, env, i, e, read, j, f)
  {
    var flags := seq(|run|, k requires 0 <= k < |run| => InCache(run[k], e));
    f := LastFalse(flags, i);
    forall k | f < k <= i ensures InCache(run[k], e) { assert flags[k]; }
    assert FollowsAt(run, actions, env, f) && !flags[f] && flags[f + 1];
    EntryIsOldOrFiled(run[f], run[f + 1], actions[f], env, e, read);
    FlightIsOfRead(run, actions, env, f, actions[f].n, read);
    j := FlightWasComputed(run, actions, env, f, run[f].flights[actions[f].n]);
  }

  lemma FlightIsOfRead(run: seq<Scene>, actions: seq<Action>, env: Env, f: nat, n: nat, read: Read)
    requires Interleaving(run, actions, env) && f < |run| && n < |run[f].flights| && NoSharing(actions, f, env, read)
    requires Render(KeyOf(env, run[f].flights[n].read)) == Render(KeyOf(env, read))
    ensures run[f].flights[n].read == read
  {
    var asked := FlightWasAsked(run, actions, env, f, n);
    assert !Shares(actions[asked], env, read);
  }

  lemma HitHasFlownIn(run: seq<Scene>, actions: seq<Action>, env: Env, i: nat, read: Read)
    returns (j: nat, f: nat, e: Entry<Body>)
    requires Interleaving(run, actions, env) && i < |run| && NoSharing(actions, i, env, read)
    requires Hit(run[i].entries, Render(KeyOf(env, read)), run[i].now).Some?
    ensures FlownIn(run, actions, env, i, e, read, j, f) && run[i].now <= e.expiresAt
    ensures e.key == Render(KeyOf(env, read)) && Hit(run[i].entries, e.key, run[i].now) == Some(e.value)
  {
    var key := Render(KeyOf(env, read));
    HitIsStored(run[i].entries, key, run[i].now);
    e :| e in run[i].entries && e.key == key && e.value == Hit(run[i].entries, key, run[i].now).value
         && run[i].now <= e.expiresAt;
    j, f := EntryHasFlownIn(run, actions, env, i, read, e);
  }

  // ---------------------------------------------------------------- how old an answer is

  /** BOUNDED STALENESS.  However reads and writes interleave, a hit answers what the uncached route gave at a
      moment that lies no further back than the TTL and the time that the read which filed it was in flight. */
  lemma HitsAreRecent(run: seq<Scene>, actions: seq<Action>, env: Env, i: nat, read: Read) returns (j: nat, f: nat)
    requires Interleaving(run, actions, env) && i < |run| && NoSharing(actions, i, env, read)
    requires Hit(run[i].entries, Render(KeyOf(env, read)), run[i].now).Some?
    ensures j < f < i && actions[j].Compute? && actions[f].File?
    ensures run[i].now - run[j].now <= TtlOf(env, read) + (run[f].now - run[j].now)
    ensures Hit(run[i].entries, Render(KeyOf(env, read)), run[i].now) == Uncached(run[j].db, read, env.str)
  {
    var e;
    j, f, e := HitHasFlownIn(run, actions, env, i, read);
  }

  // ---------------------------------------------------------------- when it is fresh

  /** A committed request that may change what this read is answered. */
  predicate Affects(a: Action, read: Read) {
    a.CommitWrite? && !ReadUnaffected(a.request, read)
  }

  lemma StepStaysSame(run: seq<Scene>, actions: seq<Action>, env: Env, k: nat, read: Read)
    requires Stretch(run, actions, env) && k < |actions| && !Affects(actions[k], read)
    ensures SameFor(run[k].db, run[k + 1].db, read)
  {
    assert FollowsAt(run, actions, env, k);
    if actions[k].CommitWrite? { UnaffectedStaysSameFor(run[k].db, run[k + 1].db, actions[k].request, read); }
  }

  lemma {:induction false} UnaffectedStaysSame(run: seq<Scene>, actions: seq<Action>, env: Env, j: nat, i: nat,
                                               read: Read)
    requires Stretch(run, actions, env) && j <= i < |run| && forall k | j <= k < i :: !Affects(actions[k], read)
    ensures SameFor(run[j].db, run[i].db, read)
  {
    if j < i {
      UnaffectedStaysSame(run, actions, env, j, i - 1, read);
      StepStaysSame(run, actions, env, i - 1, read);
    }
  }

  /** The write of step `k` was invalidated for while the read was still in flight, so before it was filed. */
  ghost predicate InvalidatedBefore(run: seq<Scene>, actions: seq<Action>, k: nat, f: nat)
    requires |run| == |actions| + 1 && k < |actions| && actions[k].CommitWrite?
  {
    exists m :: k < m < f && m < |actions| && Discharges(run[m], actions[m], Due(actions[k].request, run[k + 1].db))
  }

  predicate Discharges(s: Scene, a: Action, due: Due) {
    a.Invalidate? && a.n < |s.due| && s.due[a.n] == due
  }

  /** A due invalidation is still due, or was carried out. */
  lemma {:induction false} DueOrDone(run: seq<Scene>, actions: seq<Action>, env: Env, k: nat, i: nat, due: Due)
    returns (m: nat)
    requires Stretch(run, actions, env) && k <= i < |run| && StillDue(run[k], due)
    ensures StillDue(run[i], due) || (k <= m < i && Discharges(run[m], actions[m], due))
  {
    m := 0;
    if k < i && !StillDue(run[i], due) {
      if StillDue(run[i - 1], due) {
        m := i - 1;
        assert FollowsAt(run, actions, env, m);
        DueIsDoneByInvalidation(run[m], run[i], actions[m], env, due);
      } else {
        m := DueOrDone(run, actions, env, k, i - 1, due);
      }
    }
  }

  /** What an invalidation leaves in the cache was not affected by its write. */
  lemma SparedIsUnaffected(run: seq<Scene>, actions: seq<Action>, env: Env, m: nat, due: Due, e: Entry<Body>,
                           read: Read)
    requires Stretch(run, actions, env) && m < |actions| && Discharges(run[m], actions[m], due)
    requires !ByKey(due.request) && InCache(run[m + 1], e) && e.key == Render(KeyOf(env, read))
    ensures ReadUnaffected(due.request, read)
  {
    assert FollowsAt(run, actions, env, m);
    SurvivorIsUnaffected(run[m].entries, due.after, due.request, e, env, read);
  }

  lemma CommitIsDue(run: seq<Scene>, actions: seq<Action>, env: Env, k: nat)
    requires Stretch(run, actions, env) && k < |actions| && actions[k].CommitWrite? && !ByKey(actions[k].request)
    ensures StillDue(run[k + 1], Due(actions[k].request, run[k + 1].db))
  {
    assert FollowsAt(run, actions, env, k);
    assert Last(run[k + 1].due) == Due(actions[k].request, run[k + 1].db);
  }

  /** Of a write that affects a read whose answer, filed at step `f`, is still in the cache. */
  lemma WriterIsDueOrDone(run: seq<Scene>, actions: seq<Action>, env: Env, i: nat, e: Entry<Body>, read: Read, f: nat,
                          k: nat)
    requires Stretch(run, actions, env) && k < i < |run| && f < i && actions[f].File?
    requires e.key == Render(KeyOf(env, read)) && forall m | f < m <= i :: InCache(run[m], e)
    requires Affects(actions[k], read) && !ByKey(actions[k].request)
    ensures StillDue(run[i], Due(actions[k].request, run[k + 1].db)) || InvalidatedBefore(run, actions, k, f)
  {
    var due := Due(actions[k].request, run[k + 1].db);
    CommitIsDue(run, actions, env, k);
    var m := DueOrDone(run, actions, env, k + 1, i, due);
    if !StillDue(run[i], due) && m > f { SparedIsUnaffected(run, actions, env, m, due, e, read); }
  }

  /** WHO MAKES IT STALE.  A write that affects a cached read after its answer was computed is a
      publishable-key write, or has yet to invalidate, or committed and invalidated while the read was in
      flight. */
  lemma WritersOfHit(run: seq<Scene>, actions: seq<Action>, env: Env, i: nat, e: Entry<Body>, read: Read, j: nat,
                     f: nat, k: nat)
    requires Interleaving(run, actions, env) && i < |run| && FlownIn(run, actions, env, i, e, read, j, f)
    requires e.key == Render(KeyOf(env, read)) && j <= k < i && Affects(actions[k], read)
    ensures || ByKey(actions[k].request)
            || StillDue(run[i], Due(actions[k].request, run[k + 1].db))
            || InvalidatedBefore(run, actions, k, f)
  {
    if !ByKey(actions[k].request) { WriterIsDueOrDone(run, actions, env, i, e, read, f, k); }
  }

  /** A hit is fresh if nothing has affected its read since it was computed. */
  lemma HitIsFreshUnlessAffected(run: seq<Scene>, actions: seq<Action>, env: Env, i: nat, read: Read)
    returns (j: nat, f: nat, e: Entry<Body>)
    requires Interleaving(run, actions, env) && i < |run| && NoSharing(actions, i, env, read)
    requires Hit(run[i].entries, Render(KeyOf(env, read)), run[i].now).Some?
    ensures FlownIn(run, actions, env, i, e, read, j, f)
    ensures Hit(run[i].entries, Render(KeyOf(env, read)), run[i].now) == Some(e.value)
    ensures (forall k | j <= k < i :: !Affects(actions[k], read)) ==>
              Some(e.value) == Uncached(run[i].db, read, env.str)
    ensures forall k | j <= k < i && Affects(actions[k], read) ::
      || ByKey(actions[k].request)
      || StillDue(run[i], Due(actions[k].request, run[k + 1].db))
      || InvalidatedBefore(run, actions, k, f)
  {
    j, f, e := HitHasFlownIn(run, actions, env, i, read);
    forall k | j <= k < i && Affects(actions[k], read)
      ensures || ByKey(actions[k].request)
              || StillDue(run[i], Due(actions[k].request, run[k + 1].db))
              || InvalidatedBefore(run, actions, k, f)
    {
      WritersOfHit(run, actions, env, i, e, read, j, f, k);
    }
    if forall k | j <= k < i :: !Affects(actions[k], read) {
      UnaffectedStaysSame(run, actions, env, j, i, read);
      SameForSameAnswer(run[j].db, run[i].db, read, env.str);
    }
  }

  /** A committed request with a write to document `d` of collection `c`. */
  predicate WritesTo(request: Request, c: nat, d: string) {
    match request
    case DocumentRequest(_, coll, write, _, _, answer) => answer.Success? && coll == c && write.id == d
    case BatchRequest(coll, writes, _, _) => coll == c && exists t :: 0 <= t < |writes| && writes[t].id == d
    case SettingsRequest(_) => false
    case CollectionRequest(_, _, _) => false
  }

  /** A batch raises the versions of the documents it writes to, and leaves the others alone. */
  lemma {:induction false} BatchWritesTo(served: seq<Db>, coll: nat, writes: seq<Write>, now: int, i: nat, d: string)
    requires OneByOne(served, coll, writes, now) && i < |served|
    ensures VersionOf(served[0], (coll, d)) <= VersionOf(served[i], (coll, d))
    ensures (exists t :: 0 <= t < i && writes[t].id == d) ==>
              VersionOf(served[0], (coll, d)) < VersionOf(served[i], (coll, d))
    ensures (forall t | 0 <= t < i :: writes[t].id != d) ==> SameDoc(served[0], served[i], (coll, d))
  {
    if i > 0 {
      BatchWritesTo(served, coll, writes, now, i - 1, d);
      assert OneServed(served[i - 1], served[i], coll, writes[i - 1], now);
      var r: Result<Document, WriteError> :|
        r.Success? && Served(served[i - 1], served[i], OwnerRoute, coll, writes[i - 1], 0, now, r);
      ServedRaisesVersion(served[i - 1], served[i], OwnerRoute, coll, writes[i - 1], 0, now, r, (coll, d));
      ServedIsLocal(served[i - 1], served[i], OwnerRoute, coll, writes[i - 1], 0, now, r);
      if writes[i - 1].id != d { assert SameDoc(served[i - 1], served[i], (coll, d)); }
    }
  }

  /** A request raises a document's version if it writes to it, and otherwise leaves the document alone. */
  lemma StepWritesTo(a: Db, b: Db, request: Request, c: nat, d: string)
    requires Steps(a, b, request)
    ensures VersionOf(a, (c, d)) <= VersionOf(b, (c, d))
    ensures WritesTo(request, c, d) ==> VersionOf(a, (c, d)) < VersionOf(b, (c, d))
    ensures !WritesTo(request, c, d) ==> SameDoc(a, b, (c, d))
  {
    StepRaisesVersion(a, b, request, (c, d));
    StepIsLocal(a, b, request);
    if request.BatchRequest? && request.coll == c {
      BatchWritesTo(request.served, c, request.writes, request.now, |request.served| - 1, d);
    } else if !WritesTo(request, c, d) {
      assert !MayChange(request, (c, d));
    }
  }

  predicate WritesAt(a: Action, c: nat, d: string) {
    a.CommitWrite? && WritesTo(a.request, c, d)
  }

  /** Between two moments a document's version is higher if something wrote to it, and otherwise its answer is
      the same. */
  lemma {:induction false} WrittenOrSame(run: seq<Scene>, actions: seq<Action>, env: Env, j: nat, i: nat, c: nat,
                                         d: string)
    requires Stretch(run, actions, env) && j <= i < |run|
    ensures VersionOf(run[j].db, (c, d)) <= VersionOf(run[i].db, (c, d))
    ensures (exists k :: j <= k < i && WritesAt(actions[k], c, d)) ==>
              VersionOf(run[j].db, (c, d)) < VersionOf(run[i].db, (c, d))
    ensures (forall k | j <= k < i :: !WritesAt(actions[k], c, d)) ==> SameDoc(run[j].db, run[i].db, (c, d))
  {
    if j < i {
      WrittenOrSame(run, actions, env, j, i - 1, c, d);
      assert FollowsAt(run, actions, env, i - 1);
      if actions[i - 1].CommitWrite? { StepWritesTo(run[i - 1].db, run[i].db, actions[i - 1].request, c, d); }
    }
  }

  /** STALENESS, exactly.  However reads and writes interleave, a cached document whose answer was computed at
      step `j` is what the uncached route answers now if and only if nothing has written to it since. */
  lemma FreshIffUnwrittenSinceComputed(run: seq<Scene>, actions: seq<Action>, env: Env, i: nat, c: nat, d: string)
    returns (j: nat, f: nat, e: Entry<Body>)
    requires Interleaving(run, actions, env) && i < |run|
    requires Hit(run[i].entries, Render(DocumentKey(c, d)), run[i].now).Some?
    ensures FlownIn(run, actions, env, i, e, GetDoc(c, d), j, f)
    ensures Hit(run[i].entries, Render(DocumentKey(c, d)), run[i].now) == Some(e.value)
    ensures Some(e.value) == Uncached(run[i].db, GetDoc(c, d), env.str) <==>
            forall k | j <= k < i :: !WritesAt(actions[k], c, d)
  {
    DocumentsAndListsNeverShare(actions, i, env, GetDoc(c, d));
    j, f, e := HitHasFlownIn(run, actions, env, i, GetDoc(c, d));
    WrittenOrSame(run, actions, env, j, i, c, d);
  }
}
