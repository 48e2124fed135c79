/** Uploaded files: the chain of versions that re-uploading a name builds, and the quota counter that
    uploads and deletes move.  A row's id is its position: rows are never removed. */
module Files {
  import opened Prelude

  datatype FileRow = FileRow(
    cloud: nat, name: string, owner: Option<nat>, size: nat, deleted: bool, replacesId: Option<nat>)

  datatype User = User(admin: bool, used: int, quota: nat)

  datatype Store = Store(files: seq<FileRow>, users: map<nat, User>, clouds: map<nat, Option<nat>>)

  /** Files come in through a session or API key, or through a storage key of the cloud's owner. */
  datatype Route = SessionRoute | StorageKeyRoute

  datatype FileError = NotFound | UserMissing | QuotaExceeded(used: int, quota: nat, wouldAdd: nat)
    | UploadFailed | MultipleResults | FileTooLarge | SignatureInvalid

  // ---------------------------------------------------------------- the operations on a store

  /** The cloud exists and the caller may write to it: `None`, or the refusal. */
  function CloudRefusal(s: Store, route: Route, user: nat, cloud: nat): Option<FileError> {
    if user !in s.users then Some(UserMissing)
    else if cloud !in s.clouds then Some(NotFound)
    else if s.clouds[cloud] != Some(user) && !(route.SessionRoute? && s.users[user].admin) then Some(NotFound)
    else None
  }

  /** Live rows that an upload of this name would replace. */
  predicate Candidate(f: FileRow, route: Route, user: nat, cloud: nat, name: string) {
    !f.deleted && f.cloud == cloud && f.name == name && (route.StorageKeyRoute? ==> f.owner == Some(user))
  }

  function Matches(files: seq<FileRow>, route: Route, user: nat, cloud: nat, name: string): (r: seq<nat>)
    ensures forall k | 0 <= k < |r| :: r[k] < |files|
  {
    if files == [] then []
    else
      var front := Matches(Front(files), route, user, cloud, name);
      if Candidate(Last(files), route, user, cloud, name) then front + [|files| - 1] else front
  }

  /** What the upload was called: its own name, or a random one that no row has. */
  datatype Name = Given(text: string) | Random(text: string)

  function Prior(files: seq<FileRow>, route: Route, user: nat, cloud: nat, name: Name): (r: seq<nat>)
    ensures forall k | 0 <= k < |r| :: r[k] < |files|
  {
    if name.Given? then Matches(files, route, user, cloud, name.text) else []
  }

  /** The row to supersede: the one prior row, if the uploader owns it or is an admin. */
  function Target(s: Store, route: Route, user: nat, cloud: nat, name: Name): (r: Option<nat>)
    requires user in s.users
    ensures r.Some? ==> r.value < |s.files|
  {
    var prior := Prior(s.files, route, user, cloud, name);
    if |prior| == 1 && (s.users[user].admin || s.files[prior[0]].owner == Some(user)) then Some(prior[0]) else None
  }

  function Supersede(files: seq<FileRow>, target: Option<nat>): (r: seq<FileRow>)
    requires target.Some? ==> target.value < |files|
    ensures |r| == |files|
  {
    if target.None? then files else files[target.value := files[target.value].(deleted := true)]
  }

  function Charge(users: map<nat, User>, user: nat, delta: int): map<nat, User> {
    if user in users then users[user := users[user].(used := users[user].used + delta)] else users
  }

  /** What refuses an upload before anything is sent: the cloud, or the quota. */
  function Refusal(s: Store, route: Route, user: nat, cloud: nat, size: nat): Option<FileError> {
    var refusal := CloudRefusal(s, route, user, cloud);
    if refusal.Some? then refusal
    else if s.users[user].used + size > s.users[user].quota then
      Some(QuotaExceeded(s.users[user].used, s.users[user].quota, size))
    else None
  }

  /** A file as it arrives: its bytes, the limit that applies, and whether it carries a client's signature
      that does not verify. */
  datatype Incoming = Incoming(received: nat, limit: nat, forged: bool)

  /** What refuses the file itself.  Only the session route takes signatures; only the storage route looks at
      the size after compression too. */
  function Screened(route: Route, file: Incoming, size: nat): Option<FileError> {
    if file.received > file.limit then Some(FileTooLarge)
    else if route.SessionRoute? && file.forged then Some(SignatureInvalid)
    else if route.StorageKeyRoute? && size > file.limit then Some(FileTooLarge)
    else None
  }

  /** An upload whose message is delivered; `size` is the size after compression. */
  function Upload(s: Store, route: Route, user: nat, cloud: nat, name: Name, size: nat): Result<Store, FileError> {
    var refusal := Refusal(s, route, user, cloud, size);
    if refusal.Some? then Failure(refusal.value)
    else if |Prior(s.files, route, user, cloud, name)| > 1 then Failure(MultipleResults)
    else
      var target := Target(s, route, user, cloud, name);
      Success(s.(
        files := Supersede(s.files, target) + [FileRow(cloud, name.text, Some(user), size, false, target)],
        users := Charge(s.users, user, size)))
  }

  /** The caller may delete row `id`: any live row for an admin, otherwise its own. */
  predicate MayDelete(s: Store, route: Route, user: nat, cloud: nat, id: nat) {
    && user in s.users && id < |s.files| && !s.files[id].deleted
    && match route
       case SessionRoute => s.users[user].admin || s.files[id].owner == Some(user)
       case StorageKeyRoute => s.files[id].cloud == cloud && s.files[id].owner == Some(user)
  }

  function Delete(s: Store, route: Route, user: nat, cloud: nat, id: nat): Result<Store, FileError> {
    if !MayDelete(s, route, user, cloud, id) then Failure(NotFound)
    else
      var row := s.files[id];
      var released: int := row.size;
      Success(s.(
        files := s.files[id := row.(deleted := true)],
        users := if row.owner.Some? then Charge(s.users, row.owner.value, -released) else s.users))
  }

  // ---------------------------------------------------------------- bytes

  /** The rows some other row replaces. */
  function Links(files: seq<FileRow>): set<nat> {
    if files == [] then {}
    else if Last(files).replacesId.Some? then Links(Front(files)) + {Last(files).replacesId.value}
    else Links(Front(files))
  }

  function Weight(f: FileRow, linked: bool, user: nat): nat {
    if f.owner == Some(user) && (!f.deleted || linked) then f.size else 0
  }

  /** The bytes of `user`'s rows that are live or linked. */
  function Bytes(files: seq<FileRow>, links: set<nat>, user: nat): nat {
    if files == [] then 0 else Bytes(Front(files), links, user) + Weight(Last(files), |files| - 1 in links, user)
  }

  /** Not released by a delete: live, or superseded by a newer version. */
  function Held(files: seq<FileRow>, user: nat): nat {
    Bytes(files, Links(files), user)
  }

  function Live(files: seq<FileRow>, user: nat): nat {
    Bytes(files, {}, user)
  }

  /** Superseded versions only. */
  function Superseded(files: seq<FileRow>, links: set<nat>, user: nat): nat {
    if files == [] then 0
    else Superseded(Front(files), links, user) +
         if Last(files).owner == Some(user) && Last(files).deleted && |files| - 1 in links then Last(files).size else 0
  }

  lemma {:induction false} HeldIsLiveAndSuperseded(files: seq<FileRow>, links: set<nat>, user: nat)
    ensures Bytes(files, links, user) == Bytes(files, {}, user) + Superseded(files, links, user)
  {
    if files != [] { HeldIsLiveAndSuperseded(Front(files), links, user); }
  }

  function Recompute(s: Store, user: nat): Store {
    if user in s.users then s.(users := s.users[user := s.users[user].(used := Live(s.files, user))]) else s
  }

  lemma {:induction false} BytesUpdate(files: seq<FileRow>, links: set<nat>, user: nat, p: nat, f: FileRow)
    requires p < |files|
    ensures Bytes(files[p := f], links, user)
         == Bytes(files, links, user) - Weight(files[p], p in links, user) + Weight(f, p in links, user)
  {
    var changed := files[p := f];
    if p == |files| - 1 {
      assert Front(changed) == Front(files);
    } else {
      assert Front(changed) == Front(files)[p := f];
      BytesUpdate(Front(files), links, user, p, f);
    }
  }

  lemma {:induction false} BytesLink(files: seq<FileRow>, links: set<nat>, user: nat, p: nat)
    ensures Bytes(files, links + {p}, user) == Bytes(files, links, user) +
      if p < |files| then Weight(files[p], true, user) - Weight(files[p], p in links, user) else 0
  {
    if files != [] { BytesLink(Front(files), links, user, p); }
  }

  lemma {:induction false} LinksUpdate(files: seq<FileRow>, p: nat, f: FileRow)
    requires p < |files| && f.replacesId == files[p].replacesId
    ensures Links(files[p := f]) == Links(files)
  {
    var changed := files[p := f];
    if p == |files| - 1 {
      assert Front(changed) == Front(files);
    } else {
      assert Front(changed) == Front(files)[p := f];
      LinksUpdate(Front(files), p, f);
    }
  }

  lemma {:induction false} LinksMembers(files: seq<FileRow>, p: nat)
    ensures p in Links(files) <==> exists i :: 0 <= i < |files| && files[i].replacesId == Some(p)
  {
    if files != [] {
      var front := Front(files);
      LinksMembers(front, p);
      if p in Links(front) {
        var i :| 0 <= i < |front| && front[i].replacesId == Some(p);
        assert files[i].replacesId == Some(p);
      }
      if Last(files).replacesId == Some(p) { assert files[|files| - 1].replacesId == Some(p); }
      if i :| 0 <= i < |files| && files[i].replacesId == Some(p) {
        assert i < |front| ==> front[i].replacesId == Some(p);
      }
    }
  }

  // ---------------------------------------------------------------- lineage

  /** A link points to an earlier, already deleted row of the same name, and no row is replaced twice. */
  ghost predicate Lineage(files: seq<FileRow>) {
    && (forall i | 0 <= i < |files| && files[i].replacesId.Some? :: LinkFits(files, i))
    && (forall i, j | 0 <= i < j < |files| && files[i].replacesId.Some? :: files[i].replacesId != files[j].replacesId)
  }

  predicate LinkFits(files: seq<FileRow>, i: nat)
    requires i < |files| && files[i].replacesId.Some?
  {
    var p := files[i].replacesId.value;
    p < i && files[p].deleted && files[p].cloud == files[i].cloud && files[p].name == files[i].name
  }

  /** No user has two live rows of one name in one cloud. */
  ghost predicate OneLive(files: seq<FileRow>) {
    forall i, j | 0 <= i < j < |files| :: !Clash(files[i], files[j])
  }

  predicate Clash(a: FileRow, b: FileRow) {
    !a.deleted && !b.deleted && a.owner.Some? && a.owner == b.owner && a.cloud == b.cloud && a.name == b.name
  }

  lemma {:induction false} MatchesMembers(files: seq<FileRow>, route: Route, user: nat, cloud: nat, name: string,
                                          i: nat)
    requires i < |files|
    ensures i in Matches(files, route, user, cloud, name) <==> Candidate(files[i], route, user, cloud, name)
  {
    var front := Matches(Front(files), route, user, cloud, name);
    if i < |files| - 1 {
      MatchesMembers(Front(files), route, user, cloud, name, i);
      assert Front(files)[i] == files[i];
    } else {
      assert i !in front;
    }
  }

  lemma {:induction false} MatchesAscend(files: seq<FileRow>, route: Route, user: nat, cloud: nat, name: string,
                                         j: nat, k: nat)
    requires j < k < |Matches(files, route, user, cloud, name)|
    ensures Matches(files, route, user, cloud, name)[j] < Matches(files, route, user, cloud, name)[k]
  {
    var front := Matches(Front(files), route, user, cloud, name);
    if k < |front| { MatchesAscend(Front(files), route, user, cloud, name, j, k); }
  }

  lemma TargetIsCandidate(s: Store, route: Route, user: nat, cloud: nat, name: Name)
    requires user in s.users
    ensures
      var t := Target(s, route, user, cloud, name);
      t.Some? ==> name.Given? && Candidate(s.files[t.value], route, user, cloud, name.text)
  {
    var t := Target(s, route, user, cloud, name);
    if t.Some? {
      assert t.value in Matches(s.files, route, user, cloud, name.text);
      MatchesMembers(s.files, route, user, cloud, name.text, t.value);
    }
  }

  /** Deleting a row, or appending one without a link, keeps the chains. */
  lemma DeletingKeepsLineage(files: seq<FileRow>, p: nat)
    requires Lineage(files) && p < |files|
    ensures Lineage(files[p := files[p].(deleted := true)])
  {
    var now := files[p := files[p].(deleted := true)];
    forall i | 0 <= i < |now| && now[i].replacesId.Some? ensures LinkFits(now, i) {
      assert LinkFits(files, i);
    }
  }

  lemma AppendingKeepsLineage(files: seq<FileRow>, f: FileRow)
    requires Lineage(files)
    requires f.replacesId.Some? ==>
      && f.replacesId.value < |files| && f.replacesId.value !in Links(files)
      && files[f.replacesId.value].deleted
      && files[f.replacesId.value].cloud == f.cloud && files[f.replacesId.value].name == f.name
    ensures Lineage(files + [f])
  {
    var now := files + [f];
    forall i | 0 <= i < |now| && now[i].replacesId.Some? ensures LinkFits(now, i) {
      if i < |files| { assert LinkFits(files, i); }
    }
    forall i, j | 0 <= i < j < |now| && now[i].replacesId.Some? ensures now[i].replacesId != now[j].replacesId {
      if j == |files| && f.replacesId.Some? { LinksMembers(files, f.replacesId.value); }
    }
  }

  /** A live row has no successor. */
  lemma LiveIsUnlinked(files: seq<FileRow>, p: nat)
    requires Lineage(files) && p < |files| && !files[p].deleted
    ensures p !in Links(files)
  {
    LinksMembers(files, p);
    forall i | 0 <= i < |files| ensures files[i].replacesId != Some(p) {
      assert files[i].replacesId.Some? ==> LinkFits(files, i);
    }
  }

  lemma UploadKeepsLineage(s: Store, route: Route, user: nat, cloud: nat, name: Name, size: nat)
    requires Lineage(s.files) && Upload(s, route, user, cloud, name, size).Success?
    ensures Lineage(Upload(s, route, user, cloud, name, size).value.files)
  {
    var t := Target(s, route, user, cloud, name);
    var row := FileRow(cloud, name.text, Some(user), size, false, t);
    TargetIsCandidate(s, route, user, cloud, name);
    if t.Some? {
      LiveIsUnlinked(s.files, t.value);
      DeletingKeepsLineage(s.files, t.value);
      LinksUpdate(s.files, t.value, s.files[t.value].(deleted := true));
    }
    AppendingKeepsLineage(Supersede(s.files, t), row);
  }

  /** An upload supersedes the uploader's own live row of that name, so it never leaves two. */
  lemma UploadKeepsOneLive(s: Store, route: Route, user: nat, cloud: nat, name: Name, size: nat)
    requires OneLive(s.files) && Upload(s, route, user, cloud, name, size).Success?
    requires name.Random? ==> forall f | f in s.files :: f.name != name.text
    ensures OneLive(Upload(s, route, user, cloud, name, size).value.files)
  {
    var t := Target(s, route, user, cloud, name);
    var row := FileRow(cloud, name.text, Some(user), size, false, t);
    var rest := Supersede(s.files, t);
    var now := rest + [row];
    forall i, j | 0 <= i < j < |now| ensures !Clash(now[i], now[j]) {
      assert !(j < |rest| && Clash(s.files[i], s.files[j]));
      if j == |rest| && Clash(rest[i], row) {
        assert s.files[i] in s.files;
        OwnRowIsTarget(s, route, user, cloud, name, i);
      }
    }
  }

  /** If the uploader has a live row of that name, it is the row superseded. */
  lemma OwnRowIsTarget(s: Store, route: Route, user: nat, cloud: nat, name: Name, i: nat)
    requires user in s.users && |Prior(s.files, route, user, cloud, name)| <= 1 && name.Given?
    requires i < |s.files| && Candidate(s.files[i], route, user, cloud, name.text) && s.files[i].owner == Some(user)
    ensures Target(s, route, user, cloud, name) == Some(i)
  {
    MatchesMembers(s.files, route, user, cloud, name.text, i);
    assert i in Prior(s.files, route, user, cloud, name);
  }

  /** A storage-key upload never fails for having two rows to choose from. */
  lemma StorageKeyIsUnambiguous(files: seq<FileRow>, user: nat, cloud: nat, name: Name)
    requires OneLive(files)
    ensures |Prior(files, StorageKeyRoute, user, cloud, name)| <= 1
  {
    var prior := Prior(files, StorageKeyRoute, user, cloud, name);
    if |prior| > 1 {
      MatchesAscend(files, StorageKeyRoute, user, cloud, name.text, 0, 1);
      assert prior[0] in prior && prior[1] in prior;
      assert !Clash(files[prior[0]], files[prior[1]]);
      MatchesMembers(files, StorageKeyRoute, user, cloud, name.text, prior[0]);
      MatchesMembers(files, StorageKeyRoute, user, cloud, name.text, prior[1]);
    }
  }

  predicate BothLive(a: FileRow, b: FileRow, cloud: nat, name: string) {
    !a.deleted && !b.deleted && a.cloud == b.cloud == cloud && a.name == b.name == name
  }

  /** A session upload is refused as ambiguous exactly when two live rows of that name exist. */
  lemma SessionAmbiguity(files: seq<FileRow>, user: nat, cloud: nat, name: string)
    ensures |Prior(files, SessionRoute, user, cloud, Given(name))| > 1 <==>
            exists i, j :: 0 <= i < j < |files| && BothLive(files[i], files[j], cloud, name)
  {
    var prior := Prior(files, SessionRoute, user, cloud, Given(name));
    if |prior| > 1 {
      MatchesAscend(files, SessionRoute, user, cloud, name, 0, 1);
      assert prior[0] in prior && prior[1] in prior;
      MatchesMembers(files, SessionRoute, user, cloud, name, prior[0]);
      MatchesMembers(files, SessionRoute, user, cloud, name, prior[1]);
      assert BothLive(files[prior[0]], files[prior[1]], cloud, name);
    }
    if i, j :| 0 <= i < j < |files| && BothLive(files[i], files[j], cloud, name) {
      MatchesMembers(files, SessionRoute, user, cloud, name, i);
      MatchesMembers(files, SessionRoute, user, cloud, name, j);
      var a :| 0 <= a < |prior| && prior[a] == i;
      var b :| 0 <= b < |prior| && prior[b] == j;
      assert a != b;
    }
  }

  // ---------------------------------------------------------------- what moves the bytes

  lemma UploadMovesBytes(s: Store, route: Route, user: nat, cloud: nat, name: Name, size: nat, who: nat)
    requires Lineage(s.files) && Upload(s, route, user, cloud, name, size).Success?
    ensures
      var now := Upload(s, route, user, cloud, name, size).value.files;
      var t := Target(s, route, user, cloud, name);
      var gain := if who == user then size else 0;
      && Held(now, who) == Held(s.files, who) + gain
      && Live(now, who) == Live(s.files, who) + gain - (if t.Some? then Weight(s.files[t.value], false, who) else 0)
  {
    var t := Target(s, route, user, cloud, name);
    var row := FileRow(cloud, name.text, Some(user), size, false, t);
    var rest := Supersede(s.files, t);
    assert Front(rest + [row]) == rest;
    TargetIsCandidate(s, route, user, cloud, name);
    var links := Links(s.files);
    FreshIsUnlinked(s.files);
    if t.Some? {
      var gone := s.files[t.value].(deleted := true);
      LiveIsUnlinked(s.files, t.value);
      LinksUpdate(s.files, t.value, gone);
      BytesLink(s.files, links, who, t.value);
      BytesUpdate(s.files, links + {t.value}, who, t.value, gone);
      BytesUpdate(s.files, {}, who, t.value, gone);
      assert Links(rest + [row]) == links + {t.value};
    }
  }

  lemma FreshIsUnlinked(files: seq<FileRow>)
    requires Lineage(files)
    ensures |files| !in Links(files)
  {
    LinksMembers(files, |files|);
    forall i | 0 <= i < |files| ensures files[i].replacesId != Some(|files|) {
      assert files[i].replacesId.Some? ==> LinkFits(files, i);
    }
  }

  lemma DeletingMovesBytes(files: seq<FileRow>, id: nat, who: nat)
    requires Lineage(files) && id < |files| && !files[id].deleted
    ensures
      var now := files[id := files[id].(deleted := true)];
      var loss := if files[id].owner == Some(who) then files[id].size else 0;
      Held(now, who) == Held(files, who) - loss && Live(now, who) == Live(files, who) - loss
  {
    var gone := files[id].(deleted := true);
    LiveIsUnlinked(files, id);
    LinksUpdate(files, id, gone);
    BytesUpdate(files, Links(files), who, id, gone);
    BytesUpdate(files, {}, who, id, gone);
  }

  // ---------------------------------------------------------------- runs

  datatype Action =
    | UploadFile(route: Route, user: nat, cloud: nat, name: Name, size: nat)
    | DeleteFile(route: Route, user: nat, cloud: nat, id: nat)
    | RecomputeUsed(user: nat)
    | LegacyInsert(cloud: nat, text: string, size: nat)
    | LegacyDelete(id: nat)

  /** One request, or one legacy (V1 or ingest) write, which has no owner and no accounting. */
  function Act(s: Store, a: Action): Store {
    match a
    case UploadFile(route, user, cloud, name, size) =>
      var r := Upload(s, route, user, cloud, name, size);
      if r.Success? then r.value else s
    case DeleteFile(route, user, cloud, id) =>
      var r := Delete(s, route, user, cloud, id);
      if r.Success? then r.value else s
    case RecomputeUsed(user) => Recompute(s, user)
    case LegacyInsert(cloud, name, size) => s.(files := s.files + [FileRow(cloud, name, None, size, false, None)])
    case LegacyDelete(id) =>
      if id < |s.files| then s.(files := s.files[id := s.files[id].(deleted := true)]) else s
  }

  function Run(s: Store, actions: seq<Action>): Store {
    if actions == [] then s else Act(Run(s, Front(actions)), Last(actions))
  }

  predicate RandomNamesAreNew(s: Store, a: Action) {
    a.UploadFile? && a.name.Random? ==> forall f | f in s.files :: f.name != a.name.text
  }

  predicate NamesAreNew(s: Store, actions: seq<Action>) {
    actions == [] || (NamesAreNew(s, Front(actions)) && RandomNamesAreNew(Run(s, Front(actions)), Last(actions)))
  }

  lemma ActKeepsLineage(s: Store, a: Action)
    requires Lineage(s.files)
    ensures Lineage(Act(s, a).files)
  {
    match a
    case UploadFile(route, user, cloud, name, size) =>
      if Upload(s, route, user, cloud, name, size).Success? { UploadKeepsLineage(s, route, user, cloud, name, size); }
    case DeleteFile(route, user, cloud, id) =>
      if MayDelete(s, route, user, cloud, id) { DeletingKeepsLineage(s.files, id); }
    case RecomputeUsed(_) =>
    case LegacyInsert(cloud, name, size) =>
      AppendingKeepsLineage(s.files, FileRow(cloud, name, None, size, false, None));
    case LegacyDelete(id) => if id < |s.files| { DeletingKeepsLineage(s.files, id); }
  }

  /** LINEAGE.  In every reachable state, links go back to deleted rows and no row is replaced twice. */
  lemma {:induction false} EveryRunKeepsLineage(s: Store, actions: seq<Action>)
    requires s.files == []
    ensures Lineage(Run(s, actions).files)
  {
    if actions != [] {
      EveryRunKeepsLineage(s, Front(actions));
      ActKeepsLineage(Run(s, Front(actions)), Last(actions));
    }
  }

  lemma ActKeepsOneLive(s: Store, a: Action)
    requires OneLive(s.files) && RandomNamesAreNew(s, a)
    ensures OneLive(Act(s, a).files)
  {
    match a
    case UploadFile(route, user, cloud, name, size) =>
      if Upload(s, route, user, cloud, name, size).Success? { UploadKeepsOneLive(s, route, user, cloud, name, size); }
    case DeleteFile(route, user, cloud, id) =>
      if MayDelete(s, route, user, cloud, id) { DeletingKeepsOneLive(s.files, id); }
    case RecomputeUsed(_) =>
    case LegacyInsert(_, _, _) =>
    case LegacyDelete(id) => if id < |s.files| { DeletingKeepsOneLive(s.files, id); }
  }

  lemma DeletingKeepsOneLive(files: seq<FileRow>, p: nat)
    requires OneLive(files) && p < |files|
    ensures OneLive(files[p := files[p].(deleted := true)])
  {
    var now := files[p := files[p].(deleted := true)];
    forall i, j | 0 <= i < j < |now| ensures !Clash(now[i], now[j]) {
      assert !Clash(files[i], files[j]);
    }
  }

  /** In every reachable state a user has at most one live row per cloud and name. */
  lemma {:induction false} EveryRunKeepsOneLive(s: Store, actions: seq<Action>)
    requires s.files == [] && NamesAreNew(s, actions)
    ensures OneLive(Run(s, actions).files)
  {
    if actions != [] {
      EveryRunKeepsOneLive(s, Front(actions));
      ActKeepsOneLive(Run(s, Front(actions)), Last(actions));
    }
  }

  /** A legacy delete is billed to nobody, so the accounting is claimed where it hits ownerless rows. */
  predicate Billed(s: Store, a: Action) {
    a.LegacyDelete? && a.id < |s.files| && !s.files[a.id].deleted ==> s.files[a.id].owner.None?
  }

  predicate AllBilled(s: Store, actions: seq<Action>) {
    actions == [] || (AllBilled(s, Front(actions)) && Billed(Run(s, Front(actions)), Last(actions)))
  }

  predicate NoRecompute(actions: seq<Action>) {
    actions == [] || (NoRecompute(Front(actions)) && !Last(actions).RecomputeUsed?)
  }

  /** A user's counter: between the live bytes and the bytes not released, and within the quota. */
  predicate Bounded(s: Store, user: nat) {
    user in s.users ==>
      && Live(s.files, user) <= s.users[user].used <= Held(s.files, user)
      && s.users[user].used <= s.users[user].quota
  }

  lemma LegacyMovesNothing(files: seq<FileRow>, f: FileRow, who: nat)
    requires Lineage(files) && f.owner.None? && f.replacesId.None?
    ensures Held(files + [f], who) == Held(files, who) && Live(files + [f], who) == Live(files, who)
  {
    assert Front(files + [f]) == files;
  }

  lemma DeletedStays(files: seq<FileRow>, id: nat)
    requires id < |files| && files[id].deleted
    ensures files[id := files[id].(deleted := true)] == files
  {
  }

  /** The bytes of `user` that an action supersedes: those of the row that an upload replaces. */
  function SupersededBy(s: Store, a: Action, user: nat): nat {
    match a
    case UploadFile(route, uploader, cloud, name, size) =>
      if Upload(s, route, uploader, cloud, name, size).Failure? then 0
      else
        var target := Target(s, route, uploader, cloud, name);
        if target.Some? then Weight(s.files[target.value], false, user) else 0
    case _ => 0
  }

  /** What one action does to one user's counter, next to what it does to the bytes. */
  lemma ActMovesCounter(s: Store, a: Action, who: nat)
    requires Lineage(s.files) && Billed(s, a) && who in s.users && !a.RecomputeUsed?
    ensures
      var t := Act(s, a);
      && who in t.users && t.users[who].quota == s.users[who].quota
      && t.users[who].used - s.users[who].used == Held(t.files, who) - Held(s.files, who)
      && t.users[who].used - s.users[who].used == Live(t.files, who) - Live(s.files, who) + SupersededBy(s, a, who)
      && (t.users[who].used <= s.users[who].used || t.users[who].used <= t.users[who].quota)
  {
    match a
    case UploadFile(route, user, cloud, name, size) =>
      if Upload(s, route, user, cloud, name, size).Success? {
        UploadMovesBytes(s, route, user, cloud, name, size, who);
      }
    case DeleteFile(route, user, cloud, id) =>
      if MayDelete(s, route, user, cloud, id) { DeletingMovesBytes(s.files, id, who); }
    case LegacyInsert(cloud, name, size) =>
      LegacyMovesNothing(s.files, FileRow(cloud, name, None, size, false, None), who);
    case LegacyDelete(id) =>
      if id < |s.files| {
        if s.files[id].deleted { DeletedStays(s.files, id); } else { DeletingMovesBytes(s.files, id, who); }
      }
  }

  lemma LinkingAdds(files: seq<FileRow>, user: nat)
    ensures Live(files, user) <= Held(files, user)
  {
    HeldIsLiveAndSuperseded(files, Links(files), user);
  }

  /** QUOTA.  Over every run of uploads, deletes and recomputations, a counter stays between the live
      bytes and the unreleased bytes, and so between 0 and the quota. */
  lemma {:induction false} EveryRunStaysInQuota(s: Store, actions: seq<Action>, user: nat)
    requires s.files == [] && (user in s.users ==> s.users[user].used == 0) && AllBilled(s, actions)
    ensures Bounded(Run(s, actions), user)
    ensures user in Run(s, actions).users ==> 0 <= Run(s, actions).users[user].used <= Run(s, actions).users[user].quota
  {
    if actions != [] {
      var mid := Run(s, Front(actions));
      EveryRunStaysInQuota(s, Front(actions), user);
      EveryRunKeepsLineage(s, Front(actions));
      UsersStay(mid, Last(actions), user);
      if Last(actions).RecomputeUsed? {
        LinkingAdds(mid.files, user);
      } else if user in mid.users {
        ActMovesCounter(mid, Last(actions), user);
      }
    }
  }

  lemma UsersStay(s: Store, a: Action, user: nat)
    ensures user in Act(s, a).users <==> user in s.users
  {
  }

  /** CONSERVATION.  Without a recomputation the counter is exactly the bytes not released by a delete:
      a superseded version stays charged. */
  lemma {:induction false} EveryRunConserves(s: Store, actions: seq<Action>, user: nat)
    requires s.files == [] && user in s.users && s.users[user].used == 0
    requires AllBilled(s, actions) && NoRecompute(actions)
    ensures user in Run(s, actions).users
    ensures Run(s, actions).users[user].used == Held(Run(s, actions).files, user)
  {
    if actions != [] {
      var mid := Run(s, Front(actions));
      EveryRunConserves(s, Front(actions), user);
      EveryRunKeepsLineage(s, Front(actions));
      ActMovesCounter(mid, Last(actions), user);
    }
  }

  /** The bytes of `user` that were superseded since the last recomputation of that user's counter. */
  function Since(s: Store, actions: seq<Action>, user: nat): nat {
    if actions == [] then 0
    else if Last(actions) == RecomputeUsed(user) then 0
    else Since(s, Front(actions), user) + SupersededBy(Run(s, Front(actions)), Last(actions), user)
  }

  /** THE COUNTER, exactly.  In every run, recomputations included, it is the live bytes and the bytes
      superseded since the last recomputation. */
  lemma {:induction false} CounterIsLiveAndSince(s: Store, actions: seq<Action>, user: nat)
    requires s.files == [] && user in s.users && s.users[user].used == 0 && AllBilled(s, actions)
    ensures user in Run(s, actions).users
    ensures Run(s, actions).users[user].used == Live(Run(s, actions).files, user) + Since(s, actions, user)
  {
    if actions != [] {
      var mid, a := Run(s, Front(actions)), Last(actions);
      CounterIsLiveAndSince(s, Front(actions), user);
      EveryRunKeepsLineage(s, Front(actions));
      if !a.RecomputeUsed? { ActMovesCounter(mid, a, user); }
    }
  }

  /** Action `k` superseded bytes of `user`. */
  predicate SupersedesAt(s: Store, actions: seq<Action>, user: nat, k: nat)
    requires k < |actions|
  {
    SupersededBy(Run(s, actions[..k]), actions[k], user) > 0
  }

  /** The counter of `user` was recomputed at step `k` or later. */
  predicate RecomputedFrom(actions: seq<Action>, user: nat, k: nat)
    requires k <= |actions|
  {
    RecomputeUsed(user) in actions[k..]
  }

  lemma RecomputedFromFront(actions: seq<Action>, user: nat, k: nat)
    requires k < |actions|
    ensures RecomputedFrom(actions, user, k) <==>
            RecomputedFrom(Front(actions), user, k) || Last(actions) == RecomputeUsed(user)
  {
    assert actions[k..] == Front(actions)[k..] + [Last(actions)];
  }

  /** Nothing was superseded since the last recomputation exactly if every action that superseded bytes was
      followed by one. */
  lemma {:induction false} NothingSince(s: Store, actions: seq<Action>, user: nat)
    ensures Since(s, actions, user) == 0 <==>
            forall k | 0 <= k < |actions| && SupersedesAt(s, actions, user, k) :: RecomputedFrom(actions, user, k)
  {
    if actions != [] {
      var front, n := Front(actions), |actions| - 1;
      NothingSince(s, front, user);
      assert actions[..n] == front;
      forall k | 0 <= k < n
        ensures SupersedesAt(s, actions, user, k) <==> SupersedesAt(s, front, user, k)
        ensures RecomputedFrom(actions, user, k) <==>
                RecomputedFrom(front, user, k) || Last(actions) == RecomputeUsed(user)
      {
        assert front[..k] == actions[..k];
        RecomputedFromFront(actions, user, k);
      }
      RecomputedFromFront(actions, user, n);
      assert front[n..] == [];
      assert SupersedesAt(s, actions, user, n) <==> SupersededBy(Run(s, front), Last(actions), user) > 0;
    }
  }

  /** Without a recomputation, these are all the superseded bytes. */
  lemma SinceTheStart(s: Store, actions: seq<Action>, user: nat)
    requires s.files == [] && user in s.users && s.users[user].used == 0
    requires AllBilled(s, actions) && NoRecompute(actions)
    ensures
      var t := Run(s, actions);
      Since(s, actions, user) == Superseded(t.files, Links(t.files), user)
  {
    var t := Run(s, actions);
    CounterIsLiveAndSince(s, actions, user);
    EveryRunConserves(s, actions, user);
    HeldIsLiveAndSuperseded(t.files, Links(t.files), user);
  }

  /** RECOMPUTATION.  In every run it takes exactly the bytes superseded since the last one off the counter; so
      the counter is the total of the live files if and only if every action that superseded some of the
      user's bytes was followed by a recomputation. */
  lemma RecomputeForgets(s: Store, actions: seq<Action>, user: nat)
    requires s.files == [] && user in s.users && s.users[user].used == 0 && AllBilled(s, actions)
    ensures
      var t := Run(s, actions);
      && user in t.users
      && Recompute(t, user).users[user].used == t.users[user].used - Since(s, actions, user)
      && Since(s, actions, user) <= Superseded(t.files, Links(t.files), user)
      && (t.users[user].used == Live(t.files, user) <==>
          forall k | 0 <= k < |actions| && SupersedesAt(s, actions, user, k) :: RecomputedFrom(actions, user, k))
  {
    var t := Run(s, actions);
    CounterIsLiveAndSince(s, actions, user);
    EveryRunStaysInQuota(s, actions, user);
    HeldIsLiveAndSuperseded(t.files, Links(t.files), user);
    NothingSince(s, actions, user);
  }

  /** One user, one cloud, nothing stored. */
  function EmptyStore(): Store {
    Store([], map[7 := User(false, 0, 100)], map[1 := Some(7)])
  }

  function UploadOf(size: nat): Action {
    UploadFile(SessionRoute, 7, 1, Given("a.txt"), size)
  }

  function ThreeVersions(): seq<FileRow> {
    [FileRow(1, "a.txt", Some(7), 10, true, None), FileRow(1, "a.txt", Some(7), 20, true, Some(0)),
     FileRow(1, "a.txt", Some(7), 30, false, Some(1))]
  }

  lemma UploadReplaces(s: Store, p: nat, size: nat)
    requires 7 in s.users && 1 in s.clouds && s.clouds[1] == Some(7) && s.users[7].used + size <= s.users[7].quota
    requires p == |s.files| - 1 && s.files[p].owner == Some(7) && s.files[p].cloud == 1 && s.files[p].name == "a.txt"
    requires Matches(s.files, SessionRoute, 7, 1, "a.txt") == [p]
    ensures
      var t := Act(s, UploadOf(size));
      && t.files == Front(s.files) + [Last(s.files).(deleted := true),
                                      FileRow(1, "a.txt", Some(7), size, false, Some(p))]
      && t.users == Charge(s.users, 7, size) && t.clouds == s.clouds
  {
  }

  predicate UploadsOfOneName(actions: seq<Action>) {
    forall a | a in actions :: a.UploadFile? && a.user == 7 && a.name == Given("a.txt")
  }

  lemma OneMoreUpload(before: seq<Action>, size: nat) returns (actions: seq<Action>)
    requires UploadsOfOneName(before)
    ensures UploadsOfOneName(actions) && |actions| == |before| + 1
    ensures Run(EmptyStore(), actions) == Act(Run(EmptyStore(), before), UploadOf(size))
  {
    actions := before + [UploadOf(size)];
    RunLast(EmptyStore(), before, UploadOf(size));
  }

  lemma FirstUpload() returns (s: Store)
    ensures s == Act(EmptyStore(), UploadOf(10))
    ensures s.clouds == map[1 := Some(7)] && s.users == map[7 := User(false, 10, 100)]
    ensures s.files == [FileRow(1, "a.txt", Some(7), 10, false, None)]
    ensures Matches(s.files, SessionRoute, 7, 1, "a.txt") == [0]
  {
    var e := EmptyStore();
    assert Matches(e.files, SessionRoute, 7, 1, "a.txt") == [];
    s := Act(e, UploadOf(10));
    assert Front(s.files) == [];
  }

  lemma SecondUpload(before: Store) returns (s: Store)
    requires before.clouds == map[1 := Some(7)] && before.users == map[7 := User(false, 10, 100)]
    requires before.files == [FileRow(1, "a.txt", Some(7), 10, false, None)]
    requires Matches(before.files, SessionRoute, 7, 1, "a.txt") == [0]
    ensures s == Act(before, UploadOf(20))
    ensures s.clouds == map[1 := Some(7)] && s.users == map[7 := User(false, 30, 100)]
    ensures s.files == ThreeVersions()[..1] + [FileRow(1, "a.txt", Some(7), 20, false, Some(0))]
    ensures Matches(s.files, SessionRoute, 7, 1, "a.txt") == [1]
  {
    s := Act(before, UploadOf(20));
    UploadReplaces(before, 0, 20);
    assert Front(before.files) == [];
    assert Front(s.files) == ThreeVersions()[..1] && Front(ThreeVersions()[..1]) == [];
    assert Matches(ThreeVersions()[..1], SessionRoute, 7, 1, "a.txt") == [];
  }

  /** Uploading a name three times builds a line of three versions and charges for all of them. */
  lemma ThreeUploads() returns (actions: seq<Action>, t: Store)
    ensures |actions| == 3 && UploadsOfOneName(actions) && t == Run(EmptyStore(), actions)
    ensures t.files == ThreeVersions() && t.users == map[7 := User(false, 60, 100)]
  {
    var first := FirstUpload();
    var second := SecondUpload(first);
    t := ThirdUpload(second);
    actions := OneMoreUpload([], 10);
    actions := OneMoreUpload(actions, 20);
    actions := OneMoreUpload(actions, 30);
  }

  lemma RunLast(s: Store, actions: seq<Action>, a: Action)
    ensures Run(s, actions + [a]) == Act(Run(s, actions), a)
  {
    assert Front(actions + [a]) == actions;
  }

  lemma ThirdUpload(before: Store) returns (s: Store)
    requires before.files == ThreeVersions()[..1] + [FileRow(1, "a.txt", Some(7), 20, false, Some(0))]
    requires before.users == map[7 := User(false, 30, 100)] && before.clouds == map[1 := Some(7)]
    requires Matches(before.files, SessionRoute, 7, 1, "a.txt") == [1]
    ensures s == Act(before, UploadOf(30)) && s.files == ThreeVersions() && s.users == map[7 := User(false, 60, 100)]
  {
    s := Act(before, UploadOf(30));
    UploadReplaces(before, 1, 30);
    assert Front(before.files) == ThreeVersions()[..1];
    assert Charge(before.users, 7, 30) == map[7 := User(false, 60, 100)];
  }

  lemma {:induction false} UploadsAreBilled(s: Store, actions: seq<Action>)
    requires forall a | a in actions :: a.UploadFile?
    ensures AllBilled(s, actions) && NoRecompute(actions)
  {
    if actions != [] {
      assert Last(actions) in actions && forall a | a in Front(actions) :: a in actions;
      UploadsAreBilled(s, Front(actions));
    }
  }

  /** Uploads charge for what they supersede, and a recomputation then forgets it. */
  lemma UploadsThenRecompute(s: Store, actions: seq<Action>, user: nat)
    requires s.files == [] && user in s.users && s.users[user].used == 0
    requires forall a | a in actions :: a.UploadFile?
    ensures
      var t := Run(s, actions);
      var u := Run(s, actions + [RecomputeUsed(user)]);
      && user in t.users && t.users[user].used == Live(t.files, user) + Superseded(t.files, Links(t.files), user)
      && user in u.users && u.users[user].used == Live(u.files, user) && u.files == t.files
  {
    var t := Run(s, actions);
    UploadsAreBilled(s, actions);
    EveryRunConserves(s, actions, user);
    HeldIsLiveAndSuperseded(t.files, Links(t.files), user);
    RunLast(s, actions, RecomputeUsed(user));
  }

  /** The counter is not the total of the live files: after three uploads of one name it is twice that.  A
      recomputation drops it to the live version, and then it agrees although 30 bytes are superseded. */
  lemma CounterKeepsSuperseded() returns (actions: seq<Action>, t: Store, u: Store)
    ensures |actions| == 3 && UploadsOfOneName(actions)
    ensures t == Run(EmptyStore(), actions) && 7 in t.users && t.users[7].used == 60 && Live(t.files, 7) == 30
    ensures u == Run(EmptyStore(), actions + [RecomputeUsed(7)]) && 7 in u.users
    ensures u.users[7].used == 30 == Live(u.files, 7) && Superseded(u.files, Links(u.files), 7) == 30
  {
    actions, t := ThreeUploads();
    u := Run(EmptyStore(), actions + [RecomputeUsed(7)]);
    LiveOfThree();
    UploadsThenRecompute(EmptyStore(), actions, 7);
  }

  lemma BytesAdd(files: seq<FileRow>, f: FileRow, links: set<nat>, user: nat)
    ensures Bytes(files + [f], links, user) == Bytes(files, links, user) + Weight(f, |files| in links, user)
  {
    assert Front(files + [f]) == files;
  }

  lemma LiveOfThree()
    ensures Live(ThreeVersions(), 7) == 30
  {
    var files := ThreeVersions();
    BytesAdd([], files[0], {}, 7);
    BytesAdd([] + [files[0]], files[1], {}, 7);
    BytesAdd([] + [files[0]] + [files[1]], files[2], {}, 7);
    assert [] + [files[0]] + [files[1]] + [files[2]] == files;
  }

  // ---------------------------------------------------------------- the versions of a file

  /** The walk back along the links, the row itself first. */
  ghost function Back(files: seq<FileRow>, id: nat): (r: seq<nat>)
    requires Lineage(files) && id < |files|
    ensures r != [] && r[0] == id
    decreases id
  {
    if files[id].replacesId.None? then [id]
    else
      assert LinkFits(files, id);
      [id] + Back(files, files[id].replacesId.value)
  }

  /** The row that replaces `id`. */
  function Successor(files: seq<FileRow>, id: nat): Option<nat> {
    if files == [] then None
    else if Last(files).replacesId == Some(id) then Some(|files| - 1)
    else Successor(Front(files), id)
  }

  lemma {:induction false} SuccessorLinks(files: seq<FileRow>, id: nat)
    ensures
      match Successor(files, id)
      case Some(j) => j < |files| && files[j].replacesId == Some(id)
      case None => forall i | 0 <= i < |files| :: files[i].replacesId != Some(id)
  {
    if files != [] && Last(files).replacesId != Some(id) {
      SuccessorLinks(Front(files), id);
      forall i | 0 <= i < |files| && Successor(files, id).None? ensures files[i].replacesId != Some(id) {
        assert i < |files| - 1 ==> Front(files)[i] == files[i];
      }
    }
  }

  lemma SuccessorIsOnly(files: seq<FileRow>, id: nat, j: nat)
    requires Lineage(files) && j < |files| && files[j].replacesId == Some(id)
    ensures Successor(files, id) == Some(j) && id < j
  {
    SuccessorLinks(files, id);
    assert LinkFits(files, j);
  }

  lemma SuccessorIsLater(files: seq<FileRow>, id: nat)
    requires Lineage(files)
    ensures Successor(files, id).Some? ==> id < Successor(files, id).value < |files|
  {
    SuccessorLinks(files, id);
    if Successor(files, id).Some? { assert LinkFits(files, Successor(files, id).value); }
  }

  /** What the endpoint answers: one step forward, then all the way back. */
  ghost function Versions(files: seq<FileRow>, id: nat): seq<nat>
    requires Lineage(files) && id < |files|
  {
    if Successor(files, id).Some? then [Successor(files, id).value] + Back(files, id) else Back(files, id)
  }

  /** The newest version in the line of `id`. */
  ghost function Newest(files: seq<FileRow>, id: nat): (r: nat)
    requires Lineage(files) && id < |files|
    ensures r < |files|
    decreases |files| - id
  {
    SuccessorIsLater(files, id);
    if Successor(files, id).None? then id else Newest(files, Successor(files, id).value)
  }

  /** Ids fall, each row replaces the next, and the last one replaces nothing. */
  ghost predicate Chain(files: seq<FileRow>, ids: seq<nat>) {
    && (forall k | 0 <= k < |ids| :: ids[k] < |files|)
    && (forall k | 0 <= k < |ids| - 1 :: ids[k + 1] < ids[k] && files[ids[k]].replacesId == Some(ids[k + 1]))
    && (ids != [] ==> files[Last(ids)].replacesId.None?)
  }

  lemma {:induction false} BackIsChain(files: seq<FileRow>, id: nat)
    requires Lineage(files) && id < |files|
    ensures Chain(files, Back(files, id))
    decreases id
  {
    if files[id].replacesId.Some? {
      assert LinkFits(files, id);
      BackIsChain(files, files[id].replacesId.value);
    }
  }

  lemma ChainPrepend(files: seq<FileRow>, j: nat, ids: seq<nat>)
    requires Chain(files, ids) && ids != [] && ids[0] < j < |files| && files[j].replacesId == Some(ids[0])
    ensures Chain(files, [j] + ids)
  {
    var all := [j] + ids;
    forall k | 0 <= k < |all| - 1
      ensures all[k + 1] < all[k] < |files| && files[all[k]].replacesId == Some(all[k + 1])
    {
      assert k > 0 ==> all[k] == ids[k - 1] && all[k + 1] == ids[k - 1 + 1];
    }
  }

  /** THE ANSWER IS A CHAIN, newest first: ids fall strictly, each row replaces the next, the oldest
      replaces nothing, and the requested row is in it. */
  lemma VersionsAreAChain(files: seq<FileRow>, id: nat)
    requires Lineage(files) && id < |files|
    ensures Chain(files, Versions(files, id)) && id in Versions(files, id)
  {
    BackIsChain(files, id);
    SuccessorLinks(files, id);
    SuccessorIsLater(files, id);
    var back := Back(files, id);
    assert back[0] in back;
    if Successor(files, id).Some? { ChainPrepend(files, Successor(files, id).value, back); }
  }

  /** Every row of a walk leads forward to the same newest row. */
  lemma {:induction false} WalkSharesNewest(files: seq<FileRow>, id: nat, v: nat)
    requires Lineage(files) && id < |files| && v in Back(files, id)
    ensures v < |files| && Newest(files, v) == Newest(files, id)
    decreases id
  {
    if v != id {
      var p := files[id].replacesId.value;
      assert LinkFits(files, id);
      SuccessorIsOnly(files, p, id);
      WalkSharesNewest(files, p, v);
    }
  }

  lemma {:induction false} WalkReaches(files: seq<FileRow>, id: nat)
    requires Lineage(files) && id < |files|
    ensures id <= Newest(files, id) && id in Back(files, Newest(files, id))
    ensures Successor(files, Newest(files, id)).None?
    decreases |files| - id
  {
    var j := Successor(files, id);
    SuccessorIsLater(files, id);
    if j.Some? {
      SuccessorLinks(files, id);
      WalkReaches(files, j.value);
      BackContinues(files, Newest(files, id), j.value);
    }
  }

  lemma {:induction false} BackContinues(files: seq<FileRow>, top: nat, v: nat)
    requires Lineage(files) && top < |files| && v in Back(files, top) && v < |files| && files[v].replacesId.Some?
    ensures files[v].replacesId.value in Back(files, top)
    decreases top
  {
    if v == top {
      assert LinkFits(files, top);
      assert Back(files, top)[1] == files[v].replacesId.value;
    } else {
      assert LinkFits(files, top);
      BackContinues(files, files[top].replacesId.value, v);
    }
  }

  /** The whole line of a file: the walk back from its newest version.  It is the class of rows that
      lead to one newest version. */
  lemma HistoryIsAClass(files: seq<FileRow>, id: nat, v: nat)
    requires Lineage(files) && id < |files| && v < |files|
    ensures v in Back(files, Newest(files, id)) <==> Newest(files, v) == Newest(files, id)
  {
    WalkReaches(files, id);
    WalkReaches(files, v);
    if v in Back(files, Newest(files, id)) {
      WalkSharesNewest(files, Newest(files, id), v);
      assert Newest(files, Newest(files, id)) == Newest(files, id);
    }
  }

  lemma BackFromSuccessor(files: seq<FileRow>, id: nat, j: nat)
    requires Lineage(files) && id < |files| && Successor(files, id) == Some(j)
    ensures id < j < |files| && Versions(files, id) == Back(files, j)
  {
    SuccessorLinks(files, id);
    SuccessorIsLater(files, id);
  }

  /** THE ANSWER IS THE WHOLE LINE if and only if the requested row has at most one newer version. */
  lemma CompleteIffNearlyNewest(files: seq<FileRow>, id: nat)
    requires Lineage(files) && id < |files|
    ensures Versions(files, id) == Back(files, Newest(files, id)) <==>
            Successor(files, id).None? || Successor(files, Successor(files, id).value).None?
  {
    if Successor(files, id).Some? {
      var j := Successor(files, id).value;
      BackFromSuccessor(files, id, j);
      WalkReaches(files, j);
      if Successor(files, j).Some? {
        SuccessorIsLater(files, j);
        WalkReaches(files, Successor(files, j).value);
        assert Back(files, j)[0] != Back(files, Newest(files, j))[0];
      }
    }
  }

  // ---------------------------------------------------------------- the service

  class FileService {
    var files: seq<FileRow>
    var users: map<nat, User>
    const clouds: map<nat, Option<nat>>
    // How many messages uploads have left in the chats.
    var messages: nat

    constructor (users: map<nat, User>, clouds: map<nat, Option<nat>>)
      ensures State() == Store([], users, clouds) && messages == 0
    {
      files, messages := [], 0;
      this.users := users;
      this.clouds := clouds;
    }

    function State(): Store
      reads this
    {
      Store(files, users, clouds)
    }

    /** `assert_can_store`: the refusal, if any. */
    method AssertCanStore(user: nat, size: nat) returns (r: Option<FileError>)
      ensures user !in users ==> r == Some(UserMissing)
      ensures user in users ==>
        (r == None <==> users[user].used + size <= users[user].quota) &&
        (r.Some? ==> r.value == QuotaExceeded(users[user].used, users[user].quota, size))
    {
      if user !in users {
        return Some(UserMissing);
      }
      var u := users[user];
      if u.used + size > u.quota {
        return Some(QuotaExceeded(u.used, u.quota, size));
      }
      return None;
    }

    method IncrementUsed(user: nat, delta: int)
      modifies this`users
      ensures users == Charge(old(users), user, delta)
    {
      if delta != 0 && user in users {
        users := users[user := users[user].(used := users[user].used + delta)];
      } else if user in users {
        assert users[user := users[user].(used := users[user].used + 0)] == users;
      }
    }

    /** Check, send, then write the row and charge for it.  The message goes out before the rows are looked
        at, so an ambiguous upload is refused with its message left behind. */
    method UploadFile(route: Route, user: nat, cloud: nat, name: Name, file: Incoming, size: nat, delivered: bool)
      returns (r: Result<nat, FileError>)
      modifies this
      ensures
        if CloudRefusal(old(State()), route, user, cloud).None? && Screened(route, file, size).Some? then
          r == Failure(Screened(route, file, size).value) && State() == old(State())
        else if Refusal(old(State()), route, user, cloud, size).None? && !delivered then
          r == Failure(UploadFailed) && State() == old(State())
        else
          match Upload(old(State()), route, user, cloud, name, size)
          case Failure(e) => r == Failure(e) && State() == old(State())
          case Success(s) => r == Success(|old(files)|) && State() == s
      ensures messages == old(messages) + if r.Success? || r.error == MultipleResults then 1 else 0
    {
      var refusal := CloudRefusal(State(), route, user, cloud);
      if refusal.Some? {
        return Failure(refusal.value);
      }
      if file.received > file.limit {
        return Failure(FileTooLarge);
      }
      if route.SessionRoute? && file.forged {
        return Failure(SignatureInvalid);
      }
      if route.StorageKeyRoute? && size > file.limit {
        return Failure(FileTooLarge);
      }
      var full := AssertCanStore(user, size);
      if full.Some? {
        return Failure(full.value);
      }
      if !delivered {
        return Failure(UploadFailed);
      }
      messages := messages + 1;
      var prior := Prior(files, route, user, cloud, name);
      if |prior| > 1 {
        return Failure(MultipleResults);
      }
      var replaced := None;
      if |prior| == 1 {
        var prev := files[prior[0]];
        if users[user].admin || prev.owner == Some(user) {
          files := files[prior[0] := prev.(deleted := true)];
          replaced := Some(prior[0]);
        }
      }
      files := files + [FileRow(cloud, name.text, Some(user), size, false, replaced)];
      IncrementUsed(user, size);
      return Success(|files| - 1);
    }

    method DeleteFile(route: Route, user: nat, cloud: nat, id: nat) returns (r: Option<FileError>)
      modifies this`files, this`users
      ensures
        match Delete(old(State()), route, user, cloud, id)
        case Failure(e) => r == Some(e) && State() == old(State())
        case Success(s) => r == None && State() == s
    {
      if !MayDelete(State(), route, user, cloud, id) {
        return Some(NotFound);
      }
      var row := files[id];
      files := files[id := row.(deleted := true)];
      if row.owner.Some? {
        var released: int := row.size;
        IncrementUsed(row.owner.value, -released);
      }
      return None;
    }

    /** Sums the live rows of the user and stores the sum. */
    method RecomputeUsed(user: nat) returns (total: nat)
      modifies this`users
      ensures total == Live(files, user) && State() == Recompute(old(State()), user)
    {
      total := 0;
      var i := 0;
      while i < |files|
        invariant 0 <= i <= |files|
        invariant total == Live(files[..i], user)
      {
        assert Front(files[..i + 1]) == files[..i];
        if files[i].owner == Some(user) && !files[i].deleted {
          total := total + files[i].size;
        }
        i := i + 1;
      }
      assert files[..i] == files;
      if user in users {
        users := users[user := users[user].(used := total)];
      }
    }

    /** Walks back along the links, then takes the one step forward. */
    method ListVersions(user: nat, id: nat) returns (r: Result<seq<nat>, FileError>)
      requires Lineage(files)
      ensures r.Failure? <==> user !in users || id >= |files| || !(users[user].admin || files[id].owner == Some(user))
      ensures r.Failure? ==> r.error == NotFound
      ensures r.Success? ==> r.value == Versions(files, id)
    {
      if user !in users || id >= |files| || (!users[user].admin && files[id].owner != Some(user)) {
        return Failure(NotFound);
      }
      var chain := WalkBack(id);
      chain := StepForward(id, chain);
      return Success(chain);
    }

    /** Follows the links from `id` to the oldest version. */
    method WalkBack(id: nat) returns (chain: seq<nat>)
      requires Lineage(files) && id < |files|
      ensures chain == Back(files, id)
    {
      chain := [id];
      var cursor := id;
      while files[cursor].replacesId.Some?
        invariant cursor < |files| && chain != [] && Last(chain) == cursor
        invariant Front(chain) + Back(files, cursor) == Back(files, id)
        decreases cursor
      {
        assert LinkFits(files, cursor);
        var prev := files[cursor].replacesId.value;
        assert Front(chain + [prev]) + Back(files, prev) == Front(chain) + Back(files, cursor);
        chain := chain + [prev];
        cursor := prev;
      }
      assert chain == Back(files, id);
    }

    /** Puts the rows that replace `id` in front; there is at most one. */
    method StepForward(id: nat, back: seq<nat>) returns (chain: seq<nat>)
      requires Lineage(files) && id < |files| && back == Back(files, id)
      ensures chain == Versions(files, id)
    {
      chain := back;
      SuccessorLinks(files, id);
      var j := 0;
      while j < |files|
        invariant 0 <= j <= |files|
        invariant chain ==
          if Successor(files, id).Some? && Successor(files, id).value < j then Versions(files, id) else Back(files, id)
      {
        if files[j].replacesId == Some(id) {
          SuccessorIsOnly(files, id, j);
          NotInBack(files, id, j);
          if j !in chain {
            chain := [j] + chain;
          }
        }
        j := j + 1;
      }
    }
  }

  lemma {:induction false} NotInBack(files: seq<FileRow>, id: nat, j: nat)
    requires Lineage(files) && id < |files| && id < j
    ensures j !in Back(files, id)
    decreases id
  {
    if files[id].replacesId.Some? {
      assert LinkFits(files, id);
      NotInBack(files, files[id].replacesId.value, j);
    }
  }

  /** After three uploads of one name, the answer for the oldest version leaves out the newest. */
  lemma NewestCanBeMissing() returns (actions: seq<Action>, files: seq<FileRow>)
    ensures |actions| == 3 && UploadsOfOneName(actions) && files == Run(EmptyStore(), actions).files
    ensures Lineage(files) && |files| == 3
    ensures Versions(files, 0) == [1, 0] && Newest(files, 0) == 2 && Back(files, 2) == [2, 1, 0]
  {
    var t;
    actions, t := ThreeUploads();
    files := t.files;
    OldestOfThree();
  }

  lemma OldestOfThree()
    ensures
      var files := ThreeVersions();
      && Lineage(files) && Versions(files, 0) == [1, 0] && Newest(files, 0) == 2 && Back(files, 2) == [2, 1, 0]
  {
    var files := ThreeVersions();
    assert LinkFits(files, 1) && LinkFits(files, 2);
    SuccessorIsOnly(files, 0, 1);
    SuccessorIsOnly(files, 1, 2);
    SuccessorLinks(files, 2);
  }
}
