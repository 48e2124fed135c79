/** Who may upload and delete files and what either does, said of rows and counters. */
module FileRules {
  import opened Prelude
  import opened Files

  /** Every other row is as it was. */
  predicate OthersStay(before: seq<FileRow>, after: seq<FileRow>, id: nat) {
    |before| <= |after| && forall i | 0 <= i < |before| && i != id :: after[i] == before[i]
  }

  /** WHO MAY DELETE.  In a session the owner of the row or an admin; with a storage key the key's user, its own
      rows in the key's cloud; and only rows that are live.  Everybody else is told that there is none. */
  lemma WhoMayDelete(s: Store, route: Route, user: nat, cloud: nat, id: nat)
    requires user in s.users
    ensures Delete(s, route, user, cloud, id).Success? <==>
      && id < |s.files| && !s.files[id].deleted
      && (route.SessionRoute? ==> s.users[user].admin || s.files[id].owner == Some(user))
      && (route.StorageKeyRoute? ==> s.files[id].owner == Some(user) && s.files[id].cloud == cloud)
    ensures Delete(s, route, user, cloud, id).Failure? ==> Delete(s, route, user, cloud, id) == Failure(NotFound)
  {
  }

  /** WHAT A DELETE DOES: the row is deleted and otherwise as it was, its owner's counter falls by its size, and
      nothing else changes. */
  lemma WhatDeleteDoes(s: Store, route: Route, user: nat, cloud: nat, id: nat, who: nat)
    requires Delete(s, route, user, cloud, id).Success? && who in s.users
    ensures
      var t := Delete(s, route, user, cloud, id).value;
      && id < |s.files| && |t.files| == |s.files| && OthersStay(s.files, t.files, id)
      && t.files[id].deleted && t.files[id] == s.files[id].(deleted := true)
      && who in t.users && t.users[who].quota == s.users[who].quota && t.users[who].admin == s.users[who].admin
      && t.users[who].used == s.users[who].used - (if s.files[id].owner == Some(who) then s.files[id].size else 0)
  {
  }

  /** WHO MAY UPLOAD.  To a cloud that exists, its owner, or in a session an admin; and only if the counter and
      the size stay within the quota. */
  lemma WhoMayUpload(s: Store, route: Route, user: nat, cloud: nat, name: Name, size: nat)
    ensures Upload(s, route, user, cloud, name, size).Success? ==>
      && user in s.users && cloud in s.clouds
      && (s.clouds[cloud] == Some(user) || (route.SessionRoute? && s.users[user].admin))
      && s.users[user].used + size <= s.users[user].quota
    ensures user in s.users && cloud in s.clouds && s.clouds[cloud] == Some(user)
            && s.users[user].used + size <= s.users[user].quota
            && |Prior(s.files, route, user, cloud, name)| <= 1
            ==> Upload(s, route, user, cloud, name, size).Success?
    ensures user in s.users && cloud in s.clouds && s.clouds[cloud] != Some(user)
            && (route.StorageKeyRoute? || !s.users[user].admin)
            ==> Upload(s, route, user, cloud, name, size) == Failure(NotFound)
    ensures user in s.users && cloud !in s.clouds
            ==> Upload(s, route, user, cloud, name, size) == Failure(NotFound)
  {
  }

  /** The row is a live one of the cloud with that name; for a storage key, the user's own. */
  predicate SameFile(f: FileRow, route: Route, user: nat, cloud: nat, name: string) {
    && !f.deleted && f.cloud == cloud && f.name == name
    && match route
       case SessionRoute => true
       case StorageKeyRoute => f.owner == Some(user)
  }

  lemma PriorExactly(files: seq<FileRow>, route: Route, user: nat, cloud: nat, name: Name, i: nat)
    requires i < |files|
    ensures i in Prior(files, route, user, cloud, name) <==>
            name.Given? && SameFile(files[i], route, user, cloud, name.text)
  {
    if name.Given? { MatchesMembers(files, route, user, cloud, name.text, i); }
  }

  /** WHAT AN UPLOAD DOES: a new live row of the uploader, with the size that is charged.  It supersedes a row
      exactly if it links to it: the one live row of that name, if the uploader owns it or is an admin.  That row
      is deleted and otherwise as it was; nothing else changes, but the uploader's counter. */
  lemma WhatUploadDoes(s: Store, route: Route, user: nat, cloud: nat, name: Name, size: nat, who: nat)
    requires Upload(s, route, user, cloud, name, size).Success? && who in s.users
    ensures
      var t := Upload(s, route, user, cloud, name, size).value;
      var row, link := Last(t.files), Last(t.files).replacesId;
      && |t.files| == |s.files| + 1 && OthersStay(s.files, t.files, if link.Some? then link.value else |s.files|)
      && row.cloud == cloud && row.name == name.text && row.owner == Some(user) && row.size == size && !row.deleted
      && (link.Some? ==>
            && name.Given? && link.value < |s.files| && SameFile(s.files[link.value], route, user, cloud, name.text)
            && (s.users[user].admin || s.files[link.value].owner == Some(user))
            && t.files[link.value] == s.files[link.value].(deleted := true))
      && (link.None? ==> forall i | 0 <= i < |s.files| && name.Given? ::
            SameFile(s.files[i], route, user, cloud, name.text) ==>
              !s.users[user].admin && s.files[i].owner != Some(user))
      && who in t.users && t.users[who].quota == s.users[who].quota && t.users[who].admin == s.users[who].admin
      && t.users[who].used == s.users[who].used + (if who == user then size else 0)
  {
    var prior := Prior(s.files, route, user, cloud, name);
    if |prior| == 1 { PriorExactly(s.files, route, user, cloud, name, prior[0]); }
    forall i | 0 <= i < |s.files|
      ensures i in prior <==> name.Given? && SameFile(s.files[i], route, user, cloud, name.text)
    {
      PriorExactly(s.files, route, user, cloud, name, i);
    }
    if |prior| == 1 { assert forall i | i in prior :: i == prior[0]; }
  }

  /** THE LIVE TOTAL: a row counts with its size exactly if it is live and the user's. */
  lemma LiveTotal(files: seq<FileRow>, f: FileRow, user: nat)
    ensures Live([], user) == 0
    ensures Live(files + [f], user) == Live(files, user) + if f.owner == Some(user) && !f.deleted then f.size else 0
  {
    BytesAdd(files, f, {}, user);
  }

  /** WHAT IS REFUSED ON SIGHT: a file above the limit as it arrives, on either route; in a session a signature
      that does not verify; with a storage key a file that is above the limit after compression. */
  lemma RefusedOnSight(route: Route, file: Incoming, size: nat)
    ensures Screened(route, file, size).None? <==>
      && file.received <= file.limit
      && (route.SessionRoute? ==> !file.forged)
      && (route.StorageKeyRoute? ==> size <= file.limit)
    ensures Screened(route, file, size) == Some(SignatureInvalid) <==>
            route.SessionRoute? && file.forged && file.received <= file.limit
    ensures Screened(route, file, size).Some? ==>
            Screened(route, file, size).value == FileTooLarge || Screened(route, file, size).value == SignatureInvalid
  {
  }
}
