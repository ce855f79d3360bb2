/** The transactions of the file store, statement by statement. */
module StoreTransactions {
  import opened BlobRefs
  import opened BlobStore
  import opened Lists
  import opened Options
  import opened Rows
  import opened Sums

  datatype UploadCommit = UploadCommit(fileID: string, versioned: bool, newVersionNo: nat, deduped: bool)

  datatype Error = FolderNotFound | NotFound | QuotaExceeded | Io | Malformed

  datatype Result<T> = Ok(value: T) | Err(error: Error)

  // Where the disk or the database lets a transaction down.
  datatype Fault = NoFault | AtRename | AtCommit

  // A disk move to reverse when the transaction does not commit.
  datatype Undo = Undo(from: string, to: string)

  function Undone(disk: Disk, undos: seq<Undo>): Disk
    decreases |undos|
  {
    if undos == [] then disk
    else Undone(Rename(disk, undos[|undos| - 1].to, undos[|undos| - 1].from), undos[..|undos| - 1])
  }

  // ---- ORDER BY version_no DESC ----

  ghost predicate NewestFirst(versions: Versions, s: seq<string>) {
    && (forall v :: v in s ==> v in versions)
    && forall i, j :: 0 <= i < j < |s| ==> versions[s[i]].no > versions[s[j]].no
  }

  lemma {:induction false} NewestExists(versions: Versions, todo: set<string>)
    requires todo != {} && todo <= versions.Keys
    ensures exists v :: v in todo && forall w :: w in todo ==> versions[w].no <= versions[v].no
    decreases todo
  {
    var x :| x in todo;
    if todo == {x} {
      assert forall w :: w in todo ==> versions[w].no <= versions[x].no;
    } else {
      NewestExists(versions, todo - {x});
      var v :| v in todo - {x} && forall w :: w in todo - {x} ==> versions[w].no <= versions[v].no;
      var best := if versions[v].no >= versions[x].no then v else x;
      assert best in todo && forall w :: w in todo ==> versions[w].no <= versions[best].no;
    }
  }

  // The i-th newest version has i newer ones, so what lies past `keep` is the excess.
  lemma TailIsExcess(versions: Versions, file: string, s: seq<string>, keep: nat)
    requires NewestFirst(versions, s) && keep <= |s|
    requires Elements(s) == VersionsOf(versions, {file})
    ensures Distinct(s) && Elements(s[keep..]) == Excess(versions, file, keep)
  {
    forall i | 0 <= i < |s| ensures |Newer(versions, s[i])| == i {
      assert s[i] in Elements(s);
      forall w ensures w in Newer(versions, s[i]) <==> w in Elements(s[..i]) {
        if w in Newer(versions, s[i]) { assert w in Elements(s); }
        if w in Elements(s[..i]) { assert w in Elements(s); }
      }
      assert Newer(versions, s[i]) == Elements(s[..i]);
      DistinctSize(s[..i]);
    }
    forall v ensures v in Elements(s[keep..]) <==> v in Excess(versions, file, keep) {
      if v in Excess(versions, file, keep) {
        assert v in Elements(s);
        var i :| 0 <= i < |s| && s[i] == v;
        assert s[keep..][i - keep] == v;
      }
      if v in Elements(s[keep..]) {
        var i :| 0 <= i < |s[keep..]| && s[keep..][i] == v;
        assert s[keep + i] == v && v in Elements(s);
      }
    }
  }

  lemma FewHaveNoExcess(versions: Versions, file: string, s: seq<string>, keep: nat)
    requires NewestFirst(versions, s) && |s| <= keep
    requires Elements(s) == VersionsOf(versions, {file})
    ensures Excess(versions, file, keep) == {}
  {
    TailIsExcess(versions, file, s, 0);
    forall v | v in Excess(versions, file, keep) ensures false {
      assert v in Elements(s);
      var i :| 0 <= i < |s| && s[i] == v;
      assert Newer(versions, v) <= Elements(s[..i]) by {
        forall w | w in Newer(versions, v) ensures w in Elements(s[..i]) {
          assert w in Elements(s);
          var j :| 0 <= j < |s| && s[j] == w;
          assert s[..i][j] == w;
        }
      }
      DistinctSize(s[..i]);
      SubsetSize(Newer(versions, v), Elements(s[..i]));
    }
  }

  // Of a file's versions as many as the limit allows are left, the newest ones, and those of other files all.
  ghost predicate NewestKept(all: Versions, left: Versions, file: string, limit: nat) {
    var had, kept := (set v | v in all && all[v].file == file), (set v | v in left && left[v].file == file);
    && kept <= had && |kept| == (if |had| <= limit then |had| else limit)
    && (forall v, w | v in kept && w in had - kept :: all[v].no > all[w].no)
    && left.Keys <= all.Keys && (forall v | v in left :: left[v] == all[v])
    && forall v | v in all && all[v].file != file :: v in left
  }

  lemma NewestInFront(versions: Versions, v: string, rest: seq<string>)
    requires NewestFirst(versions, rest) && v in versions
    requires forall w | w in Elements(rest) :: versions[w].no < versions[v].no
    ensures NewestFirst(versions, [v] + rest) && Elements([v] + rest) == {v} + Elements(rest)
  {
    forall i | 0 <= i < |rest| ensures versions[rest[i]].no < versions[v].no { assert rest[i] in Elements(rest); }
  }

  lemma {:induction false} SortedVersions(versions: Versions, ids: set<string>) returns (s: seq<string>)
    requires DistinctNumbers(versions) && ids <= versions.Keys
    requires forall v, w | v in ids && w in ids :: versions[v].file == versions[w].file
    ensures NewestFirst(versions, s) && Elements(s) == ids
    decreases ids
  {
    if ids == {} {
      s := [];
    } else {
      NewestExists(versions, ids);
      var v :| v in ids && forall w :: w in ids ==> versions[w].no <= versions[v].no;
      var rest := SortedVersions(versions, ids - {v});
      s := [v] + rest;
      NewestInFront(versions, v, rest);
    }
  }

  lemma HeadIsNewest(versions: Versions, s: seq<string>, keep: nat) returns (kept: set<string>, gone: set<string>)
    requires NewestFirst(versions, s) && keep <= |s| && Distinct(s)
    ensures kept == Elements(s[..keep]) && gone == Elements(s[keep..]) && |kept| == keep
    ensures kept !! gone && Elements(s) == kept + gone
    ensures forall v, w | v in kept && w in gone :: versions[v].no > versions[w].no
  {
    kept, gone := Elements(s[..keep]), Elements(s[keep..]);
    Parted(s, keep);
    forall v, w | v in kept && w in gone ensures versions[v].no > versions[w].no {
      var i, j :| 0 <= i < keep && s[i] == v && keep <= j < |s| && s[j] == w;
    }
  }

  lemma PrunedTo(all: Versions, file: string, kept: set<string>, gone: set<string>)
    requires VersionsOf(all, {file}) == kept + gone && kept !! gone
    requires forall v, w | v in kept && w in gone :: all[v].no > all[w].no
    ensures NewestKept(all, all - gone, file, |kept|)
  {
    var left := all - gone;
    assert (set v | v in all && all[v].file == file) == kept + gone;
    assert (set v | v in left && left[v].file == file) == kept;
    SubsetSize(kept, kept + gone);
    if |kept + gone| <= |kept| { assert gone == {} by { assert |kept + gone| == |kept| + |gone|; } }
  }

  lemma ManyVersionsPruned(all: Versions, file: string, s: seq<string>, limit: nat)
    requires NewestFirst(all, s) && Elements(s) == VersionsOf(all, {file}) && limit < |s|
    ensures NewestKept(all, all - Excess(all, file, limit), file, limit)
  {
    TailIsExcess(all, file, s, limit);
    var kept, gone := HeadIsNewest(all, s, limit);
    PrunedTo(all, file, kept, gone);
  }

  lemma FewVersionsKept(all: Versions, file: string, s: seq<string>, limit: nat)
    requires NewestFirst(all, s) && Elements(s) == VersionsOf(all, {file}) && |s| <= limit
    ensures NewestKept(all, all - Excess(all, file, limit), file, limit)
  {
    TailIsExcess(all, file, s, 0);
    DistinctSize(s);
    FewHaveNoExcess(all, file, s, limit);
    assert all - {} == all && (set v | v in all && all[v].file == file) == Elements(s);
  }

  lemma ExcessIsOldest(all: Versions, file: string, limit: nat)
    requires DistinctNumbers(all)
    ensures NewestKept(all, all - Excess(all, file, limit), file, limit)
  {
    var s := SortedVersions(all, VersionsOf(all, {file}));
    if |s| <= limit { FewVersionsKept(all, file, s, limit); } else { ManyVersionsPruned(all, file, s, limit); }
  }

  // The versions of a file whose content is replaced: the old content becomes one, and the oldest go.
  lemma ReplacingKeepsNewest(s: State, up: Upload, e: string, no: nat, limit: nat)
    requires DistinctNumbers(s.versions) && NextNumber(s.versions, e, no) && e in s.files
    ensures var all := s.versions[up.versionID := Snapshot(s.files[e], e, up, no)];
            NewestKept(s.versions[up.versionID := Version(e, no, s.files[e].blob.(hash := ""), up.uploader)],
              all - Excess(all, e, limit), e, limit)
  {
    var all := s.versions[up.versionID := Snapshot(s.files[e], e, up, no)];
    assert DistinctNumbers(all);
    ExcessIsOldest(all, e, limit);
  }

  lemma UploadKeepsNewest(s: State, up: Upload, a: Answers, maxVersions: int, h: Digest)
    requires Inv(s, h) && Prepared(s, up, h) && Answered(s, up, a)
    ensures var s' := Uploaded(s, up, a, Cap(maxVersions));
            if a.existing.None? || SameContent(s.files, up, a.existing) then s'.versions == s.versions
            else NewestKept(s.versions[up.versionID := Version(a.existing.value, a.versionNo,
                     s.files[a.existing.value].blob.(hash := ""), up.uploader)],
                   s'.versions, a.existing.value, if maxVersions > 0 then maxVersions else 10)
  {
    if a.existing.Some? && !SameContent(s.files, up, a.existing) {
      ReplacingKeepsNewest(s, up, a.existing.value, a.versionNo, if maxVersions > 0 then maxVersions else 10);
    }
  }

  class Store {
    var files: Files
    var versions: Versions
    var refs: Refs
    var disk: Disk
    var users: Accounts
    const h: Digest

    constructor (h: Digest, users: Accounts)
      ensures this.h == h && Now() == State(map[], map[], map[], map[], users) && Inv(Now(), h)
    {
      this.h := h;
      files, versions, refs, disk, this.users := map[], map[], map[], map[], users;
    }

    ghost function Now(): State
      reads this
    {
      State(files, versions, refs, disk, users)
    }

    // ---- reference counts and quota ----

    method AcquireBlobRef(path: string)
      modifies this`refs
      ensures refs == Inc(old(refs), path)
    {
      if path in refs {
        refs := refs[path := refs[path] + 1];
      } else {
        refs := refs[path := 1];
      }
    }

    method ReleaseBlobRef(path: string) returns (gone: bool)
      modifies this`refs
      ensures refs == Dec(old(refs), path) && gone == (path !in refs)
    {
      if path !in refs { return true; }
      if refs[path] <= 1 {
        refs := refs - {path};
        return true;
      }
      refs := refs[path := refs[path] - 1];
      gone := false;
    }

    method ReserveQuota(user: string, size: nat) returns (ok: bool)
      modifies this`users
      ensures ok == Fits(old(users), user, size) && users == Reserved(old(users), user, size)
    {
      if user !in users || users[user].used + size > users[user].quota { return false; }
      users := users[user := users[user].(used := users[user].used + size)];
      ok := true;
    }

    // Nothing to pay for is never refused.
    method ReserveIfAny(user: string, size: nat) returns (ok: bool)
      modifies this`users
      ensures ok == (size == 0 || Fits(old(users), user, size))
              && users == if ok then Reserved(old(users), user, size) else old(users)
    {
      ReservedNothing(users, user);
      ok := true;
      if size > 0 { ok := ReserveQuota(user, size); }
    }

    method ReleaseQuota(user: string, size: nat)
      modifies this`users
      ensures users == Released(old(users), user, size)
    {
      if user in users {
        var left := users[user].used as int - size;
        users := users[user := users[user].(used := if left < 0 then 0 else left)];
      }
    }

    // Releases the paths one by one and lists those nothing names any more.
    method ReleaseAll(paths: seq<string>) returns (gone: seq<string>)
      requires Balanced(files, versions, refs, multiset(paths))
      modifies this`refs
      ensures Balanced(files, versions, refs, multiset{})
      ensures FreedPaths(gone, old(refs), refs)
    {
      gone := [];
      var i := 0;
      while i < |paths|
        invariant i <= |paths| && Balanced(files, versions, refs, multiset(paths[i..]))
        invariant FreedPaths(gone, old(refs), refs)
      {
        assert paths[i..] == [paths[i]] + paths[i + 1..];
        ReleaseBalances(files, versions, refs, multiset(paths[i..]), paths[i]);
        assert multiset(paths[i..]) - multiset{paths[i]} == multiset(paths[i + 1..]);
        ListsFreed(old(refs), refs, gone, paths[i]);
        var free := ReleaseBlobRef(paths[i]);
        if free { gone := gone + [paths[i]]; }
        i := i + 1;
      }
    }

    method RemoveAll(gone: seq<string>)
      modifies this`disk
      ensures disk == old(disk) - Elements(gone)
    {
      var i := 0;
      while i < |gone|
        invariant i <= |gone| && disk == old(disk) - Elements(gone[..i])
      {
        disk := disk - {gone[i]};
        assert Elements(gone[..i + 1]) == Elements(gone[..i]) + {gone[i]};
        i := i + 1;
      }
      assert gone[..|gone|] == gone;
    }

    // Reverses the moves, last one first.
    method UndoMoves(undos: seq<Undo>)
      modifies this`disk
      ensures disk == Undone(old(disk), undos)
    {
      var i := |undos|;
      assert undos[..|undos|] == undos;
      while i > 0
        invariant 0 <= i <= |undos| && Undone(disk, undos[..i]) == Undone(old(disk), undos)
      {
        i := i - 1;
        assert undos[..i + 1][..i] == undos[..i];
        disk := Rename(disk, undos[i].to, undos[i].from);
      }
    }

    // ---- queries of an upload ----

    method FindSameName(up: Upload) returns (existing: Option<string>)
      ensures SameNameAnswer(files, up, existing)
    {
      if exists x :: x in files && IsSameName(files, up, x) {
        var x :| x in files && IsSameName(files, up, x);
        return Some(x);
      }
      existing := None;
    }

    method FindDonor(up: Upload, existing: Option<string>) returns (donor: Option<string>)
      ensures DonorAnswer(files, up, existing, donor)
    {
      if exists x :: x in files && IsDonor(files, up, existing, x) {
        var x :| x in files && IsDonor(files, up, existing, x);
        return Some(x);
      }
      donor := None;
    }

    // The versions beyond the cap lose their rows; the caller releases their paths and bytes.
    method PruneVersions(file: string, keep: nat) returns (paths: seq<string>, freed: nat)
      requires DistinctNumbers(versions)
      modifies this`versions
      ensures versions == old(versions) - Excess(old(versions), file, keep)
      ensures VersionsRead(old(versions), Excess(old(versions), file, keep), paths, freed)
    {
      var all := QueryVersions(versions, file);
      if |all| <= keep {
        FewHaveNoExcess(versions, file, all, keep);
        NoPaths(versions);
        return [], 0;
      }
      TailIsExcess(versions, file, all, keep);
      paths, freed := ReadVersions(versions, all[keep..]);
      versions := versions - Elements(all[keep..]);
    }

    // ---- the upload transaction ----

    // Moves the upload to its final path, or discards it when another file has the bytes already.
    method PlaceBlob(up: Upload, donor: Option<string>, fault: Fault) returns (ok: bool, undos: seq<Undo>)
      modifies this`disk
      ensures ok == (donor.Some? || fault != AtRename)
      ensures disk == if ok then Placed(old(disk), up, donor) else old(disk)
      ensures undos == if ok && donor.None? then [Undo(up.tmp, up.finalPath)] else []
    {
      if donor.Some? {
        disk := disk - {up.tmp};
        return true, [];
      }
      if fault == AtRename { return false, []; }
      disk := Rename(disk, up.tmp, up.finalPath);
      return true, [Undo(up.tmp, up.finalPath)];
    }

    // Case B: a new row, on the donor's blob or the uploaded one.
    method InsertNew(up: Upload, fault: Fault) returns (ok: bool, donor: Option<string>, undos: seq<Undo>)
      requires Balanced(files, versions, refs, multiset{}) && up.fileID !in files
      modifies this`files, this`refs, this`disk
      ensures DonorAnswer(old(files), up, None, donor)
      ensures ok == (donor.Some? || fault != AtRename)
      ensures disk == if ok then Placed(old(disk), up, donor) else old(disk)
      ensures undos == if ok && donor.None? then [Undo(up.tmp, up.finalPath)] else []
      ensures ok ==>
              files == old(files)[up.fileID := NewRow(old(files), up, donor)]
              && Balanced(files, versions, refs, multiset{})
      ensures ok ==> refs == Inc(old(refs), files[up.fileID].blob.path)
    {
      donor := FindDonor(up, None);
      ok, undos := PlaceBlob(up, donor, fault);
      if !ok { return; }
      var row := NewRow(files, up, donor);
      InsertFileBalances(files, versions, refs, multiset{}, up.fileID, row);
      files := files[up.fileID := row];
      AcquireBlobRef(row.blob.path);
    }

    method InsertVersionRow(id: string, row: Version)
      requires Balanced(files, versions, refs, multiset{}) && id !in versions
      modifies this`versions, this`refs
      ensures versions == old(versions)[id := row] && refs == Inc(old(refs), row.blob.path)
      ensures Balanced(files, versions, refs, multiset{})
    {
      InsertVersionBalances(files, versions, refs, multiset{}, id, row);
      versions := versions[id := row];
      AcquireBlobRef(row.blob.path);
    }

    // The row turns to another blob and gives up the old one.
    method PointAt(id: string, blob: Blob) returns (deletes: seq<string>)
      requires Balanced(files, versions, refs, multiset{}) && id in files
      modifies this`files, this`refs
      ensures files == old(files)[id := old(files)[id].(blob := blob)] && Balanced(files, versions, refs, multiset{})
      ensures refs == Dec(Inc(old(refs), blob.path), old(files)[id].blob.path)
      ensures deletes == if old(files)[id].blob.path in refs then [] else [old(files)[id].blob.path]
    {
      var was := files[id].blob.path;
      RepointBalances(files, versions, refs, id, blob);
      files := files[id := files[id].(blob := blob)];
      AcquireBlobRef(blob.path);
      ReleaseBalances(files, versions, refs, multiset{was}, was);
      assert multiset{was} - multiset{was} == multiset{};
      var gone := ReleaseBlobRef(was);
      deletes := if gone then [was] else [];
    }

    // Versions beyond the cap go; their blobs and bytes are released.
    method PruneAndRelease(file: string, owner: string, keep: nat) returns (deletes: seq<string>)
      requires Balanced(files, versions, refs, multiset{}) && DistinctNumbers(versions)
      modifies this`versions, this`refs, this`users
      ensures versions == old(versions) - Excess(old(versions), file, keep)
              && Balanced(files, versions, refs, multiset{})
      ensures users
              == Released(old(users), owner, Sum(Only(old(versions), Excess(old(versions), file, keep)), SizeOf()))
      ensures FreedPaths(deletes, old(refs), refs)
    {
      ghost var all := versions;
      var paths, freed := PruneVersions(file, keep);
      PruneBalances(files, all, refs, Excess(all, file, keep), paths, freed);
      deletes := ReleaseAll(paths);
      ReleasedNothing(users, owner);
      if freed > 0 { ReleaseQuota(owner, freed); }
    }

    // The row turns to the new bytes, its old ones being kept by the version just inserted.
    method TurnTo(up: Upload, e: string, donor: Option<string>, keep: nat) returns (deletes: seq<string>)
      requires Balanced(files, versions, refs, multiset{}) && DistinctNumbers(versions) && e in files
      requires donor.Some? ==> donor.value in files
      requires up.versionID in versions && versions[up.versionID].blob.path == files[e].blob.path
      modifies this`files, this`versions, this`refs, this`users
      ensures files == old(files)[e := old(files)[e].(blob := ChosenBlob(old(files), up, donor))]
      ensures versions == old(versions) - Excess(old(versions), e, keep) && Balanced(files, versions, refs, multiset{})
      ensures users
              == Released(old(users), up.owner, Sum(Only(old(versions), Excess(old(versions), e, keep)), SizeOf()))
      ensures Elements(deletes) == old(refs).Keys - refs.Keys
    {
      ghost var was, before := files[e].blob.path, refs;
      StillNamedByFile(files, versions, refs, e);
      var blob := ChosenBlob(files, up, donor);
      var freed := PointAt(e, blob);
      StillNamed(files, versions, refs, up.versionID);
      deletes := PruneAndRelease(e, up.owner, keep);
      StillNamedByFile(files, versions, refs, e);
      FreedByPruning(before, refs, was, blob.path, deletes);
      deletes := freed + deletes;
    }

    // Case C: the current bytes become a version, and the row turns to the new ones.
    method ReplaceContent(up: Upload, e: string, keep: nat, fault: Fault)
      returns (ok: bool, no: nat, donor: Option<string>, undos: seq<Undo>, deletes: seq<string>)
      requires Balanced(files, versions, refs, multiset{}) && DistinctNumbers(versions)
      requires e in files && up.versionID !in versions
      modifies this
      ensures DonorAnswer(old(files), up, Some(e), donor) && NextNumber(old(versions), e, no)
      ensures ok == (donor.Some? || fault != AtRename)
      ensures disk == if ok then Placed(old(disk), up, donor) else old(disk)
      ensures undos == if ok && donor.None? then [Undo(up.tmp, up.finalPath)] else []
      ensures ok ==>
                var all := old(versions)[up.versionID := Snapshot(old(files)[e], e, up, no)];
                && files == old(files)[e := old(files)[e].(blob := ChosenBlob(old(files), up, donor))]
                && versions == all - Excess(all, e, keep) && Balanced(files, versions, refs, multiset{})
                && users == Released(old(users), up.owner, Sum(Only(all, Excess(all, e, keep)), SizeOf()))
      ensures ok ==> Elements(deletes) == old(refs).Keys - refs.Keys
    {
      deletes := [];
      no := NextVersionNo(versions, e);
      StillNamedByFile(files, versions, refs, e);
      InsertVersionRow(up.versionID, Snapshot(files[e], e, up, no));
      donor := FindDonor(up, Some(e));
      ok, undos := PlaceBlob(up, donor, fault);
      if !ok { return; }
      deletes := TurnTo(up, e, donor, keep);
    }

    method Rollback(files: Files, versions: Versions, refs: Refs, users: Accounts, undos: seq<Undo>)
      modifies this
      ensures Now() == State(files, versions, refs, Undone(old(disk), undos), users)
    {
      this.files, this.versions, this.refs, this.users := files, versions, refs, users;
      UndoMoves(undos);
    }

    // Case B from the reservation on.
    method FinishNew(up: Upload, fault: Fault, users0: Accounts, ghost s: State)
      returns (r: Result<UploadCommit>, donor: Option<string>)
      requires Inv(s, h) && Prepared(s, up, h)
      requires users0 == s.users && Now() == s.(users := Reserved(s.users, up.owner, up.size))
      modifies this
      ensures DonorAnswer(s.files, up, None, donor)
      ensures r.Ok? == (fault == NoFault || (fault == AtRename && donor.Some?))
      ensures r.Ok? ==> r.value == UploadCommit(up.fileID, false, 0, donor.Some?)
      ensures r.Ok? ==> Now() == Settled(s, s.files[up.fileID := NewRow(s.files, up, donor)], s.versions,
                                         Placed(s.disk, up, donor), Reserved(s.users, up.owner, up.size))
      ensures r.Err? ==> r.error == Io && NothingUploaded(s, up, Now())
    {
      var files0, versions0, refs0 := files, versions, refs;
      RecountBalances(files, versions);
      var ok, undos;
      ok, donor, undos := InsertNew(up, fault);
      UndoRestores(s.disk, up, donor);
      if !ok || fault == AtCommit {
        Rollback(files0, versions0, refs0, users0, undos);
        return Err(Io), donor;
      }
      BalancedIsRecount(files, versions, refs);
      NothingFreed(s.refs, files[up.fileID].blob.path, disk);
      r := Ok(UploadCommit(up.fileID, false, 0, donor.Some?));
    }

    // Case C from the reservation on.
    method FinishVersion(up: Upload, e: string, keep: nat, fault: Fault, users0: Accounts, ghost s: State)
      returns (r: Result<UploadCommit>, no: nat, donor: Option<string>)
      requires Inv(s, h) && Prepared(s, up, h) && e in s.files
      requires users0 == s.users && Now() == s.(users := Reserved(s.users, up.owner, up.size))
      modifies this
      ensures DonorAnswer(s.files, up, Some(e), donor) && NextNumber(s.versions, e, no)
      ensures r.Ok? == (fault == NoFault || (fault == AtRename && donor.Some?))
      ensures r.Ok? ==> r.value == UploadCommit(e, true, no, donor.Some?)
      ensures r.Ok? ==>
                var all := s.versions[up.versionID := Snapshot(s.files[e], e, up, no)];
                Now() == Settled(s, s.files[e := s.files[e].(blob := ChosenBlob(s.files, up, donor))],
                                 all - Excess(all, e, keep), Placed(s.disk, up, donor),
                                 Released(Reserved(s.users, up.owner, up.size), up.owner,
                                   Sum(Only(all, Excess(all, e, keep)), SizeOf())))
      ensures r.Err? ==> r.error == Io && NothingUploaded(s, up, Now())
    {
      var files0, versions0, refs0 := files, versions, refs;
      RecountBalances(files, versions);
      var ok, undos, deletes;
      ok, no, donor, undos, deletes := ReplaceContent(up, e, keep, fault);
      UndoRestores(s.disk, up, donor);
      if !ok || fault == AtCommit {
        Rollback(files0, versions0, refs0, users0, undos);
        return Err(Io), no, donor;
      }
      BalancedIsRecount(files, versions, refs);
      RemoveAll(deletes);
      r := Ok(UploadCommit(e, true, no, donor.Some?));
    }

    // commitUploadWithVersioning
    method CommitUpload(up: Upload, maxVersions: int, liveFolder: bool, fault: Fault)
      returns (r: Result<UploadCommit>, a: Answers)
      requires Inv(Now(), h) && Prepared(Now(), up, h) && h.CollisionFree()
      modifies this
      ensures Inv(Now(), h)
      ensures r.Ok? ==> Answered(old(Now()), up, a) && Now() == Uploaded(old(Now()), up, a, Cap(maxVersions))
      ensures r.Ok? ==> r.value == UploadCommit(if a.existing.Some? then a.existing.value else up.fileID,
                                                a.versionNo > 0, a.versionNo, a.donor.Some?)
      ensures r.Ok? ==>
                if !r.value.versioned then versions == old(versions)
                else r.value.fileID in old(files) &&
                     var e := r.value.fileID;
                     NewestKept(old(versions)[up.versionID := Version(e, r.value.newVersionNo,
                         old(files)[e].blob.(hash := ""), up.uploader)],
                       versions, e, if maxVersions > 0 then maxVersions else 10)
      ensures r.Err? ==> NothingUploaded(old(Now()), up, Now())
      ensures r.Err? && r.error == FolderNotFound <==> !liveFolder
      ensures liveFolder ==> SameNameAnswer(old(files), up, a.existing)
      ensures liveFolder && !SameContent(old(files), up, a.existing) && Fits(old(users), up.owner, up.size) ==>
                DonorAnswer(old(files), up, a.existing, a.donor)
      ensures r.Err? ==> r.error == FolderNotFound || r.error == QuotaExceeded || r.error == Io
      ensures r.Err? && r.error == QuotaExceeded <==>
                liveFolder && !SameContent(old(files), up, a.existing) && !Fits(old(users), up.owner, up.size)
      ensures r.Ok? <==>
                && liveFolder
                && (SameContent(old(files), up, a.existing) ==> fault != AtCommit)
                && (!SameContent(old(files), up, a.existing) ==>
                      Fits(old(users), up.owner, up.size) && (fault == NoFault || (fault == AtRename && a.donor.Some?)))
    {
      a := Answers(None, None, 0);
      if !liveFolder { return Err(FolderNotFound), a; }
      var existing := FindSameName(up);
      a := Answers(existing, None, 0);
      ghost var s := Now();
      if SameContent(files, up, existing) {
        if fault == AtCommit { return Err(Io), a; }
        UploadKeepsInv(s, up, a, Cap(maxVersions), h);
        UploadKeepsNewest(s, up, a, maxVersions, h);
        disk := disk - {up.tmp};
        return Ok(UploadCommit(existing.value, false, 0, false)), a;
      }
      var users0 := users;
      var fits := ReserveQuota(up.owner, up.size);
      if !fits { return Err(QuotaExceeded), a; }
      if existing.None? {
        var donor;
        r, donor := FinishNew(up, fault, users0, s);
        a := Answers(existing, donor, 0);
      } else {
        var no, donor;
        r, no, donor := FinishVersion(up, existing.value, Cap(maxVersions), fault, users0, s);
        a := Answers(existing, donor, no);
      }
      if r.Ok? {
        UploadKeepsInv(s, up, a, Cap(maxVersions), h);
        UploadKeepsNewest(s, up, a, maxVersions, h);
      } else {
        TempIsUnnamed(s, up.tmp, h);
      }
    }

    // ---- copies ----

    // Inserts the rows one by one, each taking a reference to the blob it names.
    method InsertRows(rows: Files)
      requires Balanced(files, versions, refs, multiset{}) && rows.Keys !! files.Keys
      modifies this`files, this`refs
      ensures files == old(files) + rows && Balanced(files, versions, refs, multiset{}) && old(refs).Keys <= refs.Keys
    {
      var todo := rows.Keys;
      while todo != {}
        invariant todo <= rows.Keys && files == old(files) + (rows - todo)
        invariant Balanced(files, versions, refs, multiset{}) && old(refs).Keys <= refs.Keys
        decreases todo
      {
        var id :| id in todo;
        InsertFileBalances(files, versions, refs, multiset{}, id, rows[id]);
        assert (old(files) + (rows - todo))[id := rows[id]] == old(files) + (rows - (todo - {id}));
        files := files[id := rows[id]];
        AcquireBlobRef(rows[id].blob.path);
        todo := todo - {id};
      }
      assert rows - {} == rows;
    }

    method ShareBlobs(rows: Files)
      requires refs == Recount(files, versions) && rows.Keys !! files.Keys
      modifies this`files, this`refs
      ensures files == old(files) + rows && refs == Recount(files, versions) && old(refs).Keys <= refs.Keys
    {
      RecountBalances(files, versions);
      InsertRows(rows);
      BalancedIsRecount(files, versions, refs);
    }

    method InsertCopies(rows: Files, owner: string, total: nat, ghost s: State) returns (ok: bool)
      requires s == Now() && s.refs == Recount(s.files, s.versions) && rows.Keys !! files.Keys
               && total == Sum(rows, FileSize())
      modifies this`files, this`refs, this`users
      ensures ok == (total == 0 || Fits(old(users), owner, total))
      ensures Now() == if ok then Copied(s, rows, owner) else s
    {
      ok := ReserveIfAny(owner, total);
      if !ok { return; }
      ShareBlobs(rows);
      KeepsAll(s.refs, refs, disk);
    }

    // Reserves the bytes of the copies for their owner and inserts them.
    method CopyRows(copies: map<string, CopySpec>, owner: string, total: nat) returns (ok: bool)
      requires Inv(Now(), h) && copies.Keys !! files.Keys && owner in users
      requires total == Sum(CopiedRows(files, copies, owner), FileSize())
      modifies this
      ensures Inv(Now(), h) && ok == (total == 0 || Fits(old(users), owner, total))
      ensures Now() == if ok then Copied(old(Now()), CopiedRows(old(files), copies, owner), owner) else old(Now())
    {
      ghost var s := Now();
      CopiesKeepInv(s, copies, owner, h);
      ok := InsertCopies(CopiedRows(files, copies, owner), owner, total, s);
    }

    // copyFile, once access is settled.
    method CopyFile(src: string, owner: string, folder: Option<string>, newID: string) returns (r: Result<string>)
      requires Inv(Now(), h) && owner in users && newID !in files
      modifies this
      ensures Inv(Now(), h)
      ensures r.Ok? <==> src in old(files) && !old(files)[src].deleted
                         && (old(files)[src].blob.size == 0 || Fits(old(users), owner, old(files)[src].blob.size))
      ensures r.Ok? ==>
                var name := CopyName(old(files), owner, folder, old(files)[src].name);
                Now() == Copied(old(Now()), CopiedRows(old(files), map[newID := CopySpec(src, name, folder)], owner),
                  owner)
      ensures r.Ok? ==> r.value == newID
      ensures r.Err? ==> Now() == old(Now())
      ensures r.Err? ==> r.error == if src in old(files) && !old(files)[src].deleted then QuotaExceeded else NotFound
    {
      if src !in files || files[src].deleted { return Err(NotFound); }
      var copy := CopySpec(src, CopyName(files, owner, folder, files[src].name), folder);
      OneCopy(files, newID, copy, owner);
      var ok := CopyRows(map[newID := copy], owner, files[src].blob.size);
      r := if ok then Ok(newID) else Err(QuotaExceeded);
    }

    // handleCreateFromHash: a new row on a live file of the caller with these bytes.
    method CreateFromHash(user: string, hash: string, name: string, folder: Option<string>, newID: string)
      returns (r: Result<string>, donor: string)
      requires Inv(Now(), h) && user in users && newID !in files
      modifies this
      ensures Inv(Now(), h)
      ensures r == Err(NotFound) <==> NoneRecords(old(files), user, hash)
      ensures r.Ok? ==> r.value == newID && donor in old(files) && old(files)[donor].blob.hash == hash
      ensures r != Err(NotFound) ==> HasHash(old(files), user, hash, donor)
      ensures r.Ok? ==> Fits(old(users), user, old(files)[donor].blob.size)
                        && Now()
                          == Copied(old(Now()),
                          CopiedRows(old(files), map[newID := CopySpec(donor, name, folder)], user), user)
      ensures r.Err? ==> Now() == old(Now())
      ensures r == Err(QuotaExceeded) ==> !Fits(old(users), user, old(files)[donor].blob.size)
      ensures r.Err? ==> r.error == NotFound || r.error == QuotaExceeded
    {
      donor := "";
      if !exists x :: x in files && HasHash(files, user, hash, x) { return Err(NotFound), donor; }
      donor :| donor in files && HasHash(files, user, hash, donor);
      if !Fits(users, user, files[donor].blob.size) { return Err(QuotaExceeded), donor; }
      OneCopy(files, newID, CopySpec(donor, name, folder), user);
      var ok := CopyRows(map[newID := CopySpec(donor, name, folder)], user, files[donor].blob.size);
      r := Ok(newID);
    }

    // The file rows of a folder copy: their sizes are added up first, and reserved as a whole.
    method CopyFolderFiles(copies: map<string, CopySpec>, owner: string) returns (ok: bool)
      requires Inv(Now(), h) && copies.Keys !! files.Keys && owner in users
      modifies this
      ensures Inv(Now(), h)
      ensures var total := Sum(CopiedRows(old(files), copies, owner), FileSize());
              ok == CanPay(old(users), owner, total)
      ensures Now() == if ok then Copied(old(Now()), CopiedRows(old(files), copies, owner), owner) else old(Now())
    {
      var total := TotalSize(CopiedRows(files, copies, owner));
      ok := CopyRows(copies, owner, total);
    }

    // ---- trash ----

    // The rows are marked and their bytes credited back to the owner.
    method TrashRows(ids: set<string>, user: string)
      requires Inv(Now(), h)
      modifies this`files, this`users
      ensures Inv(Now(), h) && Now() == Trashed(old(Now()), ids, user)
    {
      FlagKeepsInv(Now(), ids, true, Released(users, user, Sum(Only(files, ids), FileSize())), h);
      var total := TotalSize(Selected(files, ids));
      files := Flagged(files, ids, true);
      ReleasedNothing(users, user);
      if total > 0 { ReleaseQuota(user, total); }
    }

    method RestoreRows(ids: set<string>, user: string) returns (ok: bool)
      requires Inv(Now(), h)
      modifies this`files, this`users
      ensures Inv(Now(), h)
      ensures var total := Sum(Only(old(files), ids), FileSize());
              ok == (total == 0 || Fits(old(users), user, total))
      ensures Now() == if ok then Restored(old(Now()), ids, user) else old(Now())
    {
      FlagKeepsInv(Now(), ids, false, Reserved(users, user, Sum(Only(files, ids), FileSize())), h);
      var total := TotalSize(Selected(files, ids));
      ok := ReserveIfAny(user, total);
      if !ok { return; }
      files := Flagged(files, ids, false);
    }

    // handleDeleteFile
    method TrashFile(id: string) returns (r: Result<()>)
      requires Inv(Now(), h)
      modifies this
      ensures Inv(Now(), h) && (r.Ok? <==> id in old(files) && !old(files)[id].deleted)
      ensures r.Err? ==> r.error == NotFound
      ensures Now() == if r.Ok? then Trashed(old(Now()), {id}, old(files)[id].owner) else old(Now())
    {
      if id !in files || files[id].deleted { return Err(NotFound); }
      TrashRows({id}, files[id].owner);
      r := Ok(());
    }

    // handleRestoreTrash, the file half
    method RestoreFile(user: string, id: string) returns (r: Result<()>)
      requires Inv(Now(), h)
      modifies this
      ensures Inv(Now(), h)
              && (r == Err(NotFound) <==> !(id in old(files) && old(files)[id].owner == user && old(files)[id].deleted))
      ensures r == Err(QuotaExceeded) <==>
                id in old(files) && old(files)[id].owner == user && old(files)[id].deleted
                && !CanPay(old(users), user, Sum(Only(old(files), {id}), FileSize()))
      ensures r.Ok? ==> Now() == Restored(old(Now()), {id}, user)
      ensures r.Err? ==> Now() == old(Now()) && (r.error == NotFound || r.error == QuotaExceeded)
    {
      if id !in files || files[id].owner != user || !files[id].deleted { return Err(NotFound); }
      var ok := RestoreRows({id}, user);
      r := if ok then Ok(()) else Err(QuotaExceeded);
    }

    // markFolderDeleted: the live files of the folders.
    method TrashFolderFiles(user: string, folders: set<string>)
      requires Inv(Now(), h)
      modifies this
      ensures Inv(Now(), h) && Now() == Trashed(old(Now()), InFolders(old(files), user, folders, false), user)
    {
      TrashRows(InFolders(files, user, folders, false), user);
    }

    // restoreFolder: the trashed files of the folders; the bytes of all of them have to fit.
    method RestoreFolderFiles(user: string, folders: set<string>) returns (ok: bool)
      requires Inv(Now(), h)
      modifies this
      ensures Inv(Now(), h)
      ensures var total := Sum(Only(old(files), InFolders(old(files), user, folders, true)), FileSize());
              ok == (total == 0 || Fits(old(users), user, total))
      ensures Now() == if ok then Restored(old(Now()), InFolders(old(files), user, folders, true), user) else old(Now())
    {
      ok := RestoreRows(InFolders(files, user, folders, true), user);
    }

    // ---- moves to another owner ----

    method TransferQuota(src: string, dest: string, total: nat) returns (ok: bool)
      modifies this`users
      ensures ok == (total == 0 || Fits(Released(old(users), src, total), dest, total))
      ensures users == if ok then Reserved(Released(old(users), src, total), dest, total) else old(users)
    {
      ReleasedNothing(users, src);
      ReservedNothing(users, dest);
      if total == 0 { return true; }
      var users0 := users;
      ReleaseQuota(src, total);
      ok := ReserveQuota(dest, total);
      if !ok { users := users0; } // rolled back
    }

    method ChangeOwner(ids: set<string>, total: nat, src: string, dest: string, home: Home) returns (ok: bool)
      modifies this`files, this`users
      ensures ok == (total == 0 || Fits(Released(old(users), src, total), dest, total))
      ensures files == if ok then Reassigned(old(files), ids, dest, home) else old(files)
      ensures users == if ok then Reserved(Released(old(users), src, total), dest, total) else old(users)
    {
      ok := TransferQuota(src, dest, total);
      if ok { files := Reassigned(files, ids, dest, home); }
    }

    // moveFile: the live bytes move from one account to the other.
    method ReassignRows(ids: set<string>, src: string, dest: string, home: Home) returns (ok: bool)
      requires Inv(Now(), h) && dest in users
      modifies this`files, this`users
      ensures Inv(Now(), h)
      ensures var total := Sum(Only(old(files), ids), LiveSize());
              ok == (total == 0 || Fits(Released(old(users), src, total), dest, total))
      ensures Now() == if ok then Moved(old(Now()), ids, src, dest, home) else old(Now())
    {
      MoveKeepsInv(Now(), ids, src, dest, home, h);
      var total := LiveTotal(Selected(files, ids));
      ok := ChangeOwner(ids, total, src, dest, home);
    }

    // moveFile, once access is settled: a row whose owner stays only changes folders.
    method MoveFile(id: string, folder: Option<string>, dest: string) returns (r: Result<()>)
      requires Inv(Now(), h) && dest in users
      modifies this
      ensures Inv(Now(), h)
      ensures r.Ok? <==> id in old(files) && !old(files)[id].deleted && MoveFits(old(Now()), id, dest)
      ensures r.Err? ==> Now() == old(Now())
      ensures r.Err? ==> r.error == if id in old(files) && !old(files)[id].deleted then QuotaExceeded else NotFound
      ensures r.Ok? ==>
                var was := old(files)[id];
                Now() == if was.owner == dest then old(Now()).(files := old(files)[id := was.(folder := folder)])
                         else Moved(old(Now()), {id}, was.owner, dest, Into(folder))
    {
      if id !in files || files[id].deleted { return Err(NotFound); }
      if files[id].owner == dest {
        RefileKeepsInv(Now(), id, folder, h);
        files := files[id := files[id].(folder := folder)];
        return Ok(());
      }
      OneLive(files, id);
      var ok := ReassignRows({id}, files[id].owner, dest, Into(folder));
      r := if ok then Ok(()) else Err(QuotaExceeded);
    }

    // The file half of reassignFolderTreeTx: every file of the folders changes owner, whoever had it, and
    // the live bytes of the old folder owner change accounts.
    method ReassignFolderFiles(src: string, dest: string, folders: set<string>) returns (ok: bool)
      requires Inv(Now(), h) && dest in users
      modifies this`files, this`users
      ensures Inv(Now(), h)
      ensures var total := Sum(Only(old(files), InFolders(old(files), src, folders, false)), FileSize());
              ok == (total == 0 || Fits(Released(old(users), src, total), dest, total))
      ensures Now() == if ok then FoldersMoved(old(Now()), folders, src, dest) else old(Now())
    {
      FoldersMovedInv(Now(), folders, src, dest, h);
      var total := TotalSize(Selected(files, InFolders(files, src, folders, false)));
      ok := ChangeOwner(AllInFolders(files, folders), total, src, dest, InPlace);
    }

    // The folder foreign key of the files: ON DELETE SET NULL.
    method ForgetFolders(folders: set<string>)
      requires Inv(Now(), h)
      modifies this`files
      ensures Inv(Now(), h) && files == Unhoused(old(files), folders)
    {
      SameBlobsKeepInv(Now(), Unhoused(files, folders), users, h);
      files := Unhoused(files, folders);
    }

    // ---- purge ----

    // Deletes file rows; their versions go with them, and every path either one named is released.
    method DropRows(ids: set<string>) returns (bytes: nat)
      requires Inv(Now(), h)
      modifies this`files, this`versions, this`refs, this`disk
      ensures Now() == Dropped(old(Now()), ids, users) && bytes == BytesOf(old(Now()), ids)
    {
      ghost var s := Now();
      var filePaths, fileBytes := ReadFiles(Selected(files, ids));
      var versionIDs := AnyOrder(VersionsOf(versions, ids));
      var versionPaths, versionBytes := ReadVersions(versions, versionIDs);
      DropPaths(files, versions, refs, ids, filePaths, versionPaths, versionBytes);
      files := files - ids;
      versions := versions - VersionsOf(versions, ids);
      var deletes := ReleaseAll(filePaths + versionPaths);
      BalancedIsRecount(files, versions, refs);
      RemoveAll(deletes);
      bytes := fileBytes + versionBytes;
    }

    method PurgeRows(ids: set<string>, user: string)
      requires Inv(Now(), h)
      modifies this
      ensures Inv(Now(), h) && Now() == Purged(old(Now()), ids, user)
    {
      ghost var s := Now();
      var bytes := DropRows(ids);
      ReleaseQuota(user, bytes);
      DropKeepsInv(s, ids, users, h);
    }

    // permanentlyDeleteFile
    method PurgeFile(user: string, id: string) returns (r: Result<()>)
      requires Inv(Now(), h)
      modifies this
      ensures Inv(Now(), h)
      ensures r.Ok? <==> id in old(files) && old(files)[id].owner == user && old(files)[id].deleted
      ensures r.Err? ==> r.error == NotFound
      ensures Now() == if r.Ok? then Purged(old(Now()), {id}, user) else old(Now())
    {
      if id !in files || files[id].owner != user || !files[id].deleted { return Err(NotFound); }
      PurgeRows({id}, user);
      r := Ok(());
    }

    // permanentlyDeleteFolder: every file in the folders, trashed or not.
    method PurgeFolderFiles(user: string, folders: set<string>)
      requires Inv(Now(), h)
      modifies this
      ensures Inv(Now(), h)
      ensures Now()
              == Purged(old(Now()),
              InFolders(old(files), user, folders, false) + InFolders(old(files), user, folders, true), user)
    {
      PurgeRows(InFolders(files, user, folders, false) + InFolders(files, user, folders, true), user);
    }

    // The file half of handleEmptyTrash: the trashed files of a user are purged one by one.
    method EmptyTrash(user: string)
      requires Inv(Now(), h)
      modifies this
      ensures Inv(Now(), h) && Now() == Purged(old(Now()), TrashOf(old(files), user), user)
      ensures forall f :: f in old(files) ==>
                (f in files <==> !(old(files)[f].deleted && old(files)[f].owner == user))
    {
      ghost var s := Now();
      ghost var done: set<string> := {};
      var todo := TrashOf(files, user);
      DropNothing(s, user);
      while todo != {}
        invariant Inv(Now(), h) && Now() == Purged(s, done, user)
        invariant done + todo == TrashOf(s.files, user) && done !! todo
        decreases todo
      {
        var id :| id in todo;
        PurgeNext(user, id, s, done);
        todo := todo - {id};
        done := done + {id};
      }
      assert done == TrashOf(s.files, user);
    }

    method PurgeNext(user: string, id: string, ghost s: State, ghost done: set<string>)
      requires Inv(Now(), h) && Now() == Purged(s, done, user) && s.refs == Recount(s.files, s.versions)
      requires id in TrashOf(s.files, user) && id !in done
      modifies this
      ensures Inv(Now(), h) && Now() == Purged(s, done + {id}, user)
    {
      StillTrashed(s, done, user, id);
      PurgeTwice(s, done, {id}, user);
      var r := PurgeFile(user, id);
    }

    // deleteUserResources leaves the account itself to its caller.
    method DeleteUserResources(user: string)
      requires Inv(Now(), h)
      modifies this
      ensures Inv(Now(), h) && Now() == Dropped(old(Now()), OwnedBy(old(files), user), old(users))
    {
      ghost var s := Now();
      var bytes := DropRows(OwnedBy(files, user));
      DropKeepsInv(s, OwnedBy(s.files, user), users, h);
    }
  }

  function TrashOf(files: Files, user: string): set<string> {
    set f | f in files && files[f].owner == user && files[f].deleted
  }

  lemma StillTrashed(s: State, done: set<string>, user: string, id: string)
    requires id in TrashOf(s.files, user) && id !in done
    ensures var s' := Purged(s, done, user); id in s'.files && s'.files[id].owner == user && s'.files[id].deleted
  {
  }

  lemma DropNothing(s: State, user: string)
    requires s.refs == Recount(s.files, s.versions)
    ensures Purged(s, {}, user) == s
  {
    assert Only(s.files, {}) == map[] && Only(s.versions, VersionsOf(s.versions, {})) == map[];
    SumOfNone<string, File>(FileSize());
    SumOfNone<string, Version>(SizeOf());
    ReleasedNothing(s.users, user);
    assert s.files - {} == s.files && s.versions - VersionsOf(s.versions, {}) == s.versions;
    assert s.disk - (s.refs.Keys - s.refs.Keys) == s.disk;
  }

  // A move to another owner needs room for the file there.
  predicate MoveFits(s: State, id: string, dest: string)
    requires id in s.files
  {
    var owner, size := s.files[id].owner, s.files[id].blob.size;
    owner == dest || CanPay(Released(s.users, owner, size), dest, size)
  }

  lemma OneLive(files: Files, id: string)
    requires id in files && !files[id].deleted
    ensures Sum(Only(files, {id}), LiveSize()) == files[id].blob.size
  {
    assert Only(files, {id}) == map[id := files[id]];
    SumOfOne(id, files[id], LiveSize());
  }

  function Selected(files: Files, ids: set<string>): (r: Files)
    ensures r == Only(files, ids)
  {
    map f | f in files && f in ids :: files[f]
  }

  lemma DropPaths(files: Files, versions: Versions, refs: Refs, ids: set<string>, filePaths: seq<string>,
                  versionPaths: seq<string>, bytes: nat)
    requires refs == Recount(files, versions)
    requires PathsOf(multiset(filePaths), Only(files, ids), map[])
    requires VersionsRead(versions, VersionsOf(versions, ids), versionPaths, bytes)
    ensures Balanced(files - ids, versions - VersionsOf(versions, ids), refs, multiset(filePaths + versionPaths))
  {
    var gone := VersionsOf(versions, ids);
    RecountBalances(files, versions);
    assert multiset(filePaths + versionPaths) == multiset(filePaths) + multiset(versionPaths);
    forall p ensures multiset(filePaths + versionPaths)[p] == Names(Only(files, ids), Only(versions, gone), p) {
      SumOfNone<string, Version>(VersionAt(p));
      SumOfNone<string, File>(FileAt(p));
    }
    DropBalances(files, versions, refs, ids, gone, multiset(filePaths + versionPaths));
  }

  // Rows come back from a query in no particular order.
  method AnyOrder(ids: set<string>) returns (s: seq<string>)
    ensures Distinct(s) && Elements(s) == ids
  {
    s := [];
    var todo := ids;
    while todo != {}
      invariant Elements(s) + todo == ids && Elements(s) !! todo && Distinct(s)
      decreases todo
    {
      var x :| x in todo;
      assert x !in Elements(s);
      assert Elements(s + [x]) == Elements(s) + {x};
      s := s + [x];
      todo := todo - {x};
    }
  }

  method ReadFiles(rows: Files) returns (paths: seq<string>, bytes: nat)
    ensures PathsOf(multiset(paths), rows, map[]) && bytes == Sum(rows, FileSize())
  {
    bytes := TotalSize(rows);
    paths := [];
    var todo := rows.Keys;
    assert Only(rows, {}) == map[];
    while todo != {}
      invariant todo <= rows.Keys && PathsOf(multiset(paths), Only(rows, rows.Keys - todo), map[])
      decreases todo
    {
      var f :| f in todo;
      OneMoreFilePath(rows, rows.Keys - todo, map[], paths, f);
      assert rows.Keys - todo + {f} == rows.Keys - (todo - {f});
      paths := paths + [rows[f].blob.path];
      todo := todo - {f};
    }
    assert Only(rows, rows.Keys - {}) == rows;
  }

  method LiveTotal(rows: Files) returns (total: nat)
    ensures total == Sum(rows, LiveSize())
  {
    total := 0;
    var todo := rows;
    while todo != map[]
      invariant total + Sum(todo, LiveSize()) == Sum(rows, LiveSize())
      decreases todo.Keys
    {
      var f :| f in todo;
      SumTake(todo, f, LiveSize());
      if !todo[f].deleted { total := total + todo[f].blob.size; }
      todo := todo - {f};
    }
    SumOfNone<string, File>(LiveSize());
  }

  // No live file of the user records the hash.
  ghost predicate NoneRecords(files: Files, user: string, hash: string) {
    forall x | x in files && files[x].owner == user && !files[x].deleted :: files[x].blob.hash != hash
  }

  predicate HasHash(files: Files, user: string, hash: string, x: string) {
    x in files && files[x].owner == user && files[x].blob.hash == hash && !files[x].deleted
  }

  function LastDot(name: string): (dot: int)
    ensures -1 <= dot < |name| && (dot >= 0 ==> name[dot] == '.')
    ensures forall i :: dot < i < |name| ==> name[i] != '.'
  {
    if name == "" then -1
    else if name[|name| - 1] == '.' then |name| - 1
    else LastDot(name[..|name| - 1])
  }

  // copySuffix: before the extension, or at the end when there is none.
  function CopySuffix(name: string): string {
    var dot := LastDot(name);
    if dot <= 0 || dot == |name| - 1 then name + " (copy)" else name[..dot] + " (copy)" + name[dot..]
  }

  // The suffix goes before the last dot, and to the end of a name that has none, starts with its only one or
  // ends with one.
  lemma CopySuffixForms(base: string, extension: string)
    requires '.' !in extension
    ensures CopySuffix(base + "." + extension)
         == if base == "" || extension == "" then base + "." + extension + " (copy)"
            else base + " (copy)" + "." + extension
    ensures CopySuffix(extension) == extension + " (copy)"
  {
    var name := base + "." + extension;
    assert name == base + ("." + extension) && name[|base|] == '.';
    assert forall i :: |base| < i < |name| ==> name[i] == extension[i - |base| - 1];
    assert LastDot(name) == |base| && name[..|base|] == base && name[|base|..] == "." + extension;
    assert LastDot(extension) == -1;
    assert base + " (copy)" + ("." + extension) == base + " (copy)" + "." + extension;
  }

  // A live file of that name sits in the folder.
  predicate NameTaken(files: Files, owner: string, folder: Option<string>, name: string) {
    exists f ::
      f in files && files[f].owner == owner && files[f].name == name && files[f].folder == folder && !files[f].deleted
  }

  function CopyName(files: Files, owner: string, folder: Option<string>, name: string): string {
    if NameTaken(files, owner, folder, name) then CopySuffix(name) else name
  }

  // The files with one more, a copy under the name chosen for it.
  function WithCopy(files: Files, src: string, owner: string, folder: Option<string>, newID: string): Files
    requires src in files
  {
    files + CopiedRows(files, map[newID := CopySpec(src, CopyName(files, owner, folder, files[src].name), folder)],
      owner)
  }

  // No other live file of the folder has its name.
  ghost predicate Alone(files: Files, id: string)
    requires id in files
  {
    forall f :: f in files && f != id && !files[f].deleted ==>
      files[f].owner != files[id].owner || files[f].folder != files[id].folder || files[f].name != files[id].name
  }

  // A copy ends up without a namesake if and only if its plain name or its suffixed name was free.
  lemma CopyIsAloneExactly(files: Files, src: string, owner: string, folder: Option<string>, newID: string)
    requires src in files && newID !in files
    ensures newID in WithCopy(files, src, owner, folder, newID)
    ensures Alone(WithCopy(files, src, owner, folder, newID), newID) <==>
              !NameTaken(files, owner, folder, files[src].name)
                || !NameTaken(files, owner, folder, CopySuffix(files[src].name))
  {
    var after, name := WithCopy(files, src, owner, folder, newID), CopyName(files, owner, folder, files[src].name);
    assert after[newID] == File(name, owner, folder, files[src].blob, false);
    assert forall f :: f in files ==> after[f] == files[f];
    assert Alone(after, newID) <==> !NameTaken(files, owner, folder, name);
  }

  // The second copy of a file next to itself always has the name of the first.
  lemma SecondCopyCollides(files: Files, src: string, newID1: string, newID2: string)
    requires src in files && !files[src].deleted && newID1 !in files && newID2 !in files && newID1 != newID2
    ensures var owner, folder := files[src].owner, files[src].folder;
            var once := WithCopy(files, src, owner, folder, newID1);
            src in once && newID2 !in once && newID2 in WithCopy(once, src, owner, folder, newID2)
            && !Alone(WithCopy(once, src, owner, folder, newID2), newID2)
  {
    var owner, folder := files[src].owner, files[src].folder;
    var once := WithCopy(files, src, owner, folder, newID1);
    CopyIsAloneExactly(once, src, owner, folder, newID2);
    assert NameTaken(files, owner, folder, files[src].name);
    assert once[src] == files[src] && once[newID1].name == CopySuffix(files[src].name);
  }

  // Beside "a" and "a (copy)", a copy of "a" is called "a (copy)" too.
  lemma CopyBesideCopy(blob: Blob, user: string)
    ensures var files :=
            map["f" := File("a", user, None, blob, false), "g" := File("a (copy)", user, None, blob, false)];
            CopyName(files, user, None, "a") == "a (copy)" && NameTaken(files, user, None, "a (copy)")
  {
    var files := map["f" := File("a", user, None, blob, false), "g" := File("a (copy)", user, None, blob, false)];
    assert files["f"].name == "a" && files["g"].name == "a (copy)";
    assert CopySuffix("a") == "a" + " (copy)" == "a (copy)" by { assert LastDot("a") == -1; }
  }

  lemma OneCopy(files: Files, newID: string, copy: CopySpec, owner: string)
    requires copy.src in files
    ensures Sum(CopiedRows(files, map[newID := copy], owner), FileSize()) == files[copy.src].blob.size
  {
    var row := File(copy.name, owner, copy.folder, files[copy.src].blob, false);
    assert CopiedRows(files, map[newID := copy], owner) == map[newID := row];
    SumOfOne(newID, row, FileSize());
  }

  lemma ReservedNothing(users: Accounts, user: string)
    ensures Reserved(users, user, 0) == users
  {
  }

  lemma KeepsAll(before: Refs, after: Refs, disk: Disk)
    requires before.Keys <= after.Keys
    ensures disk - (before.Keys - after.Keys) == disk
  {
    assert before.Keys - after.Keys == {};
  }

  lemma SumOfOne<R>(id: string, row: R, w: R -> nat)
    ensures Sum(map[id := row], w) == w(row)
  {
    SumOfNone<string, R>(w);
    SumAdd(map[], id, row, w);
  }

  // SELECT SUM(size_bytes)
  method TotalSize(rows: Files) returns (total: nat)
    ensures total == Sum(rows, FileSize())
  {
    total := 0;
    var todo := rows;
    while todo != map[]
      invariant total + Sum(todo, FileSize()) == Sum(rows, FileSize())
      decreases todo.Keys
    {
      var f :| f in todo;
      SumTake(todo, f, FileSize());
      total := total + todo[f].blob.size;
      todo := todo - {f};
    }
    SumOfNone<string, File>(FileSize());
  }

  lemma NothingFreed(refs: Refs, path: string, disk: Disk)
    ensures disk - (refs.Keys - Inc(refs, path).Keys) == disk
  {
    assert refs.Keys - Inc(refs, path).Keys == {};
  }

  // MaxVersionsPerFile, ten when it is not set.
  function Cap(maxVersions: int): nat {
    if maxVersions <= 0 then 10 else maxVersions
  }

  // What a failed upload leaves: at most the temporary file is gone.
  ghost predicate NothingUploaded(s: State, up: Upload, s': State) {
    s' == s || s' == s.(disk := s.disk - {up.tmp})
  }

  lemma UndoRestores(disk: Disk, up: Upload, donor: Option<string>)
    requires up.tmp in disk && up.finalPath !in disk
    ensures donor.None? ==> Undone(Placed(disk, up, donor), [Undo(up.tmp, up.finalPath)]) == disk
    ensures Undone(disk, []) == disk && Undone(disk - {up.tmp}, []) == disk - {up.tmp}
  {
    if donor.None? {
      var placed := Placed(disk, up, donor);
      assert Rename(placed, up.finalPath, up.tmp) == disk;
      assert [Undo(up.tmp, up.finalPath)][..0] == [];
    }
  }

  // The list holds exactly the paths that lost their count.
  ghost predicate FreedPaths(gone: seq<string>, before: Refs, after: Refs) {
    Elements(gone) == before.Keys - after.Keys && after.Keys <= before.Keys
  }

  lemma ListsFreed(before: Refs, refs: Refs, gone: seq<string>, path: string)
    requires FreedPaths(gone, before, refs) && path in refs
    ensures FreedPaths(if path in Dec(refs, path) then gone else gone + [path], before, Dec(refs, path))
  {
    assert Elements(gone + [path]) == Elements(gone) + {path};
  }

  // The paths and the total size of some version rows.
  ghost predicate VersionsRead(versions: Versions, ids: set<string>, paths: seq<string>, bytes: nat) {
    PathsOf(multiset(paths), map[], Only(versions, ids)) && bytes == Sum(Only(versions, ids), SizeOf())
  }

  lemma ReadOne(versions: Versions, ids: seq<string>, i: nat, paths: seq<string>, bytes: nat)
    requires Distinct(ids) && Elements(ids) <= versions.Keys && i < |ids|
    requires VersionsRead(versions, Elements(ids[..i]), paths, bytes)
    ensures ids[i] in versions
    ensures var blob := versions[ids[i]].blob;
            VersionsRead(versions, Elements(ids[..i + 1]), paths + [blob.path], bytes + blob.size)
  {
    OneMore(ids, i);
    OneMoreVersionPath(map[], versions, Elements(ids[..i]), paths, ids[i]);
    OneMoreSize(versions, Elements(ids[..i]), ids[i]);
  }

  lemma NoPaths(versions: Versions)
    ensures VersionsRead(versions, {}, [], 0)
  {
    assert Only(versions, {}) == map[];
    SumOfNone<string, Version>(SizeOf());
  }

  lemma OneMoreSize(versions: Versions, done: set<string>, v: string)
    requires v in versions && v !in done
    ensures Sum(Only(versions, done + {v}), SizeOf()) == Sum(Only(versions, done), SizeOf()) + versions[v].blob.size
  {
    assert Only(versions, done + {v}) == Only(versions, done)[v := versions[v]];
    SumAdd(Only(versions, done), v, versions[v], SizeOf());
  }

  // Reads the paths and sizes of version rows.
  method ReadVersions(versions: Versions, ids: seq<string>) returns (paths: seq<string>, bytes: nat)
    requires Distinct(ids) && Elements(ids) <= versions.Keys
    ensures VersionsRead(versions, Elements(ids), paths, bytes)
  {
    paths, bytes := [], 0;
    var i := 0;
    NoPaths(versions);
    while i < |ids|
      invariant i <= |ids|
      invariant VersionsRead(versions, Elements(ids[..i]), paths, bytes)
    {
      ReadOne(versions, ids, i, paths, bytes);
      paths := paths + [versions[ids[i]].blob.path];
      bytes := bytes + versions[ids[i]].blob.size;
      i := i + 1;
    }
    assert ids[..|ids|] == ids;
  }

  // SELECT ... ORDER BY version_no DESC
  method QueryVersions(versions: Versions, file: string) returns (all: seq<string>)
    requires DistinctNumbers(versions)
    ensures NewestFirst(versions, all) && Elements(all) == VersionsOf(versions, {file})
  {
    all := [];
    var todo := VersionsOf(versions, {file});
    while todo != {}
      invariant Elements(all) + todo == VersionsOf(versions, {file}) && Elements(all) !! todo
      invariant NewestFirst(versions, all)
      invariant forall v, w :: v in all && w in todo ==> versions[v].no > versions[w].no
      decreases todo
    {
      NewestExists(versions, todo);
      var v :| v in todo && forall w :: w in todo ==> versions[w].no <= versions[v].no;
      all := all + [v];
      todo := todo - {v};
    }
  }

  lemma PruneBalances(files: Files, all: Versions, refs: Refs, excess: set<string>, paths: seq<string>, freed: nat)
    requires Balanced(files, all, refs, multiset{}) && VersionsRead(all, excess, paths, freed)
    ensures Balanced(files, all - excess, refs, multiset(paths))
  {
    assert Only(files, {}) == map[] && files - {} == files;
    DropBalances(files, all, refs, {}, excess, multiset(paths));
  }

  lemma StillNamed(files: Files, versions: Versions, refs: Refs, v: string)
    requires Balanced(files, versions, refs, multiset{}) && v in versions
    ensures versions[v].blob.path in refs
  {
    NamedIffCounted(files, versions, versions[v].blob.path);
    assert Count(refs, versions[v].blob.path)
      == Names(files, versions, versions[v].blob.path) + multiset{}[versions[v].blob.path];
  }

  lemma StillNamedByFile(files: Files, versions: Versions, refs: Refs, f: string)
    requires Balanced(files, versions, refs, multiset{}) && f in files
    ensures files[f].blob.path in refs
  {
    NamedIffCounted(files, versions, files[f].blob.path);
    assert Count(refs, files[f].blob.path)
      == Names(files, versions, files[f].blob.path) + multiset{}[files[f].blob.path];
  }

  method NextVersionNo(versions: Versions, file: string) returns (no: nat)
    ensures NextNumber(versions, file, no)
  {
    no := 0;
    var todo := VersionsOf(versions, {file});
    while todo != {}
      invariant todo <= VersionsOf(versions, {file})
      invariant forall v :: v in VersionsOf(versions, {file}) - todo ==> versions[v].no <= no
      invariant no == 0 || exists v :: v in VersionsOf(versions, {file}) && versions[v].no == no
      decreases todo
    {
      var v :| v in todo;
      if versions[v].no > no { no := versions[v].no; }
      todo := todo - {v};
    }
    no := no + 1;
  }

  lemma ReleasedNothing(users: Accounts, user: string)
    ensures Released(users, user, 0) == users
  {
  }

  // The only paths a new version frees are those of the versions it pushes out.
  lemma FreedByPruning(before: Refs, after: Refs, was: string, path: string, deletes: seq<string>)
    requires was in before && was in Dec(Inc(before, path), was) && path in after
    requires FreedPaths(deletes, Dec(Inc(before, path), was), after)
    ensures Elements(deletes) == before.Keys - after.Keys && [] + deletes == deletes
  {
  }
}
