/** The folder and file transactions row by row: which rows change, in which columns, and what the accounts get. */
module RowEffects {
  import opened BlobRefs
  import opened BlobStore
  import opened Options
  import opened Rows
  import opened StoreTransactions
  import opened Sums
  import opened Workspace
  import Folders = FolderForest

  // ---- accounts ----

  // Only this account changes, and it gets the bytes back, down to zero.
  ghost predicate Credited(users: Accounts, users': Accounts, user: string, bytes: nat) {
    && users'.Keys == users.Keys && (forall u | u in users && u != user :: users'[u] == users[u])
    && (user in users ==>
          users'[user] == Account(if users[user].used <= bytes then 0 else users[user].used - bytes, users[user].quota))
  }

  ghost predicate Debited(users: Accounts, users': Accounts, user: string, bytes: nat) {
    && users'.Keys == users.Keys && (forall u | u in users && u != user :: users'[u] == users[u])
    && (user in users ==> users'[user] == Account(users[user].used + bytes, users[user].quota))
  }

  // ---- rows ----

  ghost predicate InTree(t: Folders.Table, f: File, id: string) {
    f.folder.Some? && f.folder.value in Folders.Subtree(t, id)
  }

  // The owner's files at or below the folder, live or trashed.
  ghost function Owned(t: Folders.Table, files: Files, id: string, owner: string, deleted: bool): set<string> {
    set f | f in files && InTree(t, files[f], id) && files[f].owner == owner && files[f].deleted == deleted
  }

  ghost predicate OnlyFlagged(s: State, s': State, ids: set<string>, deleted: bool) {
    && s'.versions == s.versions && s'.refs == s.refs && s'.disk == s.disk && s'.files.Keys == s.files.Keys
    && forall f | f in s.files ::
         s'.files[f] == File(s.files[f].name, s.files[f].owner, s.files[f].folder, s.files[f].blob,
                          if f in ids then deleted else s.files[f].deleted)
  }

  // Trashing a folder marks exactly the owner's live files at or below it, and credits their bytes.
  lemma TrashByRow(t: Folders.Table, s: State, id: string, owner: string)
    ensures var s' := Trashed(s, Own(t, s.files, id, owner, false), owner);
            && OnlyFlagged(s, s', Owned(t, s.files, id, owner, false), true)
            && Credited(s.users, s'.users, owner, Sum(Only(s.files, Owned(t, s.files, id, owner, false)), FileSize()))
  {
    assert Own(t, s.files, id, owner, false) == Owned(t, s.files, id, owner, false);
  }

  // Restoring it unmarks exactly the owner's trashed ones, and charges them.
  lemma RestoreByRow(t: Folders.Table, s: State, id: string, owner: string)
    requires RestorePaid(t, s, owner, id)
    ensures var s' := Restored(s, Own(t, s.files, id, owner, true), owner);
            && OnlyFlagged(s, s', Owned(t, s.files, id, owner, true), false)
            && Debited(s.users, s'.users, owner, Sum(Only(s.files, Owned(t, s.files, id, owner, true)), FileSize()))
  {
    assert Own(t, s.files, id, owner, true) == Owned(t, s.files, id, owner, true);
  }

  // Some row names the blob.
  ghost predicate NamedIn(files: Files, versions: Versions, path: string) {
    (exists f :: f in files && files[f].blob.path == path)
      || (exists v :: v in versions && versions[v].blob.path == path)
  }

  // These files and their versions are gone, the blobs nothing names any more with them, and other files at
  // or below the folders have lost their folder.
  ghost predicate OnlyDropped(s: State, s': State, ids: set<string>, folders: set<string>) {
    && s'.files.Keys == s.files.Keys - ids
    && (forall f | f in s'.files ::
          s'.files[f] == File(s.files[f].name, s.files[f].owner,
                           if s.files[f].folder.Some? && s.files[f].folder.value in folders then None
                           else s.files[f].folder, s.files[f].blob, s.files[f].deleted))
    && s'.versions.Keys == (set v | v in s.versions && s.versions[v].file !in ids)
    && (forall v | v in s'.versions :: s'.versions[v] == s.versions[v])
    && s'.disk.Keys == (set p | p in s.disk && (p !in s.refs || NamedIn(s'.files, s'.versions, p)))
    && forall p | p in s'.disk :: s'.disk[p] == s.disk[p]
  }

  lemma CountedIsNamed(files: Files, versions: Versions, folders: set<string>, p: string)
    ensures p in Recount(files, versions) <==> NamedIn(Unhoused(files, folders), versions, p)
  {
    var files' := Unhoused(files, folders);
    forall f | f in files ensures files'[f].blob == files[f].blob {}
    if p in Recount(files, versions) {
      if f :| f in files && files[f].blob.path == p { assert files'[f].blob.path == p; }
    }
  }

  lemma DropByRow(s: State, ids: set<string>, folders: set<string>, users: Accounts)
    ensures var s' := Dropped(s, ids, users); OnlyDropped(s, s'.(files := Unhoused(s'.files, folders)), ids, folders)
  {
    var s' := Dropped(s, ids, users);
    var files' := Unhoused(s'.files, folders);
    assert s'.versions.Keys == (set v | v in s.versions && s.versions[v].file !in ids);
    forall p | p in s.disk ensures p in s'.disk <==> (p !in s.refs || NamedIn(files', s'.versions, p)) {
      CountedIsNamed(s'.files, s'.versions, folders, p);
    }
  }

  lemma OwnIsOwned(t: Folders.Table, s: State, id: string, user: string)
    ensures var gone := Owned(t, s.files, id, user, false) + Owned(t, s.files, id, user, true);
            AllOwn(t, s.files, id, user) == gone
            && VersionsOf(s.versions, gone) == (set v | v in s.versions && s.versions[v].file in gone)
  {
  }

  // Purging a folder takes exactly the owner's files at or below it with their versions, and credits them all.
  lemma PurgeByRow(t: Folders.Table, s: State, id: string, user: string)
    ensures var gone, s' := Owned(t, s.files, id, user, false) + Owned(t, s.files, id, user, true),
              FolderPurged(t, s, id, user);
            && OnlyDropped(s, s', gone, Folders.Subtree(t, id))
            && Credited(s.users, s'.users, user,
                 Sum(Only(s.files, gone), FileSize()) +
                 Sum(Only(s.versions, set v | v in s.versions && s.versions[v].file in gone), SizeOf()))
  {
    OwnIsOwned(t, s, id, user);
    var gone := AllOwn(t, s.files, id, user);
    DropByRow(s, gone, Folders.Subtree(t, id), Released(s.users, user, BytesOf(s, gone)));
  }

  // With a user go exactly the user's files; no account changes.
  lemma DeleteUserByRow(t: Folders.Table, s: State, user: string)
    ensures var s' := UserDeleted(t, s, user);
            && OnlyDropped(s, s', set f | f in s.files && s.files[f].owner == user, set x | x in t
              && t[x].owner == user)
            && s'.users == s.users
  {
    var gone, folders := (set f | f in s.files && s.files[f].owner == user), (set x | x in t && t[x].owner == user);
    assert OwnedBy(s.files, user) == gone && Folders.FoldersOf(t, user) == folders;
    DropByRow(s, gone, folders, s.users);
  }

  // A folder that changes owner takes every file at or below it along, and the old owner's live bytes.
  lemma MoveByRow(t: Folders.Table, s: State, id: string, src: string, dest: string)
    requires src != dest && dest in s.users
    requires var bytes := Sum(Only(s.files, Owned(t, s.files, id, src, false)), FileSize());
             bytes == 0 || s.users[dest].used + bytes <= s.users[dest].quota
    ensures var s', bytes := FoldersMoved(s, Folders.Subtree(t, id), src, dest),
              Sum(Only(s.files, Owned(t, s.files, id, src, false)), FileSize());
            && s'.versions == s.versions && s'.refs == s.refs && s'.disk == s.disk && s'.files.Keys == s.files.Keys
            && (forall f | f in s.files ::
                  s'.files[f] == File(s.files[f].name, if InTree(t, s.files[f], id) then dest else s.files[f].owner,
                                   s.files[f].folder, s.files[f].blob, s.files[f].deleted))
            && exists between :: Credited(s.users, between, src, bytes) && Debited(between, s'.users, dest, bytes)
  {
    var live := Own(t, s.files, id, src, false);
    assert live == Owned(t, s.files, id, src, false);
    var bytes := Sum(Only(s.files, live), FileSize());
    var between := Released(s.users, src, bytes);
    assert Credited(s.users, between, src, bytes);
    assert Debited(between, Reserved(between, dest, bytes), dest, bytes);
  }

  // ---- one file ----

  // A moved file keeps everything but its folder and, with another owner, its owner, who is charged for it.
  lemma FileMoveByRow(s: State, id: string, folder: Option<string>, dest: string)
    requires id in s.files && !s.files[id].deleted && dest in s.users && MoveFits(s, id, dest)
    ensures var s', was := FileMoved(s, id, folder, dest), s.files[id];
            && s'.versions == s.versions && s'.refs == s.refs && s'.disk == s.disk
            && s'.files == s.files[id := File(was.name, dest, folder, was.blob, false)]
            && (was.owner == dest ==> s'.users == s.users)
            && (was.owner != dest ==>
                  exists between :: Credited(s.users, between, was.owner, was.blob.size)
                    && Debited(between, s'.users, dest, was.blob.size))
  {
    var was := s.files[id];
    if was.owner != dest {
      OneLive(s.files, id);
      var between := Released(s.users, was.owner, was.blob.size);
      assert Credited(s.users, between, was.owner, was.blob.size);
      assert Debited(between, Reserved(between, dest, was.blob.size), dest, was.blob.size);
    }
    assert FileMoved(s, id, folder, dest).files == s.files[id := File(was.name, dest, folder, was.blob, false)];
  }

  // A copied file is one new live row on the same blob, under the plain name if no live file of that owner in
  // that folder has it and with the suffix otherwise.
  lemma CopyByRow(s: State, src: string, owner: string, folder: Option<string>, newID: string)
    requires src in s.files && newID !in s.files && CanPay(s.users, owner, s.files[src].blob.size)
    requires s.refs == Recount(s.files, s.versions)
    ensures var s', was := Copied(s, CopyRow(s.files, src, owner, folder, newID), owner), s.files[src];
            var taken := exists f :: f in s.files && !s.files[f].deleted && s.files[f].owner == owner
                           && s.files[f].folder == folder && s.files[f].name == was.name;
            && s'.versions == s.versions && s'.disk == s.disk
            && s'.files == s.files[newID :=
                 File(if taken then CopySuffix(was.name) else was.name, owner, folder, was.blob, false)]
            && Debited(s.users, s'.users, owner, was.blob.size)
  {
    var name := CopyName(s.files, owner, folder, s.files[src].name);
    OneRowAdded(s, CopySpec(src, name, folder), owner, newID);
  }

  lemma AddingLosesNothing(files: Files, rows: Files, versions: Versions, disk: Disk)
    requires rows.Keys !! files.Keys
    ensures disk - (Recount(files, versions).Keys - Recount(files + rows, versions).Keys) == disk
  {
    forall p | p in Paths(files, versions) ensures p in Paths(files + rows, versions) {
      if f :| f in files && files[f].blob.path == p { assert (files + rows)[f].blob.path == p; }
    }
    KeepsAll(Recount(files, versions), Recount(files + rows, versions), disk);
  }

  lemma RowsAdded(s: State, rows: Files, owner: string)
    requires rows.Keys !! s.files.Keys && CanPay(s.users, owner, Sum(rows, FileSize()))
    requires s.refs == Recount(s.files, s.versions)
    ensures var s' := Copied(s, rows, owner);
            && s'.versions == s.versions && s'.disk == s.disk && s'.files == s.files + rows
            && Debited(s.users, s'.users, owner, Sum(rows, FileSize()))
  {
    AddingLosesNothing(s.files, rows, s.versions, s.disk);
  }

  lemma OneRow(files: Files, copy: CopySpec, owner: string, newID: string)
    requires copy.src in files && newID !in files
    ensures var rows := CopiedRows(files, map[newID := copy], owner);
            && rows.Keys == {newID} && Sum(rows, FileSize()) == files[copy.src].blob.size
            && files + rows == files[newID := File(copy.name, owner, copy.folder, files[copy.src].blob, false)]
  {
    OneCopy(files, newID, copy, owner);
    assert CopiedRows(files, map[newID := copy], owner)
        == map[newID := File(copy.name, owner, copy.folder, files[copy.src].blob, false)];
  }

  lemma OneRowAdded(s: State, copy: CopySpec, owner: string, newID: string)
    requires copy.src in s.files && newID !in s.files && CanPay(s.users, owner, s.files[copy.src].blob.size)
    requires s.refs == Recount(s.files, s.versions)
    ensures var s', was := Copied(s, CopiedRows(s.files, map[newID := copy], owner), owner), s.files[copy.src];
            && s'.versions == s.versions && s'.disk == s.disk
            && s'.files == s.files[newID := File(copy.name, owner, copy.folder, was.blob, false)]
            && Debited(s.users, s'.users, owner, was.blob.size)
  {
    OneRow(s.files, copy, owner, newID);
    RowsAdded(s, CopiedRows(s.files, map[newID := copy], owner), owner);
  }

  // A file created by its hash is one new live row of the caller on the donor's blob.
  lemma HashByRow(s: State, donor: string, user: string, name: string, folder: Option<string>, newID: string)
    requires donor in s.files && newID !in s.files && Fits(s.users, user, s.files[donor].blob.size)
    requires s.refs == Recount(s.files, s.versions)
    ensures var s', was := Copied(s, HashRow(s.files, donor, user, name, folder, newID), user), s.files[donor];
            && s'.versions == s.versions && s'.disk == s.disk
            && s'.files == s.files[newID := File(name, user, folder, was.blob, false)]
            && Debited(s.users, s'.users, user, was.blob.size)
  {
    OneRowAdded(s, CopySpec(donor, name, folder), user, newID);
  }
}
