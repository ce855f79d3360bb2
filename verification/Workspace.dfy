/** Folders together with the files in them: what the handlers do to both tables in one transaction. */
module Workspace {
  import opened BlobRefs
  import opened BlobStore
  import opened Options
  import opened Rows
  import opened StoreTransactions
  import opened Sums
  import Plain = PlainStore
  import Copies = FolderCopy
  import Folders = FolderForest

  // ---- the two tables together ----

  // Every file's folder is there, and every folder's owner has an account. The owner of a file need not be
  // that of its folder.
  ghost predicate Consistent(t: Folders.Table, files: Files, users: Accounts) {
    Copies.Housed(t, files) && forall x :: x in t ==> t[x].owner in users
  }

  // The files in a folder and in the folders below it.
  ghost function Under(t: Folders.Table, files: Files, id: string): set<string> {
    AllInFolders(files, Folders.Subtree(t, id))
  }

  // Those of one owner, as the queries of the folder transactions select them.
  ghost function Own(t: Folders.Table, files: Files, id: string, owner: string, deleted: bool): set<string> {
    InFolders(files, owner, Folders.Subtree(t, id), deleted)
  }

  ghost function AllOwn(t: Folders.Table, files: Files, id: string, owner: string): set<string> {
    Own(t, files, id, owner, false) + Own(t, files, id, owner, true)
  }

  // The trashed files of the owner below a folder fit again.
  ghost predicate RestorePaid(t: Folders.Table, s: State, user: string, id: string) {
    CanPay(s.users, user, Sum(Only(s.files, Own(t, s.files, id, user, true)), FileSize()))
  }

  // What goes with a purged folder; files of other owners in it are put to their root.
  ghost function FolderPurged(t: Folders.Table, s: State, id: string, user: string): State {
    var purged := Purged(s, AllOwn(t, s.files, id, user), user);
    purged.(files := Unhoused(purged.files, Folders.Subtree(t, id)))
  }

  // What goes with a user; files of others in the user's folders are put to their root.
  ghost function UserDeleted(t: Folders.Table, s: State, user: string): State {
    var dropped := Dropped(s, OwnedBy(s.files, user), s.users);
    dropped.(files := Unhoused(dropped.files, Folders.FoldersOf(t, user)))
  }

  // resolveUploadOwner: who owns what is put into the folder, if the caller may write there.
  function Recipient(t: Folders.Table, user: string, folder: Option<string>, grants: set<string>): Option<string> {
    if folder.None? then Some(user) else Folders.Access(t, user, folder.value, grants)
  }

  // The root is the caller's own; any other folder has to be open to the caller.
  predicate MayWrite(t: Folders.Table, user: string, folder: Option<string>, grants: set<string>) {
    folder.Some? ==> Folders.OpenTo(t, user, folder.value, grants)
  }

  function OwnerThere(t: Folders.Table, user: string, folder: Option<string>): string {
    if folder.Some? && folder.value in t then t[folder.value].owner else user
  }

  lemma RecipientIsOwner(t: Folders.Table, user: string, folder: Option<string>, grants: set<string>)
    ensures Recipient(t, user, folder, grants)
         == if MayWrite(t, user, folder, grants) then Some(OwnerThere(t, user, folder)) else None
    ensures Recipient(t, user, folder, grants).Some? ==> LiveFolder(t, folder, OwnerThere(t, user, folder))
  {
    if folder.Some? { Folders.AccessIsOpen(t, user, folder.value, grants); }
  }

  // canAccessFile answers the owner.
  function FileAccess(files: Files, user: string, id: string, granted: set<string>): Option<string> {
    if id !in files || files[id].deleted then None
    else if files[id].owner == user || id in granted then Some(files[id].owner)
    else None
  }

  // A live file of the caller, or one on which the caller holds a grant.
  predicate MayUse(files: Files, user: string, id: string, granted: set<string>) {
    id in files && !files[id].deleted && (files[id].owner == user || id in granted)
  }

  // commitUploadWithVersioning's own look at the folder.
  predicate LiveFolder(t: Folders.Table, folder: Option<string>, owner: string) {
    folder.Some? ==> folder.value in t && t[folder.value].owner == owner && !t[folder.value].deleted
  }

  lemma FlagsConsistent(t: Folders.Table, s: State, folders: set<string>, ids: set<string>, deleted: bool, s': State)
    requires Consistent(t, s.files, s.users) && s'.users.Keys == s.users.Keys
    requires s'.files == Flagged(s.files, ids, deleted)
    ensures Consistent(Folders.Flagged(t, folders, deleted), s'.files, s'.users)
  {
  }

  lemma PurgeConsistent(t: Folders.Table, s: State, id: string, user: string)
    requires Consistent(t, s.files, s.users)
    ensures var s' := FolderPurged(t, s, id, user);
            Consistent(t - Folders.Subtree(t, id), s'.files, s'.users)
  {
  }

  lemma DeleteUserConsistent(t: Folders.Table, s: State, user: string)
    requires Consistent(t, s.files, s.users)
    ensures var s' := UserDeleted(t, s, user);
            Consistent(Folders.DeleteRows(t, Folders.FoldersOf(t, user)), s'.files, s'.users)
  {
  }

  lemma MoveConsistent(t: Folders.Table, s: State, id: string, dest: Option<string>, owner: string)
    requires Consistent(t, s.files, s.users) && owner in s.users && id in t
    ensures var ids := Folders.Subtree(t, id);
            var t', s' := Folders.Regrafted(t, ids, id, dest, owner), FoldersMoved(s, ids, t[id].owner, owner);
            Consistent(t', s'.files, s'.users) && Consistent(t', s.files, s.users)
  {
  }

  // New rows in folders that are there.
  lemma RowsConsistent(t: Folders.Table, s: State, rows: Files, owner: string)
    requires Consistent(t, s.files, s.users) && Copies.Housed(t, rows)
    ensures Consistent(t, Copied(s, rows, owner).files, Copied(s, rows, owner).users)
  {
  }

  lemma UploadConsistent(t: Folders.Table, s: State, up: Upload, a: Answers, keep: nat)
    requires Consistent(t, s.files, s.users) && Answered(s, up, a) && LiveFolder(t, up.folder, up.owner)
    ensures Consistent(t, Uploaded(s, up, a, keep).files, Uploaded(s, up, a, keep).users)
  {
  }

  lemma MoveFileConsistent(t: Folders.Table, s: State, id: string, folder: Option<string>, dest: string)
    requires Consistent(t, s.files, s.users) && id in s.files && (folder.Some? ==> folder.value in t)
    ensures Consistent(t, s.files[id := s.files[id].(folder := folder)], s.users)
    ensures var s' := Moved(s, {id}, s.files[id].owner, dest, Into(folder)); Consistent(t, s'.files, s'.users)
  {
  }

  // ---- the transactions ----

  class Space {
    const forest: Folders.FolderStore
    const store: Store

    constructor (forest: Folders.FolderStore, store: Store)
      ensures this.forest == forest && this.store == store
    {
      this.forest, this.store := forest, store;
    }

    ghost predicate Valid()
      reads this, forest, store
    {
      forest.Valid() && Inv(store.Now(), store.h) && Consistent(forest.folders, store.files, store.users)
    }

    // ---- folders ----

    method CreateFolder(user: string, id: string, name: string, parent: Option<string>, grants: set<string>)
      returns (s: Folders.Status)
      requires Valid() && user in store.users && id !in forest.folders
      modifies forest
      ensures Valid() && s == Folders.CreateAnswer(old(forest.folders), user, name, parent, grants)
      ensures !s.Done? ==> forest.folders == old(forest.folders)
      ensures s.Done? ==> forest.folders == old(forest.folders)[id :=
                Folders.Folder(name, OwnerThere(old(forest.folders), user, parent), parent, false)]
      ensures forest.folders
              == Folders.Apply(old(forest.folders), Folders.Create(user, id, name, parent, grants))
    {
      s := forest.CreateFolder(user, id, name, parent, grants);
    }

    // Trashes a folder: all folders at and below it, and the live files of their owner in them, whose
    // bytes come back to that owner.
    method DeleteFolder(user: string, id: string, grants: set<string>) returns (s: Folders.Status)
      requires Valid()
      modifies forest, store
      ensures Valid() && (s.Done? <==> Folders.OpenTo(old(forest.folders), user, id, grants))
      ensures s.Done? ==> Folders.MarkedRows(old(forest.folders), forest.folders, id, true)
      ensures !s.Done? ==> forest.folders == old(forest.folders) && store.Now() == old(store.Now())
      ensures s.Done? ==>
                var t := old(forest.folders);
                && forest.folders == Folders.Flagged(t, Folders.Subtree(t, id), true)
                && store.Now()
                  == Trashed(old(store.Now()), Own(t, old(store.files), id, t[id].owner, false), t[id].owner)
    {
      var t := forest.folders;
      s := forest.DeleteFolder(user, id, grants);
      if !s.Done? { return; }
      var ids := Folders.CollectFolderTree(t, t[id].owner, id);
      ghost var s0 := store.Now();
      store.TrashFolderFiles(t[id].owner, ids);
      FlagsConsistent(t, s0, ids, Own(t, s0.files, id, t[id].owner, false), true, store.Now());
    }

    method RestoreUnder(t: Folders.Table, user: string, id: string) returns (ok: bool)
      requires Folders.Forest(t) && Inv(store.Now(), store.h) && Consistent(t, store.files, store.users)
      requires id in t && t[id].owner == user
      modifies store
      ensures Inv(store.Now(), store.h) && (ok <==> RestorePaid(t, old(store.Now()), user, id))
      ensures store.Now()
              == if ok then Restored(old(store.Now()), Own(t, old(store.files), id, user, true), user)
              else old(store.Now())
      ensures ok ==> Consistent(Folders.Flagged(t, Folders.Subtree(t, id), false), store.files, store.users)
    {
      ghost var s0 := store.Now();
      var ids := Folders.CollectFolderTree(t, user, id);
      ok := store.RestoreFolderFiles(user, ids);
      if ok { FlagsConsistent(t, s0, ids, Own(t, s0.files, id, user, true), false, store.Now()); }
    }

    // Restores a folder of the caller from the trash, with all folders and the caller's files below it,
    // if the bytes of those files fit again.
    method RestoreFolder(user: string, id: string) returns (s: Folders.Status)
      requires Valid()
      modifies forest, store
      ensures Valid()
      ensures s.Done? <==>
              Folders.Discarded(old(forest.folders), user, id)
              && RestorePaid(old(forest.folders), old(store.Now()), user, id)
      ensures s.Done? ==> Folders.MarkedRows(old(forest.folders), forest.folders, id, false)
      ensures !s.Done? ==> forest.folders == old(forest.folders) && store.Now() == old(store.Now())
      ensures s.Done? ==>
                && forest.folders
                  == Folders.Flagged(old(forest.folders), Folders.Subtree(old(forest.folders), id), false)
                && store.Now()
                  == Restored(old(store.Now()), Own(old(forest.folders), old(store.files), id, user, true), user)
    {
      var t := forest.folders;
      if !Folders.InTrash(t, user, id) { return Folders.NotFound; }
      var ok := RestoreUnder(t, user, id);
      s := forest.RestoreFolder(user, id, ok);
    }

    // Purges a trashed folder of the caller with all folders and the caller's files below it. Files of
    // others in it lose their folder.
    method PurgeFolder(user: string, id: string) returns (s: Folders.Status)
      requires Valid()
      modifies forest, store
      ensures Valid() && (s.Done? <==> Folders.Discarded(old(forest.folders), user, id))
      ensures !s.Done? ==> forest.folders == old(forest.folders) && store.Now() == old(store.Now())
      ensures s.Done? ==>
                var t := old(forest.folders);
                && forest.folders == t - Folders.Subtree(t, id)
                && store.Now() == FolderPurged(t, old(store.Now()), id, user)
    {
      var t := forest.folders;
      s := forest.PurgeFolder(user, id);
      if !s.Done? { return; }
      Folders.PurgeOrphansNobody(t, id);
      PurgeFiles(t, user, id);
    }

    method PurgeFiles(t: Folders.Table, user: string, id: string)
      requires Folders.Forest(t) && Inv(store.Now(), store.h) && Consistent(t, store.files, store.users)
      requires id in t && t[id].owner == user
      modifies store
      ensures Inv(store.Now(), store.h) && store.Now() == FolderPurged(t, old(store.Now()), id, user)
      ensures Consistent(t - Folders.Subtree(t, id), store.files, store.users)
    {
      PurgeConsistent(t, store.Now(), id, user);
      var ids := Folders.CollectFolderTree(t, user, id);
      store.PurgeFolderFiles(user, ids);
      store.ForgetFolders(ids);
    }

    // Moves a folder. Within one owner only its parent changes; to another owner go the folders and all
    // files in them, if the bytes of the live ones of the old owner fit there.
    method MoveFolder(user: string, id: string, dest: Option<string>, grants: set<string>) returns (s: Folders.Status)
      requires Valid() && user in store.users
      modifies forest, store
      ensures Valid()
      ensures s == MoveResult(old(forest.folders), old(store.Now()), user, id, dest, grants)
      ensures !s.Done? ==> forest.folders == old(forest.folders) && store.Now() == old(store.Now())
      ensures s.Done? ==>
                Folders.MovedRows(old(forest.folders), forest.folders, id, dest,
                  OwnerThere(old(forest.folders), user, dest))
      ensures s.Done? ==>
                var t, owner := old(forest.folders), OwnerThere(old(forest.folders), user, dest);
                && forest.folders == Folders.Regrafted(t, Folders.Subtree(t, id), id, dest, owner)
                && store.Now() == if t[id].owner == owner then old(store.Now())
                                  else FoldersMoved(old(store.Now()), Folders.Subtree(t, id), t[id].owner, owner)
    {
      var t := forest.folders;
      s := Folders.CheckMove(t, user, id, dest, grants);
      if !s.Done? { return; }
      var ok := MoveFiles(t, id, dest, OwnerThere(t, user, dest));
      s := forest.MoveFolder(user, id, dest, grants, ok);
    }

    // The files follow their folders to another owner.
    method MoveFiles(t: Folders.Table, id: string, ghost dest: Option<string>, owner: string) returns (ok: bool)
      requires Folders.Forest(t) && Inv(store.Now(), store.h) && Consistent(t, store.files, store.users)
      requires id in t && owner in store.users
      modifies store
      ensures Inv(store.Now(), store.h) && (ok <==> MovePaid(t, old(store.Now()), id, owner))
      ensures store.Now() == if ok && t[id].owner != owner
                             then FoldersMoved(old(store.Now()), Folders.Subtree(t, id), t[id].owner, owner)
                               else old(store.Now())
      ensures Consistent(if ok then Folders.Regrafted(t, Folders.Subtree(t, id), id, dest, owner) else t,
                  store.files, store.users)
    {
      MoveConsistent(t, store.Now(), id, dest, owner);
      if owner == t[id].owner { return true; }
      var ids := Folders.CollectFolderTree(t, t[id].owner, id);
      ok := store.ReassignFolderFiles(t[id].owner, owner, ids);
    }

    // The folders of a user go, and the files; files of others in those folders lose their folder.
    method DeleteUser(user: string)
      requires Valid()
      modifies forest, store
      ensures Valid()
      ensures forest.folders == Folders.DeleteRows(old(forest.folders), Folders.FoldersOf(old(forest.folders), user))
      ensures store.Now() == UserDeleted(old(forest.folders), old(store.Now()), user)
    {
      var t := forest.folders;
      forest.DeleteUserFolders(user);
      DeleteUserFiles(t, user);
    }

    method DeleteUserFiles(t: Folders.Table, user: string)
      requires Inv(store.Now(), store.h) && Consistent(t, store.files, store.users)
      modifies store
      ensures Inv(store.Now(), store.h) && store.Now() == UserDeleted(t, old(store.Now()), user)
      ensures Consistent(Folders.DeleteRows(t, Folders.FoldersOf(t, user)), store.files, store.users)
    {
      DeleteUserConsistent(t, store.Now(), user);
      store.DeleteUserResources(user);
      store.ForgetFolders(Folders.FoldersOf(t, user));
    }

    // Copies a folder with its live folders and files: the file rows are exactly the copies, and their
    // bytes are what the destination's owner is charged.
    method CopyFolder(user: string, src: string, dest: Option<string>, viewGrants: set<string>, editGrants: set<string>,
                      newID: map<string, string>, fileIDs: map<string, string>)
      returns (r: Option<string>)
      requires Valid() && user in store.users && Copies.FreshIds(forest.folders, store.files, src, newID, fileIDs)
      modifies forest, store
      ensures Valid()
      ensures r.Some? <==>
              CopyGoes(old(forest.folders), old(store.Now()), user, src, dest, viewGrants, editGrants, newID, fileIDs)
      ensures r.None? ==> forest.folders == old(forest.folders) && store.Now() == old(store.Now())
      ensures r.Some? ==>
              CopyRan(old(forest.folders), old(store.Now()), forest.folders, store.Now(), user, src, dest, newID,
              fileIDs)
      ensures r.Some? ==> src in newID && r == Some(newID[src])
    {
      var t := forest.folders;
      var copied := CopyRows(t, user, src, dest, viewGrants, editGrants, newID, fileIDs);
      if copied.None? { return None; }
      forest.folders := copied.value;
      r := Some(newID[src]);
    }

    // The folder rows are returned, the file rows inserted.
    method CopyRows(t: Folders.Table, user: string, src: string, dest: Option<string>, viewGrants: set<string>,
                    editGrants: set<string>, newID: map<string, string>, fileIDs: map<string, string>)
      returns (r: Option<Folders.Table>)
      requires Folders.Forest(t) && Inv(store.Now(), store.h) && Consistent(t, store.files, store.users)
               && user in store.users
      requires Copies.FreshIds(t, store.files, src, newID, fileIDs)
      modifies store
      ensures Inv(store.Now(), store.h)
      ensures r.Some? <==> CopyGoes(t, old(store.Now()), user, src, dest, viewGrants, editGrants, newID, fileIDs)
      ensures r.None? ==> store.Now() == old(store.Now())
      ensures r.Some? ==> CopyRan(t, old(store.Now()), r.value, store.Now(), user, src, dest, newID, fileIDs)
      ensures r.Some? ==> src in newID && Folders.Forest(r.value) && Consistent(r.value, store.files, store.users)
    {
      CopyableIsOpen(t, store.files, user, src, dest, viewGrants, editGrants);
      var copied := Copies.CopyTree(t, store.files, user, src, dest, viewGrants, editGrants, true, newID, fileIDs);
      if copied.None? { return None; }
      TreeStands(t, store.Now(), copied.value.0, user, src, dest, viewGrants, editGrants, newID, fileIDs);
      var ok := InsertPlan(t, copied.value.0, user, src, dest, newID, fileIDs);
      r := if ok then Some(copied.value.0) else None;
    }

    method InsertPlan(t: Folders.Table, ghost t': Folders.Table, user: string, src: string, dest: Option<string>,
                      newID: map<string, string>, fileIDs: map<string, string>)
      returns (ok: bool)
      requires Inv(store.Now(), store.h) && Consistent(t, store.files, store.users)
      requires CopyStands(t, store.Now(), t', user, src, dest, newID, fileIDs)
      modifies store
      ensures Inv(store.Now(), store.h)
      ensures ok <==> CopyPaid(t, old(store.Now()), user, src, dest, newID, fileIDs)
      ensures ok ==> CopyRan(t, old(store.Now()), t', store.Now(), user, src, dest, newID, fileIDs)
      ensures ok ==> Consistent(t', store.files, store.users)
      ensures !ok ==> store.Now() == old(store.Now())
    {
      var owner := if dest.Some? && dest.value in t then t[dest.value].owner else user;
      ok := InsertFiles(t, Copies.PlanOf(t, user, src, dest, newID), newID, owner, fileIDs);
    }

    // The file rows of a copy, after its folder rows.
    method InsertFiles(t: Folders.Table, ghost p: Copies.Plan, newID: map<string, string>, owner: string,
                       fileIDs: map<string, string>)
      returns (ok: bool)
      requires Inv(store.Now(), store.h) && Consistent(t, store.files, store.users)
      requires newID == p.newID && owner == p.owner && Insertable(t, store.Now(), p, fileIDs)
      modifies store
      ensures Inv(store.Now(), store.h)
      ensures ok <==> CanPay(old(store.users), owner, Sum(FileRows(t, old(store.files), p, fileIDs), FileSize()))
      ensures store.Now()
              == if ok then Copied(old(store.Now()), FileRows(t, old(store.files), p, fileIDs), owner)
              else old(store.Now())
      ensures ok ==> Consistent(Copies.Copy(t, p), store.files, store.users)
    {
      SpecsAreRows(t, store.files, p, fileIDs);
      CopyConsistent(t, store.Now(), p, fileIDs);
      ok := InsertSpecs(SpecsOf(store.files, newID, fileIDs), owner, Copies.Copy(t, p),
        FileRows(t, store.files, p, fileIDs));
    }

    method InsertSpecs(specs: map<string, CopySpec>, owner: string, ghost t': Folders.Table, ghost rows: Files)
      returns (ok: bool)
      requires Inv(store.Now(), store.h) && specs.Keys !! store.files.Keys && owner in store.users
      requires CopiedRows(store.files, specs, owner) == rows && Consistent(t', store.files + rows, store.users)
      modifies store
      ensures Inv(store.Now(), store.h) && (ok <==> CanPay(old(store.users), owner, Sum(rows, FileSize())))
      ensures store.Now() == if ok then Copied(old(store.Now()), rows, owner) else old(store.Now())
      ensures ok ==> Consistent(t', store.files, store.users)
    {
      ok := store.CopyFolderFiles(specs, owner);
    }

    // ---- files ----

    // An upload is attributed to the folder's owner, whom the transaction looks up again. `a` tells which
    // same-name file it found, if any.
    method Upload(user: string, grants: set<string>, up: Upload, maxVersions: int, fault: Fault)
      returns (r: Result<UploadCommit>, a: Answers)
      requires Valid() && Prepared(store.Now(), up, store.h) && store.h.CollisionFree()
      modifies store
      ensures Valid()
      ensures MayWrite(forest.folders, user, up.folder, grants) ==>
                FoundSameName(old(store.files), up, OwnerThere(forest.folders, user, up.folder), a.existing)
      ensures r.Ok? <==>
                && MayWrite(forest.folders, user, up.folder, grants)
                && UploadGoes(old(store.files), old(store.users), up, OwnerThere(forest.folders, user, up.folder),
                     a.existing, fault)
      ensures r == Err(FolderNotFound) <==> !MayWrite(forest.folders, user, up.folder, grants)
      ensures r == Err(QuotaExceeded) <==>
                && MayWrite(forest.folders, user, up.folder, grants) && !HasTheBytes(old(store.files), up, a.existing)
                && !HasRoom(old(store.users), OwnerThere(forest.folders, user, up.folder), up.size)
      ensures r.Err? ==> NothingUploaded(old(store.Now()), up, store.Now())
      ensures r.Ok? ==> r.value.fileID == if a.existing.Some? then a.existing.value else up.fileID
      ensures r.Ok? ==>
                HoldsUpload(store.files, store.disk, r.value.fileID, up,
                  OwnerThere(forest.folders, user, up.folder), old(store.disk)[up.tmp].plain)
      ensures r.Ok? ==> VersionsLeft(old(store.Now()), store.versions, up, user, a, r.value, maxVersions)
      ensures r.Ok? ==>
                var mine := Attributed(up, user, OwnerThere(forest.folders, user, up.folder));
                Answered(old(store.Now()), mine, a)
                  && store.Now() == Uploaded(old(store.Now()), mine, a, Cap(maxVersions))
    {
      RecipientIsOwner(forest.folders, user, up.folder, grants);
      var owner := Recipient(forest.folders, user, up.folder, grants);
      if owner.None? { return Err(FolderNotFound), Answers(None, None, 0); }
      r, a := CommitAs(user, owner.value, up, maxVersions, fault);
    }

    method CommitAs(user: string, owner: string, up: Upload, maxVersions: int, fault: Fault)
      returns (r: Result<UploadCommit>, a: Answers)
      requires Valid() && Prepared(store.Now(), up, store.h) && store.h.CollisionFree()
      requires LiveFolder(forest.folders, up.folder, owner)
      modifies store
      ensures Valid()
      ensures FoundSameName(old(store.files), up, owner, a.existing)
      ensures r.Ok? <==> UploadGoes(old(store.files), old(store.users), up, owner, a.existing, fault)
      ensures r.Err? ==> r.error == if !HasTheBytes(old(store.files), up, a.existing)
                                       && !HasRoom(old(store.users), owner, up.size) then QuotaExceeded else Io
      ensures r.Err? ==> NothingUploaded(old(store.Now()), up, store.Now())
      ensures r.Ok? ==> r.value.fileID == if a.existing.Some? then a.existing.value else up.fileID
      ensures r.Ok? ==>
                HoldsUpload(store.files, store.disk, r.value.fileID, up, owner, old(store.disk)[up.tmp].plain)
      ensures r.Ok? ==> VersionsLeft(old(store.Now()), store.versions, up, user, a, r.value, maxVersions)
      ensures r.Ok? ==>
                var mine := Attributed(up, user, owner);
                Answered(old(store.Now()), mine, a)
                  && store.Now() == Uploaded(old(store.Now()), mine, a, Cap(maxVersions))
    {
      var mine := Attributed(up, user, owner);
      ghost var s := store.Now();
      r, a := store.CommitUpload(mine, maxVersions, LiveFolder(forest.folders, mine.folder, mine.owner), fault);
      SameNameIsFound(s.files, up, user, owner, a.existing);
      if r.Ok? {
        UploadConsistent(forest.folders, s, mine, a, Cap(maxVersions));
        UploadIsHeld(s, up, user, owner, a, Cap(maxVersions), store.h);
      }
      DonorIsHeld(s.files, up, user, owner, a);
    }

    // A copy belongs to the owner of the folder it goes to.
    method CopyFile(user: string, src: string, granted: set<string>, folder: Option<string>, grants: set<string>,
                    newID: string)
      returns (r: Result<string>)
      requires Valid() && user in store.users && newID !in store.files
      modifies store
      ensures Valid()
      ensures r.Ok? <==>
                && MayUse(old(store.files), user, src, granted) && MayWrite(forest.folders, user, folder, grants)
                && CanPay(old(store.users), OwnerThere(forest.folders, user, folder), old(store.files)[src].blob.size)
      ensures r == Err(NotFound) <==> !MayUse(old(store.files), user, src, granted)
      ensures r == Err(FolderNotFound) <==>
                MayUse(old(store.files), user, src, granted) && !MayWrite(forest.folders, user, folder, grants)
      ensures r.Err? ==> store.Now() == old(store.Now())
      ensures r.Ok? ==>
                var owner := OwnerThere(forest.folders, user, folder);
                r.value == newID
                && store.Now() == Copied(old(store.Now()), CopyRow(old(store.files), src, owner, folder, newID), owner)
    {
      if FileAccess(store.files, user, src, granted).None? { return Err(NotFound); }
      RecipientIsOwner(forest.folders, user, folder, grants);
      var owner := Recipient(forest.folders, user, folder, grants);
      if owner.None? { return Err(FolderNotFound); }
      RowsConsistent(forest.folders, store.Now(), CopyRow(store.files, src, owner.value, folder, newID), owner.value);
      r := store.CopyFile(src, owner.value, folder, newID);
    }

    // A file comes to belong to the owner of the folder it is moved to.
    method MoveFile(user: string, id: string, granted: set<string>, folder: Option<string>, grants: set<string>)
      returns (r: Result<()>)
      requires Valid() && user in store.users
      modifies store
      ensures Valid()
      ensures r.Ok? <==>
                && MayUse(old(store.files), user, id, granted) && MayWrite(forest.folders, user, folder, grants)
                && MoveFits(old(store.Now()), id, OwnerThere(forest.folders, user, folder))
      ensures r == Err(NotFound) <==> !MayUse(old(store.files), user, id, granted)
      ensures r == Err(FolderNotFound) <==>
                MayUse(old(store.files), user, id, granted) && !MayWrite(forest.folders, user, folder, grants)
      ensures r.Err? ==> store.Now() == old(store.Now())
      ensures r.Ok? ==>
                store.Now() == FileMoved(old(store.Now()), id, folder, OwnerThere(forest.folders, user, folder))
    {
      if FileAccess(store.files, user, id, granted).None? { return Err(NotFound); }
      RecipientIsOwner(forest.folders, user, folder, grants);
      var owner := Recipient(forest.folders, user, folder, grants);
      if owner.None? { return Err(FolderNotFound); }
      MoveFileConsistent(forest.folders, store.Now(), id, folder, owner.value);
      r := store.MoveFile(id, folder, owner.value);
    }

    // The new row belongs to the caller, whoever owns the folder. Hash and name come trimmed, and the hash in
    // lower case.
    method CreateFromHash(user: string, hash: string, name: string, folder: Option<string>, grants: set<string>,
                          newID: string)
      returns (r: Result<string>, donor: string)
      requires Valid() && user in store.users && newID !in store.files
      modifies store
      ensures Valid()
      ensures r == Err(Malformed) <==> |hash| != 64 || name == ""
      ensures r == Err(FolderNotFound) <==>
                |hash| == 64 && name != "" && !MayWrite(forest.folders, user, folder, grants)
      ensures r == Err(NotFound) <==>
                && |hash| == 64 && name != "" && MayWrite(forest.folders, user, folder, grants)
                && NoneRecords(old(store.files), user, hash)
      ensures r.Err? ==> store.Now() == old(store.Now())
      ensures r.Err? && r.error == QuotaExceeded ==>
                donor in old(store.files) && old(store.files)[donor].blob.hash == hash
                && !HasRoom(old(store.users), user, old(store.files)[donor].blob.size)
      ensures r.Err? ==> r.error != Io
      ensures r.Ok? ==>
                && |hash| == 64 && name != "" && MayWrite(forest.folders, user, folder, grants) && r.value == newID
                && HoldsHash(store.files, store.disk, newID, user, name, folder, hash, store.h)
      ensures r.Ok? ==>
                && HasHash(old(store.files), user, hash, donor)
                && HasRoom(old(store.users), user, old(store.files)[donor].blob.size)
                && store.Now()
                  == Copied(old(store.Now()), HashRow(old(store.files), donor, user, name, folder, newID), user)
    {
      if |hash| != 64 || name == "" { return Err(Malformed), ""; }
      RecipientIsOwner(forest.folders, user, folder, grants);
      if Recipient(forest.folders, user, folder, grants).None? { return Err(FolderNotFound), ""; }
      r, donor := HashFrom(user, hash, name, folder, newID);
    }

    method HashFrom(user: string, hash: string, name: string, folder: Option<string>, newID: string)
      returns (r: Result<string>, donor: string)
      requires Valid() && user in store.users && newID !in store.files && hash != ""
               && (folder.Some? ==> folder.value in forest.folders)
      modifies store
      ensures Valid()
      ensures r == Err(NotFound) <==> NoneRecords(old(store.files), user, hash)
      ensures r.Err? ==> store.Now() == old(store.Now())
      ensures r.Err? ==> r.error == NotFound || r.error == QuotaExceeded
      ensures r == Err(QuotaExceeded) ==>
                donor in old(store.files) && old(store.files)[donor].blob.hash == hash
                && !HasRoom(old(store.users), user, old(store.files)[donor].blob.size)
      ensures r.Ok? ==> r.value == newID && HoldsHash(store.files, store.disk, newID, user, name, folder, hash, store.h)
      ensures r.Ok? ==>
                && HasHash(old(store.files), user, hash, donor)
                && HasRoom(old(store.users), user, old(store.files)[donor].blob.size)
                && store.Now()
                  == Copied(old(store.Now()), HashRow(old(store.files), donor, user, name, folder, newID), user)
    {
      ghost var s := store.Now();
      r, donor := store.CreateFromHash(user, hash, name, folder, newID);
      if r.Ok? {
        RowsConsistent(forest.folders, s, HashRow(s.files, donor, user, name, folder, newID), user);
        HashIsHeld(s, donor, user, name, folder, hash, newID, store.h);
      }
    }
  }

  // ---- what an upload finds and leaves ----

  predicate SameNameAs(files: Files, up: Upload, owner: string, x: string) {
    && x in files && !files[x].deleted
    && files[x].owner == owner && files[x].folder == up.folder && files[x].name == up.name
  }

  // Some live file of the owner with that name in that folder, or none if there is none.
  ghost predicate FoundSameName(files: Files, up: Upload, owner: string, existing: Option<string>) {
    if existing.Some? then SameNameAs(files, up, owner, existing.value)
    else forall x :: x in files ==> !SameNameAs(files, up, owner, x)
  }

  predicate HasTheBytes(files: Files, up: Upload, existing: Option<string>) {
    existing.Some? && existing.value in files && files[existing.value].blob.hash == up.hash
  }

  predicate HasRoom(users: Accounts, owner: string, size: nat) {
    owner in users && users[owner].used + size <= users[owner].quota
  }

  ghost predicate Held(files: Files, up: Upload, owner: string) {
    exists x :: x in files && !files[x].deleted && files[x].owner == owner && files[x].blob.hash == up.hash
  }

  // The bytes are there already, or they fit; and nothing fails, where only bytes that are held nowhere
  // need the rename.
  ghost predicate UploadGoes(files: Files, users: Accounts, up: Upload, owner: string, existing: Option<string>,
                             fault: Fault)
  {
    if HasTheBytes(files, up, existing) then !fault.AtCommit?
    else HasRoom(users, owner, up.size) && (fault.NoFault? || (fault.AtRename? && Held(files, up, owner)))
  }

  // A live row of that name, folder and owner that reads these bytes.
  ghost predicate HoldsUpload(files: Files, disk: Disk, id: string, up: Upload, owner: string, content: Bytes) {
    && id in files && files[id].name == up.name && files[id].folder == up.folder && files[id].owner == owner
    && !files[id].deleted && files[id].blob.hash == up.hash && Plain.Body(disk, files[id].blob) == Some(content)
  }

  // With new bytes for a same-name file the old ones are its newest version, made by the caller, and as many
  // as the limit allows are left; otherwise no version changes.
  ghost predicate VersionsLeft(s: State, versions: Versions, up: Upload, user: string, a: Answers, r: UploadCommit,
                               maxVersions: int)
  {
    if a.existing.None? || HasTheBytes(s.files, up, a.existing) then !r.versioned && versions == s.versions
    else
      && r.versioned && a.existing.value in s.files
      && NewestKept(s.versions[up.versionID := Version(a.existing.value, r.newVersionNo,
                      s.files[a.existing.value].blob.(hash := ""), user)],
           versions, a.existing.value, if maxVersions > 0 then maxVersions else 10)
  }

  // A live row of that name, folder and owner whose bytes have the hash.
  ghost predicate HoldsHash(files: Files, disk: Disk, id: string, user: string, name: string, folder: Option<string>,
                            hash: string, h: Digest)
  {
    && id in files && files[id].name == name && files[id].folder == folder && files[id].owner == user
    && !files[id].deleted && files[id].blob.hash == hash
    && var body := Plain.Body(disk, files[id].blob); body.Some? && h.of(body.value) == hash
  }

  lemma SameNameIsFound(files: Files, up: Upload, user: string, owner: string, existing: Option<string>)
    ensures SameNameAnswer(files, Attributed(up, user, owner), existing) ==> FoundSameName(files, up, owner, existing)
  {
    var mine := Attributed(up, user, owner);
    forall x ensures SameNameAs(files, up, owner, x) <==> IsSameName(files, mine, x) {}
  }

  // Past a same-name file with other bytes, a donor is any live file of the owner with these.
  lemma DonorIsHeld(files: Files, up: Upload, user: string, owner: string, a: Answers)
    ensures var mine := Attributed(up, user, owner);
            !HasTheBytes(files, up, a.existing) && DonorAnswer(files, mine, a.existing, a.donor) ==>
              (a.donor.Some? <==> Held(files, up, owner))
  {
    var mine := Attributed(up, user, owner);
    if !HasTheBytes(files, up, a.existing) && Held(files, up, owner) {
      var x :| x in files && !files[x].deleted && files[x].owner == owner && files[x].blob.hash == up.hash;
      assert IsDonor(files, mine, a.existing, x);
    }
  }

  function Attributed(up: Upload, uploader: string, owner: string): Upload {
    up.(uploader := uploader, owner := owner)
  }

  function CopyRow(files: Files, src: string, owner: string, folder: Option<string>, newID: string): Files
    requires src in files
  {
    CopiedRows(files, map[newID := CopySpec(src, CopyName(files, owner, folder, files[src].name), folder)], owner)
  }

  function HashRow(files: Files, donor: string, user: string, name: string, folder: Option<string>,
                   newID: string): Files
  {
    CopiedRows(files, map[newID := CopySpec(donor, name, folder)], user)
  }

  ghost function FileMoved(s: State, id: string, folder: Option<string>, dest: string): State
    requires id in s.files
  {
    if s.files[id].owner == dest then s.(files := s.files[id := s.files[id].(folder := folder)])
    else Moved(s, {id}, s.files[id].owner, dest, Into(folder))
  }

  lemma UploadIsHeld(s: State, up: Upload, user: string, owner: string, a: Answers, keep: nat, h: Digest)
    requires Inv(s, h) && Prepared(s, up, h) && h.CollisionFree() && Answered(s, Attributed(up, user, owner), a)
    requires owner in s.users
    ensures var s' := Uploaded(s, Attributed(up, user, owner), a, keep);
            HoldsUpload(s'.files, s'.disk, if a.existing.Some? then a.existing.value else up.fileID, up, owner,
              s.disk[up.tmp].plain)
  {
    var mine := Attributed(up, user, owner);
    Plain.UploadRefines(s, mine, a, keep, h);
    UploadKeepsInv(s, mine, a, keep, h);
  }

  lemma HashIsHeld(s: State, donor: string, user: string, name: string, folder: Option<string>, hash: string,
                   newID: string, h: Digest)
    requires HasHash(s.files, user, hash, donor) && hash != "" && newID !in s.files
    requires Inv(Copied(s, HashRow(s.files, donor, user, name, folder, newID), user), h)
    ensures var s' := Copied(s, HashRow(s.files, donor, user, name, folder, newID), user);
            HoldsHash(s'.files, s'.disk, newID, user, name, folder, hash, h)
  {
    var s' := Copied(s, HashRow(s.files, donor, user, name, folder, newID), user);
    assert newID in s'.files && Sound(s'.disk, h, s'.files[newID].blob);
  }

  // For another owner the live bytes below have to fit there.
  ghost predicate MovePaid(t: Folders.Table, s: State, id: string, owner: string)
    requires id in t
  {
    var total := Sum(Only(s.files, Own(t, s.files, id, t[id].owner, false)), FileSize());
    owner != t[id].owner ==> CanPay(Released(s.users, t[id].owner, total), owner, total)
  }

  ghost function MoveResult(t: Folders.Table, s: State, user: string, id: string, dest: Option<string>,
                            grants: set<string>): Folders.Status
    requires Folders.Forest(t)
  {
    var answer := Folders.MoveAnswer(t, user, id, dest, grants, true);
    if answer.Done? && !MovePaid(t, s, id, OwnerThere(t, user, dest)) then Folders.QuotaExceeded else answer
  }

  // ---- trash and back ----

  lemma {:induction false} FlagsKeepAncestors(t: Folders.Table, ids: set<string>, deleted: bool, x: string, n: nat)
    ensures Folders.Ancestor(Folders.Flagged(t, ids, deleted), x, n) == Folders.Ancestor(t, x, n)
    decreases n
  {
    if n > 0 && x in t && t[x].parent.Some? { FlagsKeepAncestors(t, ids, deleted, t[x].parent.value, n - 1); }
  }

  lemma FlagsKeepSubtree(t: Folders.Table, ids: set<string>, deleted: bool, id: string)
    ensures Folders.Subtree(Folders.Flagged(t, ids, deleted), id) == Folders.Subtree(t, id)
  {
    var t' := Folders.Flagged(t, ids, deleted);
    forall x ensures x in Folders.Subtree(t', id) <==> x in Folders.Subtree(t, id) {
      forall n: nat ensures Folders.Ancestor(t', x, n) == Folders.Ancestor(t, x, n) {
        FlagsKeepAncestors(t, ids, deleted, x, n);
      }
    }
  }

  // No folder at or below this one, and none of the owner's files in it, was in the trash.
  ghost predicate AllLive(t: Folders.Table, files: Files, id: string, owner: string) {
    (forall x :: x in Folders.Subtree(t, id) ==> !t[x].deleted) && Own(t, files, id, owner, true) == {}
  }

  ghost function TrashedTable(t: Folders.Table, id: string): Folders.Table {
    Folders.Flagged(t, Folders.Subtree(t, id), true)
  }

  ghost function TrashedStore(t: Folders.Table, s: State, id: string, owner: string): State {
    Trashed(s, Own(t, s.files, id, owner, false), owner)
  }

  ghost function BackTable(t: Folders.Table, id: string): Folders.Table {
    Folders.Flagged(t, Folders.Subtree(t, id), false)
  }

  ghost function BackStore(t: Folders.Table, s: State, id: string, owner: string): State {
    Restored(s, Own(t, s.files, id, owner, true), owner)
  }

  lemma UnderAfterTrash(t: Folders.Table, s: State, id: string, owner: string)
    ensures Own(TrashedTable(t, id), TrashedStore(t, s, id, owner).files, id, owner, true)
            == AllOwn(t, s.files, id, owner)
  {
    FlagsKeepSubtree(t, Folders.Subtree(t, id), true, id);
  }

  lemma FoldersBack(t: Folders.Table, id: string)
    ensures BackTable(TrashedTable(t, id), id) == Folders.Flagged(t, Folders.Subtree(t, id), false)
    ensures BackTable(TrashedTable(t, id), id) == t <==> forall x :: x in Folders.Subtree(t, id) ==> !t[x].deleted
  {
    FlagsKeepSubtree(t, Folders.Subtree(t, id), true, id);
    var back := Folders.Flagged(t, Folders.Subtree(t, id), false);
    if x :| x in Folders.Subtree(t, id) && t[x].deleted { assert back[x] != t[x]; }
  }

  lemma FlagTwice(files: Files, live: set<string>, ids: set<string>)
    requires live <= ids
    ensures Flagged(Flagged(files, live, true), ids, false) == Flagged(files, ids, false)
    ensures Flagged(files, ids, false) == files <==> forall f :: f in ids && f in files ==> !files[f].deleted
  {
    if f :| f in ids && f in files && files[f].deleted { assert Flagged(files, ids, false)[f] != files[f]; }
  }

  lemma FlagKeepsBytes(files: Files, live: set<string>, ids: set<string>)
    ensures Sum(Only(Flagged(files, live, true), ids), FileSize()) == Sum(Only(files, ids), FileSize())
  {
    SumSame(Only(files, ids), FileSize(), Only(Flagged(files, live, true), ids), FileSize());
  }

  lemma FilesBack(t: Folders.Table, s: State, id: string, owner: string)
    ensures var s1 := TrashedStore(t, s, id, owner);
            var back := BackStore(TrashedTable(t, id), s1, id, owner).files;
            back == s.files <==> Own(t, s.files, id, owner, true) == {}
  {
    UnderAfterTrash(t, s, id, owner);
    FlagTwice(s.files, Own(t, s.files, id, owner, false), AllOwn(t, s.files, id, owner));
    forall f | f in AllOwn(t, s.files, id, owner) && s.files[f].deleted ensures f in Own(t, s.files, id, owner, true) {}
  }

  // Restoring a folder right after trashing it gives back both tables if and only if nothing in it was
  // in the trash before; then the account is charged as before, too.
  lemma RestoreUndoesTrash(t: Folders.Table, s: State, id: string, owner: string)
    requires owner in s.users && s.users[owner].used <= s.users[owner].quota
    requires Sum(Only(s.files, Own(t, s.files, id, owner, false)), FileSize()) <= s.users[owner].used
    ensures var t1, s1 := TrashedTable(t, id), TrashedStore(t, s, id, owner);
            var t2, s2 := BackTable(t1, id), BackStore(t1, s1, id, owner);
            && (t2 == t && s2.files == s.files <==> AllLive(t, s.files, id, owner))
            && (AllLive(t, s.files, id, owner) ==> RestorePaid(t1, s1, owner, id) && s2 == s)
  {
    FoldersBack(t, id);
    FilesBack(t, s, id, owner);
    if AllLive(t, s.files, id, owner) { BytesBack(t, s, id, owner); }
  }

  lemma BytesBack(t: Folders.Table, s: State, id: string, owner: string)
    requires owner in s.users && s.users[owner].used <= s.users[owner].quota
    requires Sum(Only(s.files, Own(t, s.files, id, owner, false)), FileSize()) <= s.users[owner].used
    requires Own(t, s.files, id, owner, true) == {}
    ensures var t1, s1 := TrashedTable(t, id), TrashedStore(t, s, id, owner);
            RestorePaid(t1, s1, owner, id) && BackStore(t1, s1, id, owner).users == s.users
  {
    var ids := AllOwn(t, s.files, id, owner);
    UnderAfterTrash(t, s, id, owner);
    assert Own(t, s.files, id, owner, false) == ids;
    BackToUse(s, ids, owner);
    assert TrashedStore(t, s, id, owner) == Trashed(s, ids, owner);
  }

  lemma BackToUse(s: State, ids: set<string>, owner: string)
    requires owner in s.users && Sum(Only(s.files, ids), FileSize()) <= s.users[owner].used <= s.users[owner].quota
    ensures var s1 := Trashed(s, ids, owner);
            CanPay(s1.users, owner, Sum(Only(s1.files, ids), FileSize())) && Restored(s1, ids, owner).users == s.users
  {
    FlagKeepsBytes(s.files, ids, ids);
    BackToBalance(s.users, owner, Sum(Only(s.files, ids), FileSize()));
  }

  lemma BackToBalance(users: Accounts, owner: string, size: nat)
    requires owner in users && size <= users[owner].used <= users[owner].quota
    ensures CanPay(Released(users, owner, size), owner, size)
            && Reserved(Released(users, owner, size), owner, size) == users
  {
  }

  // A folder of one user with a trashed file in it.
  const ONE_FOLDER: Folders.Table := map["d" := Folders.Folder("d", "u", None, false)]

  ghost function OneTrashed(): State {
    var files: Files := map["f" := File("a", "u", Some("d"), Blob("p", "k", 1, ""), true)];
    State(files, map[], Recount(files, map[]), map["p" := Sealed("k", [0])], map["u" := Account(0, 10)])
  }

  lemma OneTrashedSound(h: Digest)
    ensures Inv(OneTrashed(), h) && Consistent(ONE_FOLDER, OneTrashed().files, OneTrashed().users)
  {
  }

  lemma OneTrashedIsUnder()
    ensures "f" in Own(ONE_FOLDER, OneTrashed().files, "d", "u", true)
    ensures forall x :: x in Folders.Subtree(ONE_FOLDER, "d") ==> !ONE_FOLDER[x].deleted
  {
    Folders.WithinUnfolds(ONE_FOLDER, "d", "d");
  }

  // A file that was in the trash before comes back with its folder.
  lemma ComesBack(t: Folders.Table, s: State, id: string, owner: string, f: string)
    requires f in Own(t, s.files, id, owner, true) && forall x :: x in Folders.Subtree(t, id) ==> !t[x].deleted
    ensures BackTable(TrashedTable(t, id), id) == t
    ensures BackStore(TrashedTable(t, id), TrashedStore(t, s, id, owner), id, owner).files != s.files
  {
    FilesBack(t, s, id, owner);
    FoldersBack(t, id);
  }

  // Trashing and restoring the folder brings the file back, too.
  lemma TrashedFileComesBack(h: Digest)
    ensures Inv(OneTrashed(), h) && Consistent(ONE_FOLDER, OneTrashed().files, OneTrashed().users)
    ensures BackTable(TrashedTable(ONE_FOLDER, "d"), "d") == ONE_FOLDER
    ensures BackStore(TrashedTable(ONE_FOLDER, "d"), TrashedStore(ONE_FOLDER, OneTrashed(), "d", "u"), "d", "u").files
            != OneTrashed().files
  {
    OneTrashedSound(h);
    OneTrashedIsUnder();
    ComesBack(ONE_FOLDER, OneTrashed(), "d", "u", "f");
  }

  // ---- copies ----

  // The plan fits the tables, and its files have their folders among the copied ones.
  ghost predicate Insertable(t: Folders.Table, s: State, p: Copies.Plan, fileIDs: map<string, string>) {
    && Copies.PlanFor(t, p) && p.owner in s.users && Copies.FilesLinked(t, s.files, p.src)
    && Copies.FreshFileIds(s.files, Copies.FilesIn(s.files, Folders.Subtree(t, p.src)), fileIDs)
  }

  ghost predicate CopyStands(t: Folders.Table, s: State, t': Folders.Table, user: string, src: string,
                             dest: Option<string>, newID: map<string, string>, fileIDs: map<string, string>)
  {
    src in t && Copies.FreshIds(t, s.files, src, newID, fileIDs) &&
    var p := Copies.PlanOf(t, user, src, dest, newID);
    Insertable(t, s, p, fileIDs) && t' == Copies.Copy(t, p)
  }

  lemma TreeStands(t: Folders.Table, s: State, t': Folders.Table, user: string, src: string, dest: Option<string>,
                   viewGrants: set<string>, editGrants: set<string>, newID: map<string, string>,
                   fileIDs: map<string, string>)
    requires Folders.Forest(t) && Consistent(t, s.files, s.users) && user in s.users
             && Copies.FreshIds(t, s.files, src, newID, fileIDs)
    requires Copies.Copyable(t, s.files, user, src, dest, viewGrants, editGrants, true)
    requires var p := Copies.PlanOf(t, user, src, dest, newID);
             Copies.GoodPlan(t, p) && Copies.LiveTree(t, src) <= p.nodes.Keys
               && t' == Copies.WithCopies(t, p, Copies.LiveTree(t, src))
    ensures CopyStands(t, s, t', user, src, dest, newID, fileIDs) && src in newID && Folders.Forest(t')
  {
    Copies.CopyKeepsForest(t, Copies.PlanOf(t, user, src, dest, newID));
  }

  // Below the new root stand the copies, and their file rows are what the store was asked for.
  ghost predicate CopyRan(t: Folders.Table, s: State, t': Folders.Table, s': State, user: string, src: string,
                          dest: Option<string>, newID: map<string, string>, fileIDs: map<string, string>)
  {
    && CopyStands(t, s, t', user, src, dest, newID, fileIDs)
    && var p := Copies.PlanOf(t, user, src, dest, newID);
       s' == Copied(s, FileRows(t, s.files, p, fileIDs), p.owner)
  }

  ghost function FileRows(t: Folders.Table, files: Files, p: Copies.Plan, fileIDs: map<string, string>): Files
    requires Copies.FreshFileIds(files, Copies.FilesIn(files, Folders.Subtree(t, p.src)), fileIDs)
  {
    Copies.FileCopies(files, p, Copies.FilesIn(files, Folders.Subtree(t, p.src)), fileIDs)
  }

  // The file rows to insert, by their new ids.
  function SpecsOf(files: Files, newID: map<string, string>, fileIDs: map<string, string>): map<string, CopySpec>
    requires fileIDs.Keys <= files.Keys && Copies.Injective(fileIDs)
    requires forall f :: f in fileIDs ==> files[f].folder.Some? && files[f].folder.value in newID
  {
    map f | f in fileIDs :: fileIDs[f] := CopySpec(f, files[f].name, Some(newID[files[f].folder.value]))
  }

  // The caller may see the source and write at the destination, each live file below has its folder in the
  // copy, and the bytes of exactly the copied files fit.
  ghost predicate CopyGoes(t: Folders.Table, s: State, user: string, src: string, dest: Option<string>,
                           viewGrants: set<string>, editGrants: set<string>, newID: map<string, string>,
                           fileIDs: map<string, string>)
  {
    && Folders.OpenTo(t, user, src, viewGrants) && MayWrite(t, user, dest, editGrants)
    && Copies.FilesLinked(t, s.files, src) && CopyPaid(t, s, user, src, dest, newID, fileIDs)
  }

  lemma CopyableIsOpen(t: Folders.Table, files: Files, user: string, src: string, dest: Option<string>,
                       viewGrants: set<string>, editGrants: set<string>)
    ensures Copies.Copyable(t, files, user, src, dest, viewGrants, editGrants, true) <==>
              Folders.OpenTo(t, user, src, viewGrants) && MayWrite(t, user, dest, editGrants)
              && Copies.FilesLinked(t, files, src)
  {
    Folders.AccessIsOpen(t, user, src, viewGrants);
    if dest.Some? { Folders.AccessIsOpen(t, user, dest.value, editGrants); }
  }

  ghost predicate CopyPaid(t: Folders.Table, s: State, user: string, src: string, dest: Option<string>,
                           newID: map<string, string>, fileIDs: map<string, string>)
  {
    && Copies.FreshIds(t, s.files, src, newID, fileIDs) && src in t
    && var p := Copies.PlanOf(t, user, src, dest, newID);
       CanPay(s.users, p.owner, Sum(FileRows(t, s.files, p, fileIDs), FileSize()))
  }

  // What the store is asked to insert is what the folder copy inserts.
  lemma SpecsAreRows(t: Folders.Table, files: Files, p: Copies.Plan, fileIDs: map<string, string>)
    requires Copies.GoodPlan(t, p) && Copies.LiveTree(t, p.src) <= p.nodes.Keys && Copies.FilesLinked(t, files, p.src)
    requires Copies.FreshFileIds(files, Copies.FilesIn(files, Folders.Subtree(t, p.src)), fileIDs)
    ensures forall f :: f in fileIDs ==> f in files && files[f].folder.Some? && files[f].folder.value in p.newID
    ensures CopiedRows(files, SpecsOf(files, p.newID, fileIDs), p.owner) == FileRows(t, files, p, fileIDs)
    ensures SpecsOf(files, p.newID, fileIDs).Keys !! files.Keys
  {
    var specs, rows := SpecsOf(files, p.newID, fileIDs), FileRows(t, files, p, fileIDs);
    forall c | c in specs ensures c in rows && CopiedRows(files, specs, p.owner)[c] == rows[c] {
      var f :| f in fileIDs && fileIDs[f] == c;
      SpecIsRow(files, p, fileIDs, f);
    }
    assert CopiedRows(files, specs, p.owner).Keys == specs.Keys == rows.Keys;
  }

  lemma SpecIsRow(files: Files, p: Copies.Plan, fileIDs: map<string, string>, f: string)
    requires fileIDs.Keys <= files.Keys && Copies.Injective(fileIDs) && f in fileIDs && !files[f].deleted
    requires forall g :: g in fileIDs ==> files[g].folder.Some? && files[g].folder.value in p.newID
    ensures var specs := SpecsOf(files, p.newID, fileIDs);
            fileIDs[f] in specs && CopiedRows(files, specs, p.owner)[fileIDs[f]] == Copies.CopiedFile(files[f], p)
  {
  }

  lemma CopiedRowAtHome(t: Folders.Table, s: State, p: Copies.Plan, fileIDs: map<string, string>, f: string)
    requires Insertable(t, s, p, fileIDs) && f in fileIDs
    ensures var row, t' := Copies.CopiedFile(s.files[f], p), Copies.Copy(t, p);
            row.folder.Some? && row.folder.value in t' && t'[row.folder.value].owner == row.owner
  {
    Copies.CopiedRow(t, p, s.files[f].folder.value);
  }

  lemma BothConsistent(t: Folders.Table, t': Folders.Table, files: Files, rows: Files, users: Accounts)
    requires Consistent(t, files, users) && Consistent(t', rows, users)
    requires forall x :: x in t ==> x in t' && t'[x] == t[x]
    ensures Consistent(t', files + rows, users)
  {
  }

  lemma CopiesConsistent(t: Folders.Table, s: State, p: Copies.Plan, fileIDs: map<string, string>)
    requires Consistent(t, s.files, s.users) && Insertable(t, s, p, fileIDs)
    ensures Consistent(Copies.Copy(t, p), FileRows(t, s.files, p, fileIDs), s.users)
  {
    var t', rows := Copies.Copy(t, p), FileRows(t, s.files, p, fileIDs);
    forall f | f in rows
      ensures rows[f].folder.Some? && rows[f].folder.value in t' && t'[rows[f].folder.value].owner == rows[f].owner
    {
      var g :| g in fileIDs && fileIDs[g] == f;
      CopiedRowAtHome(t, s, p, fileIDs, g);
    }
    forall x | x in t' ensures t'[x].owner in s.users { CopyOwner(t, s, p, x); }
  }

  lemma CopyConsistent(t: Folders.Table, s: State, p: Copies.Plan, fileIDs: map<string, string>)
    requires Consistent(t, s.files, s.users) && Insertable(t, s, p, fileIDs)
    ensures Consistent(Copies.Copy(t, p), s.files + FileRows(t, s.files, p, fileIDs), s.users)
  {
    CopiesConsistent(t, s, p, fileIDs);
    forall x | x in t ensures x in Copies.Copy(t, p) && Copies.Copy(t, p)[x] == t[x] { OldRowStays(t, p, x); }
    BothConsistent(t, Copies.Copy(t, p), s.files, FileRows(t, s.files, p, fileIDs), s.users);
  }

  lemma CopyOwner(t: Folders.Table, s: State, p: Copies.Plan, x: string)
    requires Copies.PlanFor(t, p) && p.owner in s.users && (forall y :: y in t ==> t[y].owner in s.users)
             && x in Copies.Copy(t, p)
    ensures Copies.Copy(t, p)[x].owner in s.users
  {
    if x !in t {
      var y :| y in Copies.LiveTree(t, p.src) && p.newID[y] == x;
      Copies.CopiedRow(t, p, y);
    }
  }

  lemma OldRowStays(t: Folders.Table, p: Copies.Plan, x: string)
    requires Copies.PlanFor(t, p) && x in t
    ensures x in Copies.Copy(t, p) && Copies.Copy(t, p)[x] == t[x]
  {
  }
}
