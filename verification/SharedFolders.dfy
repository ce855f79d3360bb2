/** Files in folders of another owner: where they come from, and what the folder transactions do to them. */
module SharedFolders {
  import opened BlobRefs
  import opened BlobStore
  import opened Options
  import opened QuotaLedger
  import opened Rows
  import opened StoreTransactions
  import opened Sums
  import opened Workspace
  import Copies = FolderCopy
  import Folders = FolderForest

  // The file sits at the root or in a folder of its own owner.
  predicate RowAtHome(t: Folders.Table, f: File) {
    f.folder.Some? ==> f.folder.value in t && t[f.folder.value].owner == f.owner
  }

  ghost function Strays(t: Folders.Table, files: Files): set<string> {
    set f | f in files && !RowAtHome(t, files[f])
  }

  ghost function StraysUnder(t: Folders.Table, files: Files, id: string, deleted: bool): set<string> {
    set f | f in Under(t, files, id) * Strays(t, files) && files[f].deleted == deleted
  }

  lemma SameOwnerUnder(t: Folders.Table, files: Files, id: string, f: string)
    requires Folders.Owned(t) && f in Under(t, files, id)
    ensures id in t && (f in Strays(t, files) <==> files[f].owner != t[id].owner)
  {
    Folders.SubtreeOwner(t, id, files[f].folder.value);
  }

  // ---- what each transaction does to the set of strays ----

  // Trashing and restoring: nothing.
  lemma FlagsKeepStrays(t: Folders.Table, files: Files, folders: set<string>, ids: set<string>, deleted: bool)
    ensures Strays(Folders.Flagged(t, folders, deleted), Flagged(files, ids, deleted)) == Strays(t, files)
  {
    var t', files' := Folders.Flagged(t, folders, deleted), Flagged(files, ids, deleted);
    forall f | f in files ensures RowAtHome(t', files'[f]) <==> RowAtHome(t, files[f]) {}
  }

  // Purging a folder puts those in it to their root.
  lemma PurgeStrays(t: Folders.Table, s: State, id: string)
    requires Folders.Owned(t) && Copies.Housed(t, s.files) && id in t
    ensures Strays(t - Folders.Subtree(t, id), FolderPurged(t, s, id, t[id].owner).files)
         == Strays(t, s.files) - Under(t, s.files, id)
  {
    var t', files' := t - Folders.Subtree(t, id), FolderPurged(t, s, id, t[id].owner).files;
    forall f ensures f in Strays(t', files') <==> f in Strays(t, s.files) - Under(t, s.files, id) {
      if f in Under(t, s.files, id) { SameOwnerUnder(t, s.files, id, f); }
    }
  }

  // Moving a folder to another owner makes all files in it that owner's.
  lemma MoveStrays(t: Folders.Table, s: State, id: string, dest: Option<string>, owner: string)
    requires Folders.Owned(t) && id in t
    ensures var ids := Folders.Subtree(t, id);
            Strays(Folders.Regrafted(t, ids, id, dest, owner), FoldersMoved(s, ids, t[id].owner, owner).files)
            == Strays(t, s.files) - Under(t, s.files, id)
    ensures owner == t[id].owner ==>
              Strays(Folders.Regrafted(t, Folders.Subtree(t, id), id, dest, owner), s.files) == Strays(t, s.files)
  {
    forall x | x in Folders.Subtree(t, id) ensures t[x].owner == t[id].owner { Folders.SubtreeOwner(t, id, x); }
  }

  lemma GrownTables(t: Folders.Table, t': Folders.Table, files: Files, rows: Files)
    requires (forall x :: x in t ==> x in t' && t'[x] == t[x]) && Copies.Housed(t, files)
    requires forall f :: f in rows ==> f !in files && RowAtHome(t', rows[f])
    ensures Strays(t', files + rows) == Strays(t, files)
  {
  }

  // Copies are at home, wherever their originals are.
  lemma CopyStrays(t: Folders.Table, s: State, p: Copies.Plan, fileIDs: map<string, string>)
    requires Insertable(t, s, p, fileIDs) && Copies.Housed(t, s.files)
    ensures Strays(Copies.Copy(t, p), s.files + FileRows(t, s.files, p, fileIDs)) == Strays(t, s.files)
  {
    var t', rows := Copies.Copy(t, p), FileRows(t, s.files, p, fileIDs);
    forall x | x in t ensures x in t' && t'[x] == t[x] { OldRowStays(t, p, x); }
    forall f | f in rows ensures f !in s.files && RowAtHome(t', rows[f]) {
      var g :| g in fileIDs && fileIDs[g] == f;
      CopiedRowAtHome(t, s, p, fileIDs, g);
    }
    GrownTables(t, t', s.files, rows);
  }

  lemma UploadStrays(t: Folders.Table, s: State, up: Upload, a: Answers, keep: nat)
    requires Answered(s, up, a) && LiveFolder(t, up.folder, up.owner) && up.fileID !in s.files
    ensures Strays(t, Uploaded(s, up, a, keep).files) == Strays(t, s.files)
  {
  }

  // A file that is moved is at home afterwards.
  lemma MoveFileStrays(t: Folders.Table, s: State, id: string, folder: Option<string>, user: string,
                       grants: set<string>)
    requires id in s.files && Recipient(t, user, folder, grants).Some?
    ensures Strays(t, FileMoved(s, id, folder, Recipient(t, user, folder, grants).value).files)
            == Strays(t, s.files) - {id}
  {
  }

  lemma CopyFileStrays(t: Folders.Table, s: State, src: string, user: string, folder: Option<string>,
                       grants: set<string>, newID: string)
    requires src in s.files && newID !in s.files && Recipient(t, user, folder, grants).Some?
    ensures var owner := Recipient(t, user, folder, grants).value;
            Strays(t, Copied(s, CopyRow(s.files, src, owner, folder, newID), owner).files) == Strays(t, s.files)
  {
    AddedRow(t, s.files, CopyRow(s.files, src, Recipient(t, user, folder, grants).value, folder, newID), newID);
  }

  lemma AddedRow(t: Folders.Table, files: Files, rows: Files, id: string)
    requires rows.Keys == {id} && id !in files
    ensures Strays(t, files + rows) == Strays(t, files) + if RowAtHome(t, rows[id]) then {} else {id}
  {
  }

  // The one transaction that makes a stray: a file created by hash, exactly when the folder is somebody else's.
  lemma HashStrays(t: Folders.Table, s: State, donor: string, user: string, name: string, folder: Option<string>,
                   grants: set<string>, newID: string)
    requires donor in s.files && newID !in s.files && Recipient(t, user, folder, grants).Some?
    ensures var files' := Copied(s, HashRow(s.files, donor, user, name, folder, newID), user).files;
            Strays(t, files')
              == Strays(t, s.files) + if Recipient(t, user, folder, grants) == Some(user) then {} else {newID}
  {
    AddedRow(t, s.files, HashRow(s.files, donor, user, name, folder, newID), newID);
  }

  // Deleting a user puts those in the user's folders to their root; the user's own go.
  lemma DeleteUserStrays(t: Folders.Table, s: State, user: string)
    requires Folders.Owned(t) && Copies.Housed(t, s.files)
    ensures Strays(Folders.DeleteRows(t, Folders.FoldersOf(t, user)), UserDeleted(t, s, user).files)
         == Strays(t, s.files) - OwnedBy(s.files, user) - AllInFolders(s.files, Folders.FoldersOf(t, user))
  {
  }

  // ---- over whole runs ----

  datatype Tables = Tables(t: Folders.Table, s: State)

  // The transactions that go through, with what they found.
  datatype Deed =
    | CreateFolder(id: string, name: string, owner: string, parent: Option<string>)
    | TrashFolder(id: string)
    | RestoreFolder(id: string)
    | PurgeFolder(id: string)
    | MoveFolder(id: string, dest: Option<string>, owner: string)
    | CopyFolder(p: Copies.Plan, fileIDs: map<string, string>)
    | DeleteUser(user: string)
    | UploadFile(up: Upload, answers: Answers, keep: nat)
    | CopyFile(src: string, user: string, folder: Option<string>, grants: set<string>, newID: string)
    | MoveFile(id: string, user: string, folder: Option<string>, grants: set<string>)
    | FromHash(donor: string, user: string, name: string, folder: Option<string>, grants: set<string>, newID: string)

  ghost predicate Can(b: Tables, d: Deed) {
    match d
    case CreateFolder(id, _, owner, parent) =>
      id !in b.t && owner in b.s.users && (parent.Some? ==> parent.value in b.t && b.t[parent.value].owner == owner)
    case TrashFolder(id) => id in b.t
    case RestoreFolder(id) => id in b.t
    case PurgeFolder(id) => id in b.t
    case MoveFolder(id, dest, owner) =>
      && id in b.t && owner in b.s.users
      && (dest.Some? ==> dest.value in b.t && dest.value !in Folders.Subtree(b.t, id) && b.t[dest.value].owner == owner)
    case CopyFolder(p, fileIDs) => Insertable(b.t, b.s, p, fileIDs)
    case DeleteUser(user) => true
    case UploadFile(up, a, _) => Answered(b.s, up, a) && LiveFolder(b.t, up.folder, up.owner) && up.fileID !in b.s.files
    case CopyFile(src, user, folder, grants, newID) =>
      src in b.s.files && newID !in b.s.files && Recipient(b.t, user, folder, grants).Some?
    case MoveFile(id, user, folder, grants) => id in b.s.files && Recipient(b.t, user, folder, grants).Some?
    case FromHash(donor, user, _, folder, grants, newID) =>
      donor in b.s.files && newID !in b.s.files && Recipient(b.t, user, folder, grants).Some?
  }

  ghost function Next(b: Tables, d: Deed): Tables
    requires Can(b, d)
  {
    match d
    case CreateFolder(id, name, owner, parent) => b.(t := Folders.Created(b.t, id, name, owner, parent))
    case TrashFolder(id) =>
      Tables(Folders.Flagged(b.t, Folders.Subtree(b.t, id), true),
        Trashed(b.s, Own(b.t, b.s.files, id, b.t[id].owner, false), b.t[id].owner))
    case RestoreFolder(id) =>
      Tables(Folders.Flagged(b.t, Folders.Subtree(b.t, id), false),
        Restored(b.s, Own(b.t, b.s.files, id, b.t[id].owner, true), b.t[id].owner))
    case PurgeFolder(id) => Tables(b.t - Folders.Subtree(b.t, id), FolderPurged(b.t, b.s, id, b.t[id].owner))
    case MoveFolder(id, dest, owner) =>
      Tables(Folders.Regrafted(b.t, Folders.Subtree(b.t, id), id, dest, owner),
        if owner == b.t[id].owner then b.s else FoldersMoved(b.s, Folders.Subtree(b.t, id), b.t[id].owner, owner))
    case CopyFolder(p, fileIDs) =>
      Tables(Copies.Copy(b.t, p), Copied(b.s, FileRows(b.t, b.s.files, p, fileIDs), p.owner))
    case DeleteUser(user) => Tables(Folders.DeleteRows(b.t, Folders.FoldersOf(b.t, user)), UserDeleted(b.t, b.s, user))
    case UploadFile(up, a, keep) => b.(s := Uploaded(b.s, up, a, keep))
    case CopyFile(src, user, folder, grants, newID) =>
      var owner := Recipient(b.t, user, folder, grants).value;
      b.(s := Copied(b.s, CopyRow(b.s.files, src, owner, folder, newID), owner))
    case MoveFile(id, user, folder,
      grants) => b.(s := FileMoved(b.s, id, folder, Recipient(b.t, user, folder, grants).value))
    case FromHash(donor, user, name, folder, grants, newID) =>
      b.(s := Copied(b.s, HashRow(b.s.files, donor, user, name, folder, newID), user))
  }

  ghost predicate Good(b: Tables) {
    Folders.Forest(b.t) && Consistent(b.t, b.s.files, b.s.users)
  }

  // ---- what the handlers let through is one of these ----

  lemma CreateIsDeed(t: Folders.Table, s: State, user: string, id: string, name: string, parent: Option<string>,
                     grants: set<string>)
    requires Folders.Forest(t) && Consistent(t, s.files, s.users) && user in s.users && id !in t
    requires Folders.CreateAnswer(t, user, name, parent, grants).Done?
    ensures var d := CreateFolder(id, name, OwnerThere(t, user, parent), parent);
            Can(Tables(t, s), d)
            && Next(Tables(t, s), d).t == t[id := Folders.Folder(name, OwnerThere(t, user, parent), parent, false)]
  {
  }

  lemma MoveIsDeed(t: Folders.Table, s: State, user: string, id: string, dest: Option<string>, grants: set<string>)
    requires Folders.Forest(t) && Consistent(t, s.files, s.users) && user in s.users
    requires MoveResult(t, s, user, id, dest, grants).Done?
    ensures var owner := OwnerThere(t, user, dest);
            var d := MoveFolder(id, dest, owner);
            Can(Tables(t, s), d)
            && Next(Tables(t, s), d) == Tables(Folders.Regrafted(t, Folders.Subtree(t, id), id, dest, owner),
                 if t[id].owner == owner then s else FoldersMoved(s, Folders.Subtree(t, id), t[id].owner, owner))
  {
  }

  lemma FlagsAreDeeds(t: Folders.Table, s: State, id: string)
    requires id in t
    ensures Can(Tables(t, s), TrashFolder(id)) && Can(Tables(t, s), RestoreFolder(id))
    ensures Next(Tables(t, s), TrashFolder(id)) == Tables(TrashedTable(t, id), TrashedStore(t, s, id, t[id].owner))
    ensures Next(Tables(t, s), RestoreFolder(id)) == Tables(BackTable(t, id), BackStore(t, s, id, t[id].owner))
  {
  }

  lemma CopyIsDeed(t: Folders.Table, s: State, t': Folders.Table, s': State, user: string, src: string,
                   dest: Option<string>, newID: map<string, string>, fileIDs: map<string, string>)
    requires CopyRan(t, s, t', s', user, src, dest, newID, fileIDs)
    ensures var d := CopyFolder(Copies.PlanOf(t, user, src, dest, newID), fileIDs);
            Can(Tables(t, s), d) && Next(Tables(t, s), d) == Tables(t', s')
  {
  }

  lemma RemovalsAreDeeds(t: Folders.Table, s: State, id: string, user: string)
    requires id in t
    ensures Can(Tables(t, s), PurgeFolder(id)) && Can(Tables(t, s), DeleteUser(user))
    ensures Next(Tables(t, s), PurgeFolder(id))
         == Tables(t - Folders.Subtree(t, id), FolderPurged(t, s, id, t[id].owner))
    ensures Next(Tables(t, s), DeleteUser(user))
         == Tables(Folders.DeleteRows(t, Folders.FoldersOf(t, user)), UserDeleted(t, s, user))
  {
  }

  lemma UploadIsDeed(t: Folders.Table, s: State, up: Upload, a: Answers, keep: nat, user: string, grants: set<string>)
    requires MayWrite(t, user, up.folder, grants) && up.fileID !in s.files
    requires Answered(s, Attributed(up, user, OwnerThere(t, user, up.folder)), a)
    ensures var mine := Attributed(up, user, OwnerThere(t, user, up.folder));
            Can(Tables(t, s), UploadFile(mine, a, keep))
            && Next(Tables(t, s), UploadFile(mine, a, keep)) == Tables(t, Uploaded(s, mine, a, keep))
  {
  }

  lemma FileDeeds(t: Folders.Table, s: State, id: string, user: string, name: string, folder: Option<string>,
                  grants: set<string>, newID: string)
    requires MayWrite(t, user, folder, grants) && id in s.files && newID !in s.files
    ensures var owner := OwnerThere(t, user, folder);
            && Can(Tables(t, s), CopyFile(id, user, folder, grants, newID))
            && Can(Tables(t, s), MoveFile(id, user, folder, grants))
            && Can(Tables(t, s), FromHash(id, user, name, folder, grants, newID))
            && Next(Tables(t, s), CopyFile(id, user, folder, grants, newID))
               == Tables(t, Copied(s, CopyRow(s.files, id, owner, folder, newID), owner))
            && Next(Tables(t, s), MoveFile(id, user, folder, grants)) == Tables(t, FileMoved(s, id, folder, owner))
            && Next(Tables(t, s), FromHash(id, user, name, folder, grants, newID))
               == Tables(t, Copied(s, HashRow(s.files, id, user, name, folder, newID), user))
  {
    RecipientIsOwner(t, user, folder, grants);
  }

  // It puts a file into a folder of another owner.
  predicate MakesStray(t: Folders.Table, d: Deed) {
    d.FromHash? && Recipient(t, d.user, d.folder, d.grants) != Some(d.user)
  }

  predicate OnFolders(d: Deed) {
    d.CreateFolder? || d.TrashFolder? || d.RestoreFolder? || d.PurgeFolder? || d.MoveFolder? || d.CopyFolder?
      || d.DeleteUser?
  }

  lemma PurgeForest(t: Folders.Table, id: string)
    requires Folders.Forest(t)
    ensures Folders.Forest(t - Folders.Subtree(t, id))
  {
    Folders.DeleteKeepsForest(t, Folders.Subtree(t, id));
    Folders.PurgeOrphansNobody(t, id);
    assert t - Folders.Subtree(t, id) == Folders.DeleteRows(t, Folders.Subtree(t, id));
  }

  lemma FolderDeedForest(b: Tables, d: Deed)
    requires Good(b) && Can(b, d) && OnFolders(d)
    ensures Folders.Forest(Next(b, d).t)
  {
    match d
    case CreateFolder(id, name, owner, parent) => Folders.CreateKeepsForest(b.t, id, name, owner, parent);
    case TrashFolder(id) => Folders.FlagKeepsForest(b.t, Folders.Subtree(b.t, id), true);
    case RestoreFolder(id) => Folders.FlagKeepsForest(b.t, Folders.Subtree(b.t, id), false);
    case PurgeFolder(id) => PurgeForest(b.t, id);
    case MoveFolder(id, dest, owner) => Folders.MoveKeepsForest(b.t, id, dest, owner);
    case CopyFolder(p, fileIDs) => Copies.CopyKeepsForest(b.t, p);
    case DeleteUser(user) => Folders.DeleteKeepsForest(b.t, Folders.FoldersOf(b.t, user));
  }

  ghost predicate GoodTables(t: Folders.Table, s: State) {
    Consistent(t, s.files, s.users)
  }

  lemma TrashConsistent(t: Folders.Table, s: State, id: string)
    requires GoodTables(t, s) && id in t
    ensures GoodTables(Folders.Flagged(t, Folders.Subtree(t, id), true),
                       Trashed(s, Own(t, s.files, id, t[id].owner, false), t[id].owner))
    ensures GoodTables(Folders.Flagged(t, Folders.Subtree(t, id), false),
                       Restored(s, Own(t, s.files, id, t[id].owner, true), t[id].owner))
  {
    var ids, live, gone := Folders.Subtree(t, id), Own(t, s.files, id, t[id].owner, false),
      Own(t, s.files, id, t[id].owner, true);
    FlagsConsistent(t, s, ids, live, true, Trashed(s, live, t[id].owner));
    FlagsConsistent(t, s, ids, gone, false, Restored(s, gone, t[id].owner));
  }

  lemma CreateConsistent(t: Folders.Table, s: State, id: string, name: string, owner: string, parent: Option<string>)
    requires GoodTables(t, s) && owner in s.users
    ensures GoodTables(Folders.Created(t, id, name, owner, parent), s)
  {
  }

  lemma CopyGoodTables(t: Folders.Table, s: State, p: Copies.Plan, fileIDs: map<string, string>)
    requires GoodTables(t, s) && Insertable(t, s, p, fileIDs)
    ensures GoodTables(Copies.Copy(t, p), Copied(s, FileRows(t, s.files, p, fileIDs), p.owner))
  {
    CopyConsistent(t, s, p, fileIDs);
  }

  lemma FolderDeedConsistent(b: Tables, d: Deed)
    requires GoodTables(b.t, b.s) && Can(b, d) && OnFolders(d)
    ensures GoodTables(Next(b, d).t, Next(b, d).s)
  {
    match d
    case CreateFolder(id, name, owner, parent) => CreateConsistent(b.t, b.s, id, name, owner, parent);
    case TrashFolder(id) => TrashConsistent(b.t, b.s, id);
    case RestoreFolder(id) => TrashConsistent(b.t, b.s, id);
    case PurgeFolder(id) => PurgeConsistent(b.t, b.s, id, b.t[id].owner);
    case MoveFolder(id, dest, owner) => MoveConsistent(b.t, b.s, id, dest, owner);
    case CopyFolder(p, fileIDs) => CopyGoodTables(b.t, b.s, p, fileIDs);
    case DeleteUser(user) => DeleteUserConsistent(b.t, b.s, user);
  }

  lemma NewRowConsistent(t: Folders.Table, s: State, rows: Files, owner: string, folder: Option<string>)
    requires GoodTables(t, s) && (folder.Some? ==> folder.value in t) && forall f :: f in rows ==>
             rows[f].folder == folder
    ensures GoodTables(t, Copied(s, rows, owner))
  {
    RowsConsistent(t, s, rows, owner);
  }

  lemma FileDeedConsistent(b: Tables, d: Deed)
    requires GoodTables(b.t, b.s) && Can(b, d) && !OnFolders(d)
    ensures GoodTables(Next(b, d).t, Next(b, d).s)
  {
    match d
    case UploadFile(up, a, keep) => UploadConsistent(b.t, b.s, up, a, keep);
    case CopyFile(src, user, folder, grants, newID) =>
      var owner := Recipient(b.t, user, folder, grants).value;
      NewRowConsistent(b.t, b.s, CopyRow(b.s.files, src, owner, folder, newID), owner, folder);
    case MoveFile(id, user, folder, grants) =>
      MoveFileConsistent(b.t, b.s, id, folder, Recipient(b.t, user, folder, grants).value);
    case FromHash(donor, user, name, folder, grants, newID) =>
      NewRowConsistent(b.t, b.s, HashRow(b.s.files, donor, user, name, folder, newID), user, folder);
  }

  lemma DeedKeepsGood(b: Tables, d: Deed)
    requires Good(b) && Can(b, d)
    ensures Good(Next(b, d))
  {
    if OnFolders(d) {
      FolderDeedForest(b, d);
      FolderDeedConsistent(b, d);
    } else {
      FileDeedConsistent(b, d);
    }
  }

  // One transaction makes no stray but the file it creates by hash in a folder of another owner.
  lemma DeedStrays(b: Tables, d: Deed)
    requires Good(b) && Can(b, d)
    ensures Strays(Next(b, d).t, Next(b, d).s.files)
         <= Strays(b.t, b.s.files) + if MakesStray(b.t, d) then {d.newID} else {}
    ensures MakesStray(b.t, d) ==> d.newID in Strays(Next(b, d).t, Next(b, d).s.files)
  {
    match d
    case CreateFolder(id, name, owner, parent) =>
    case TrashFolder(id) => FlagsKeepStrays(b.t, b.s.files, Folders.Subtree(b.t, id),
      Own(b.t, b.s.files, id, b.t[id].owner, false), true);
    case RestoreFolder(id) => FlagsKeepStrays(b.t, b.s.files, Folders.Subtree(b.t, id),
      Own(b.t, b.s.files, id, b.t[id].owner, true), false);
    case PurgeFolder(id) => PurgeStrays(b.t, b.s, id);
    case MoveFolder(id, dest, owner) => MoveStrays(b.t, b.s, id, dest, owner);
    case CopyFolder(p, fileIDs) => CopyStrays(b.t, b.s, p, fileIDs);
    case DeleteUser(user) => DeleteUserStrays(b.t, b.s, user);
    case UploadFile(up, a, keep) => UploadStrays(b.t, b.s, up, a, keep);
    case CopyFile(src, user, folder, grants, newID) => CopyFileStrays(b.t, b.s, src, user, folder, grants, newID);
    case MoveFile(id, user, folder, grants) => MoveFileStrays(b.t, b.s, id, folder, user, grants);
    case FromHash(donor, user, name, folder, grants, newID) => HashStrays(b.t, b.s, donor, user, name, folder, grants,
      newID);
  }

  ghost predicate History(tables: seq<Tables>, deeds: seq<Deed>) {
    && |tables| == |deeds| + 1
    && forall i :: 0 <= i < |deeds| ==> Can(tables[i], deeds[i]) && tables[i + 1] == Next(tables[i], deeds[i])
  }

  // Over any run the tables stay consistent, and every stray was created by hash in a folder of another
  // owner: without such a creation every file stays at home.
  lemma {:induction false} EveryStrayWasMade(tables: seq<Tables>, deeds: seq<Deed>, n: nat)
    requires History(tables, deeds) && Good(tables[0]) && Strays(tables[0].t, tables[0].s.files) == {} && n <= |deeds|
    ensures Good(tables[n])
    ensures forall f :: f in Strays(tables[n].t, tables[n].s.files) ==>
              exists i :: 0 <= i < n && MakesStray(tables[i].t, deeds[i]) && deeds[i].newID == f
    decreases n
  {
    if n > 0 {
      EveryStrayWasMade(tables, deeds, n - 1);
      var b, d := tables[n - 1], deeds[n - 1];
      DeedKeepsGood(b, d);
      DeedStrays(b, d);
    }
  }

  // ---- what the folder transactions miss ----

  ghost function With(files: Files, folders: set<string>, deleted: bool): set<string> {
    set f | f in AllInFolders(files, folders) && files[f].deleted == deleted
  }

  ghost function AtRoot(files: Files): set<string> {
    set f | f in files && files[f].folder.None?
  }

  // After a trashing the live files at or below the folder are exactly the strays that were live.
  lemma TrashMisses(t: Folders.Table, s: State, id: string)
    requires Folders.Owned(t) && id in t
    ensures var s' := Trashed(s, Own(t, s.files, id, t[id].owner, false), t[id].owner);
            With(s'.files, Folders.Subtree(t, id), false) == StraysUnder(t, s.files, id, false)
  {
    forall f | f in Under(t, s.files, id) ensures f in Strays(t, s.files) <==> s.files[f].owner != t[id].owner {
      SameOwnerUnder(t, s.files, id, f);
    }
  }

  // After a restore the trashed ones are exactly the strays that were in the trash.
  lemma RestoreMisses(t: Folders.Table, s: State, id: string)
    requires Folders.Owned(t) && id in t
    ensures var s' := Restored(s, Own(t, s.files, id, t[id].owner, true), t[id].owner);
            With(s'.files, Folders.Subtree(t, id), true) == StraysUnder(t, s.files, id, true)
  {
    forall f | f in Under(t, s.files, id) ensures f in Strays(t, s.files) <==> s.files[f].owner != t[id].owner {
      SameOwnerUnder(t, s.files, id, f);
    }
  }

  // A purge changes no row it does not delete, and leaves none of the files below, if and only if there
  // is no stray among them; a stray stays, without its folder.
  lemma PurgeMisses(t: Folders.Table, s: State, id: string)
    requires Folders.Owned(t) && id in t
    ensures var files' := FolderPurged(t, s, id, t[id].owner).files;
            var missed := Under(t, s.files, id) * Strays(t, s.files);
            && files'.Keys == s.files.Keys - (Under(t, s.files, id) - missed)
            && (forall f :: f in files' ==>
              files'[f] == if f in missed then s.files[f].(folder := None) else s.files[f])
            && ((forall f :: f in files' ==> files'[f] == s.files[f]) <==> missed == {})
  {
    forall f | f in Under(t, s.files, id) ensures f in Strays(t, s.files) <==> s.files[f].owner != t[id].owner {
      SameOwnerUnder(t, s.files, id, f);
    }
    var files', missed := FolderPurged(t, s, id, t[id].owner).files, Under(t, s.files, id) * Strays(t, s.files);
    if f :| f in missed { assert files'[f] != s.files[f]; }
  }

  // The live bytes that change hands with a folder are those its owner is credited for and those of the
  // live strays; without strays it is the move of exactly the files below.
  lemma MoveMisses(t: Folders.Table, s: State, id: string, owner: string)
    requires Folders.Owned(t) && id in t
    ensures Sum(Only(s.files, Under(t, s.files, id)), LiveSize())
         == Sum(Only(s.files, Own(t, s.files, id, t[id].owner, false)), FileSize())
            + Sum(Only(s.files, StraysUnder(t, s.files, id, false)), FileSize())
    ensures Under(t, s.files, id) !! Strays(t, s.files) ==>
              FoldersMoved(s, Folders.Subtree(t, id), t[id].owner, owner)
              == Moved(s, Under(t, s.files, id), t[id].owner, owner, InPlace)
  {
    forall f | f in Under(t, s.files, id) ensures f in Strays(t, s.files) <==> s.files[f].owner != t[id].owner {
      SameOwnerUnder(t, s.files, id, f);
    }
    var own, strays := Own(t, s.files, id, t[id].owner, false), StraysUnder(t, s.files, id, false);
    LivePart(s.files, Under(t, s.files, id), own + strays);
    SplitBytes(s.files, own, strays);
    if Under(t, s.files, id) !! Strays(t, s.files) {
      FoldersMovedIsMove(s, Folders.Subtree(t, id), t[id].owner, owner);
    }
  }

  lemma SplitBytes(files: Files, a: set<string>, b: set<string>)
    requires a !! b
    ensures Sum(Only(files, a + b), FileSize()) == Sum(Only(files, a), FileSize()) + Sum(Only(files, b), FileSize())
  {
    SumSplit(Only(files, a + b), a, FileSize());
    assert Only(Only(files, a + b), a) == Only(files, a) && Only(files, a + b) - a == Only(files, b);
  }

  // ---- a stray, from its making to its loss ----

  // A folder of one user; a collaborator with one file of one byte; a third user.
  const SHARED: Folders.Table := map["d" := Folders.Folder("d", "u", None, false)]

  ghost function Before(h: Digest): State {
    var files: Files := map["g" := File("a", "w", None, Blob("p", "k", 1, h.of([0])), false)];
    State(files, map[], Recount(files, map[]), map["p" := Sealed("k", [0])],
          map["u" := Account(0, 10), "w" := Account(1, 10), "x" := Account(0, 10)])
  }

  // The collaborator has put the file into the folder by its hash.
  ghost function Shared(h: Digest): State {
    var s := Before(h);
    Copied(s, HashRow(s.files, "g", "w", "b", Some("d"), "n"), "w")
  }

  lemma BeforeSound(h: Digest)
    ensures Inv(Before(h), h) && Consistent(SHARED, Before(h).files, Before(h).users)
    ensures Strays(SHARED, Before(h).files) == {}
    ensures Recipient(SHARED, "w", Some("d"), {"d"}) == Some("u")
  {
  }

  lemma OneFile(user: string, h: Digest)
    ensures Charged(Before(h).files, Before(h).versions, user) == if user == "w" then 1 else 0
  {
    SumOfSingle("g", Before(h).files["g"], LiveOf(user));
    SumOfNone<string, Version>(ChargeTo(Before(h).files, user));
  }

  lemma BeforeLedger(h: Digest)
    ensures Ledger(Before(h))
  {
    OneFile("u", h);
    OneFile("w", h);
    OneFile("x", h);
  }

  ghost function StrayRow(h: Digest): File {
    File("b", "w", Some("d"), Blob("p", "k", 1, h.of([0])), false)
  }

  lemma SharedRows(h: Digest)
    ensures HashRow(Before(h).files, "g", "w", "b", Some("d"), "n") == map["n" := StrayRow(h)]
    ensures Shared(h).files == Before(h).files["n" := StrayRow(h)] && Strays(SHARED, Shared(h).files) == {"n"}
  {
    HashStrays(SHARED, Before(h), "g", "w", "b", Some("d"), {"d"}, "n");
    assert Before(h).files + map["n" := StrayRow(h)] == Before(h).files["n" := StrayRow(h)];
  }

  lemma StrayIsUnder(h: Digest)
    ensures Under(SHARED, Shared(h).files, "d") == {"n"} && StraysUnder(SHARED, Shared(h).files, "d", false) == {"n"}
    ensures Folders.Forest(SHARED)
  {
    SharedRows(h);
    Folders.WithinUnfolds(SHARED, "d", "d");
    assert Folders.Ranks(SHARED, map["d" := 0]);
  }

  // The store stays consistent and exact, the file is a stray; trashing the folder leaves it live, and
  // purging the folder changes its row.
  lemma CollaboratorMakesStray(h: Digest)
    ensures Inv(Before(h), h) && Consistent(SHARED, Before(h).files, Before(h).users)
            && Strays(SHARED, Before(h).files) == {}
    ensures Recipient(SHARED, "w", Some("d"), {"d"}) == Some("u") && Strays(SHARED, Shared(h).files) == {"n"}
    ensures var s' := Trashed(Shared(h), Own(SHARED, Shared(h).files, "d", "u", false), "u");
            With(s'.files, Folders.Subtree(SHARED, "d"), false) == {"n"}
    ensures "n" in AtRoot(FolderPurged(SHARED, Shared(h), "d", "u").files)
  {
    BeforeSound(h);
    SharedRows(h);
    StrayIsUnder(h);
    TrashMisses(SHARED, Shared(h), "d");
    PurgeMisses(SHARED, Shared(h), "d");
  }

  // Giving the folder to a third user moves the file, and leaves its byte on the collaborator's account.
  lemma MoveStrandsStray(h: Digest)
    ensures Ledger(Before(h)) && Ledger(Shared(h))
    ensures !Ledger(FoldersMoved(Shared(h), Folders.Subtree(SHARED, "d"), "u", "x"))
  {
    BeforeLedger(h);
    BeforeSound(h);
    SharedRows(h);
    StrayIsUnder(h);
    SharedLedger(h);
    NothingOwn(h);
    FoldersLedger(Shared(h), Folders.Subtree(SHARED, "d"), "u", "x");
  }

  lemma SharedLedger(h: Digest)
    requires Ledger(Before(h))
    ensures Ledger(Shared(h))
  {
    SharedRows(h);
    SumOfSingle("n", StrayRow(h), FileSize());
    CopyLedger(Before(h), map["n" := StrayRow(h)], "w");
  }

  lemma NothingOwn(h: Digest)
    ensures Sum(Only(Shared(h).files, InFolders(Shared(h).files, "u", Folders.Subtree(SHARED, "d"), false)), FileSize())
            == 0
    ensures FileOfEach(Shared(h).files, Shared(h).versions) && "u" in Shared(h).users && "x" in Shared(h).users
    ensures !Unencumbered(Shared(h), AllInFolders(Shared(h).files, Folders.Subtree(SHARED, "d")), "u", "x")
  {
    SharedRows(h);
    StrayIsUnder(h);
    var files := Shared(h).files;
    assert Only(files, InFolders(files, "u", Folders.Subtree(SHARED, "d"), false)) == map[];
    SumOfNone<string, File>(FileSize());
    assert "n" in AllInFolders(files, Folders.Subtree(SHARED, "d")) && files["n"] == StrayRow(h);
  }
}
