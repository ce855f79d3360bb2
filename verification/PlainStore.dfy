/** What the store looks like from outside: every file and version has its own private bytes. */
module PlainStore {
  import opened BlobRefs
  import opened BlobStore
  import opened Options
  import opened Rows
  import opened Sums

  // body is what a download of the row gives, if it gives anything.
  datatype PlainFile = PlainFile(name: string, owner: string, folder: Option<string>, deleted: bool, hashed: bool,
    body: Option<Bytes>)

  datatype PlainVersion = PlainVersion(file: string, no: nat, createdBy: string, body: Option<Bytes>)

  datatype Plain = Plain(files: map<string, PlainFile>, versions: map<string, PlainVersion>)

  // ---- the view ----

  ghost function Body(disk: Disk, b: Blob): Option<Bytes> {
    if b.path in disk && disk[b.path].key == b.key then Some(disk[b.path].plain) else None
  }

  ghost function ViewFile(disk: Disk, f: File): PlainFile {
    PlainFile(f.name, f.owner, f.folder, f.deleted, f.blob.hash != "", Body(disk, f.blob))
  }

  ghost function ViewVersion(disk: Disk, v: Version): PlainVersion {
    PlainVersion(v.file, v.no, v.createdBy, Body(disk, v.blob))
  }

  ghost function ViewRows(files: Files, versions: Versions, disk: Disk): Plain {
    Plain(map f | f in files :: ViewFile(disk, files[f]), map v | v in versions :: ViewVersion(disk, versions[v]))
  }

  ghost function View(s: State): Plain {
    ViewRows(s.files, s.versions, s.disk)
  }

  // ---- the plain store's own operations: no paths, keys, counts or quotas ----

  ghost function PlainExcess(versions: map<string, PlainVersion>, file: string, keep: nat): set<string> {
    set v | v in versions && versions[v].file == file && |PlainNewer(versions, v)| >= keep
  }

  ghost function PlainNewer(versions: map<string, PlainVersion>, v: string): set<string>
    requires v in versions
  {
    set w | w in versions && versions[w].file == versions[v].file && versions[w].no > versions[v].no
  }

  // The same-name file, if there is one, keeps its row; its old bytes become a version.
  ghost function PlainUpload(p: Plain, up: Upload, content: Bytes, existing: Option<string>, no: nat, keep: nat): Plain
  {
    if existing.None? || existing.value !in p.files then
      p.(files := p.files[up.fileID := PlainFile(up.name, up.owner, up.folder, false, true, Some(content))])
    else
      var e := existing.value;
      if p.files[e].hashed && p.files[e].body == Some(content) then p
      else
        var versions := p.versions[up.versionID := PlainVersion(e, no, up.uploader, p.files[e].body)];
        Plain(p.files[e := p.files[e].(hashed := true, body := Some(content))],
          versions - PlainExcess(versions, e, keep))
  }

  ghost function PlainCopies(p: Plain, copies: map<string, CopySpec>, owner: string): map<string, PlainFile> {
    map c | c in copies && copies[c].src in p.files ::
      p.files[copies[c].src].(name := copies[c].name, owner := owner, folder := copies[c].folder, deleted := false)
  }

  ghost function PlainCopy(p: Plain, copies: map<string, CopySpec>, owner: string): Plain {
    p.(files := p.files + PlainCopies(p, copies, owner))
  }

  ghost function PlainFlag(p: Plain, ids: set<string>, deleted: bool): Plain {
    p.(files := map f | f in p.files :: if f in ids then p.files[f].(deleted := deleted) else p.files[f])
  }

  ghost function PlainMove(p: Plain, ids: set<string>, owner: string, home: Home): Plain {
    p.(files := map f | f in p.files ::
         if f in ids then p.files[f].(owner := owner, folder := if home.Into? then home.folder else p.files[f].folder)
           else p.files[f])
  }

  ghost function PlainForget(p: Plain, folders: set<string>): Plain {
    p.(files := map f | f in p.files ::
         if p.files[f].folder.Some? && p.files[f].folder.value in folders then p.files[f].(folder := None)
         else p.files[f])
  }

  ghost function PlainDrop(p: Plain, ids: set<string>): Plain {
    Plain(p.files - ids, p.versions - set v | v in p.versions && p.versions[v].file in ids)
  }

  // ---- the view of a settled state ----

  // Blobs leave the disk only when no row names them, so nobody sees them go.
  lemma ViewsAgree(files: Files, versions: Versions, disk: Disk, disk': Disk)
    requires forall f :: f in files ==> Body(disk', files[f].blob) == Body(disk, files[f].blob)
    requires forall v :: v in versions ==> Body(disk', versions[v].blob) == Body(disk, versions[v].blob)
    ensures ViewRows(files, versions, disk') == ViewRows(files, versions, disk)
  {
  }

  lemma NamedStays(s: State, files: Files, versions: Versions, disk: Disk, users: Accounts, b: Blob)
    requires b.path in Paths(files, versions)
    ensures Body(Settled(s, files, versions, disk, users).disk, b) == Body(disk, b)
  {
  }

  lemma SettledView(s: State, files: Files, versions: Versions, disk: Disk, users: Accounts)
    ensures View(Settled(s, files, versions, disk, users)) == ViewRows(files, versions, disk)
  {
    var s' := Settled(s, files, versions, disk, users);
    forall f | f in files ensures Body(s'.disk, files[f].blob) == Body(disk, files[f].blob) {
      NamedStays(s, files, versions, disk, users, files[f].blob);
    }
    forall v | v in versions ensures Body(s'.disk, versions[v].blob) == Body(disk, versions[v].blob) {
      NamedStays(s, files, versions, disk, users, versions[v].blob);
    }
    ViewsAgree(files, versions, disk, s'.disk);
  }

  ghost predicate Counted(s: State) {
    && (forall f :: f in s.files ==> s.files[f].blob.path in s.refs)
    && (forall v :: v in s.versions ==> s.versions[v].blob.path in s.refs)
  }

  lemma InvCounted(s: State, h: Digest)
    requires Inv(s, h)
    ensures Counted(s)
  {
  }

  // The two disks agree on everything the rows name.
  ghost predicate SameBodies(s: State, disk: Disk) {
    && (forall f :: f in s.files ==> Body(disk, s.files[f].blob) == Body(s.disk, s.files[f].blob))
    && (forall v :: v in s.versions ==> Body(disk, s.versions[v].blob) == Body(s.disk, s.versions[v].blob))
  }

  lemma PlacedBodies(s: State, up: Upload, donor: Option<string>, h: Digest)
    requires Counted(s) && Prepared(s, up, h)
    ensures SameBodies(s, Placed(s.disk, up, donor)) && SameBodies(s, s.disk - {up.tmp})
  {
  }

  lemma NewBody(s: State, up: Upload, donor: Option<string>, h: Digest)
    requires Counted(s) && Readable(s.files, s.versions, s.disk, h) && Prepared(s, up, h) && h.CollisionFree()
    requires donor.Some? ==> donor.value in s.files && s.files[donor.value].blob.hash == up.hash
    ensures Body(Placed(s.disk, up, donor), ChosenBlob(s.files, up, donor)) == Some(s.disk[up.tmp].plain)
  {
    if donor.Some? {
      assert Sound(s.disk, h, s.files[donor.value].blob);
    }
  }

  lemma ExcessIsPlain(versions: Versions, disk: Disk, file: string, keep: nat)
    ensures PlainExcess(ViewRows(map[], versions, disk).versions, file, keep) == Excess(versions, file, keep)
  {
    var view := ViewRows(map[], versions, disk).versions;
    forall v | v in versions ensures PlainNewer(view, v) == Newer(versions, v) {
    }
  }

  lemma SameContentIsPlain(s: State, up: Upload, existing: Option<string>, h: Digest)
    requires Readable(s.files, s.versions, s.disk, h) && Prepared(s, up, h) && h.CollisionFree()
    requires existing.Some? && existing.value in s.files
    ensures SameContent(s.files, up, existing) <==>
              s.files[existing.value].blob.hash != ""
                && Body(s.disk, s.files[existing.value].blob) == Some(s.disk[up.tmp].plain)
  {
    assert Sound(s.disk, h, s.files[existing.value].blob);
  }

  lemma NewFileView(s: State, up: Upload, donor: Option<string>, disk: Disk)
    requires SameBodies(s, disk) && up.fileID !in s.files && up.hash != "" && (donor.Some? ==> donor.value in s.files)
    ensures var content := Body(disk, ChosenBlob(s.files, up, donor));
            ViewRows(s.files[up.fileID := NewRow(s.files, up, donor)], s.versions, disk)
            == View(s).(files :=
              View(s).files[up.fileID := PlainFile(up.name, up.owner, up.folder, false, true, content)])
  {
  }

  lemma SnapshotView(s: State, e: string, up: Upload, no: nat, disk: Disk)
    requires SameBodies(s, disk) && e in s.files && up.versionID !in s.versions
    ensures ViewRows(map[], s.versions[up.versionID := Snapshot(s.files[e], e, up, no)], disk).versions
         == View(s).versions[up.versionID := PlainVersion(e, no, up.uploader, View(s).files[e].body)]
  {
  }

  lemma ReplacedView(s: State, e: string, blob: Blob, disk: Disk)
    requires SameBodies(s, disk) && e in s.files && blob.hash != ""
    ensures ViewRows(s.files[e := s.files[e].(blob := blob)], map[], disk).files
         == View(s).files[e := View(s).files[e].(hashed := true, body := Body(disk, blob))]
  {
  }

  lemma PrunedView(files: Files, all: Versions, disk: Disk, excess: set<string>)
    ensures ViewRows(files, all - excess, disk)
         == Plain(ViewRows(files, map[], disk).files, ViewRows(map[], all, disk).versions - excess)
  {
  }

  lemma NewVersionView(s: State, e: string, blob: Blob, up: Upload, no: nat, disk: Disk, keep: nat)
    requires SameBodies(s, disk) && e in s.files && up.versionID !in s.versions && blob.hash != ""
    ensures var all := s.versions[up.versionID := Snapshot(s.files[e], e, up, no)];
            var plain := View(s).versions[up.versionID := PlainVersion(e, no, up.uploader, View(s).files[e].body)];
            ViewRows(s.files[e := s.files[e].(blob := blob)], all - Excess(all, e, keep), disk)
            == Plain(View(s).files[e := View(s).files[e].(hashed := true, body := Body(disk, blob))],
                     plain - PlainExcess(plain, e, keep))
  {
    var all := s.versions[up.versionID := Snapshot(s.files[e], e, up, no)];
    SnapshotView(s, e, up, no, disk);
    ReplacedView(s, e, blob, disk);
    ExcessIsPlain(all, disk, e, keep);
    PrunedView(s.files[e := s.files[e].(blob := blob)], all, disk, Excess(all, e, keep));
  }

  lemma NewUploadRefines(s: State, up: Upload, donor: Option<string>, h: Digest)
    requires Counted(s) && Readable(s.files, s.versions, s.disk, h) && Prepared(s, up, h) && h.CollisionFree()
    requires donor.Some? ==> donor.value in s.files && s.files[donor.value].blob.hash == up.hash
    ensures View(Settled(s, s.files[up.fileID := NewRow(s.files, up, donor)], s.versions, Placed(s.disk, up, donor),
                         Reserved(s.users, up.owner, up.size)))
         == PlainUpload(View(s), up, s.disk[up.tmp].plain, None, 0, 0)
  {
    var disk := Placed(s.disk, up, donor);
    PlacedBodies(s, up, donor, h);
    NewBody(s, up, donor, h);
    NewFileView(s, up, donor, disk);
    SettledView(s, s.files[up.fileID := NewRow(s.files, up, donor)], s.versions, disk,
      Reserved(s.users, up.owner, up.size));
  }

  lemma NewVersionRefines(s: State, up: Upload, a: Answers, keep: nat, h: Digest)
    requires Counted(s) && Readable(s.files, s.versions, s.disk, h) && Prepared(s, up, h) && h.CollisionFree()
    requires Answered(s, up, a) && a.existing.Some? && !SameContent(s.files, up, a.existing)
    ensures View(Uploaded(s, up, a, keep))
            == PlainUpload(View(s), up, s.disk[up.tmp].plain, a.existing, a.versionNo, keep)
  {
    var disk, e, all, blob := Placed(s.disk, up, a.donor), a.existing.value, VersionsAfter(s, up, a),
      ChosenBlob(s.files, up, a.donor);
    var excess := Excess(all, e, keep);
    PlacedBodies(s, up, a.donor, h);
    NewBody(s, up, a.donor, h);
    NewVersionView(s, e, blob, up, a.versionNo, disk, keep);
    SameContentIsPlain(s, up, a.existing, h);
    SettledView(s, s.files[e := s.files[e].(blob := blob)], all - excess, disk,
                Released(Reserved(s.users, up.owner, up.size), up.owner, Sum(Only(all, excess), SizeOf())));
  }

  // Deduplication, versions, counts and pruning together look like one private copy per upload.
  lemma UploadRefines(s: State, up: Upload, a: Answers, keep: nat, h: Digest)
    requires Inv(s, h) && Prepared(s, up, h) && h.CollisionFree() && Answered(s, up, a)
    ensures View(Uploaded(s, up, a, keep))
            == PlainUpload(View(s), up, s.disk[up.tmp].plain, a.existing, a.versionNo, keep)
  {
    InvCounted(s, h);
    if SameContent(s.files, up, a.existing) {
      SameContentIsPlain(s, up, a.existing, h);
      PlacedBodies(s, up, None, h);
      SameBodiesView(s, s.disk - {up.tmp});
    } else if a.existing.None? {
      NewUploadRefines(s, up, a.donor, h);
    } else {
      NewVersionRefines(s, up, a, keep, h);
    }
  }

  lemma SameBodiesView(s: State, disk: Disk)
    requires SameBodies(s, disk)
    ensures View(s.(disk := disk)) == View(s)
  {
  }

  // ---- the other operations ----

  lemma CopyRowsView(s: State, copies: map<string, CopySpec>, owner: string)
    ensures ViewRows(CopiedRows(s.files, copies, owner), map[], s.disk).files == PlainCopies(View(s), copies, owner)
  {
  }

  lemma AddedRowsView(files: Files, rows: Files, versions: Versions, disk: Disk)
    ensures ViewRows(files + rows, versions, disk)
         == Plain(ViewRows(files, versions, disk).files + ViewRows(rows, map[], disk).files,
           ViewRows(files, versions, disk).versions)
  {
  }

  lemma CopyRefines(s: State, copies: map<string, CopySpec>, owner: string)
    ensures View(Copied(s, CopiedRows(s.files, copies, owner), owner)) == PlainCopy(View(s), copies, owner)
  {
    var rows := CopiedRows(s.files, copies, owner);
    CopyRowsView(s, copies, owner);
    AddedRowsView(s.files, rows, s.versions, s.disk);
    SettledView(s, s.files + rows, s.versions, s.disk, Reserved(s.users, owner, Sum(rows, FileSize())));
  }

  lemma FlagRefines(s: State, ids: set<string>, deleted: bool, users: Accounts)
    ensures View(s.(files := Flagged(s.files, ids, deleted), users := users)) == PlainFlag(View(s), ids, deleted)
  {
  }

  lemma MoveRefines(s: State, ids: set<string>, src: string, dest: string, home: Home)
    ensures View(Moved(s, ids, src, dest, home)) == PlainMove(View(s), ids, dest, home)
  {
  }

  lemma MoveFoldersRefines(s: State, folders: set<string>, src: string, dest: string)
    ensures View(FoldersMoved(s, folders, src, dest))
         == PlainMove(View(s), AllInFolders(s.files, folders), dest, InPlace)
  {
  }

  lemma ForgetRefines(s: State, folders: set<string>)
    ensures View(s.(files := Unhoused(s.files, folders))) == PlainForget(View(s), folders)
  {
  }

  lemma RefileRefines(s: State, id: string, folder: Option<string>)
    requires id in s.files
    ensures View(s.(files := s.files[id := s.files[id].(folder := folder)]))
            == PlainMove(View(s), {id}, s.files[id].owner, Into(folder))
  {
  }

  lemma DropRefines(s: State, ids: set<string>, users: Accounts)
    ensures View(Dropped(s, ids, users)) == PlainDrop(View(s), ids)
  {
    SettledView(s, s.files - ids, s.versions - VersionsOf(s.versions, ids), s.disk, users);
  }

  // ---- runs ----

  // One transaction, or a change to the temporary files between transactions.
  datatype Op =
    | StageTemp(path: string, content: Sealed)
    | DropTemp(path: string)
    | CommitUpload(up: Upload, answers: Answers, keep: nat)
    | FailUpload(up: Upload, tempGone: bool)
    | Copy(copies: map<string, CopySpec>, owner: string)
    | Trash(ids: set<string>, user: string)
    | Restore(ids: set<string>, user: string)
    | Refile(id: string, folder: Option<string>)
    | Move(ids: set<string>, src: string, dest: string, home: Home)
    | MoveFolders(folders: set<string>, src: string, dest: string)
    | ForgetFolders(folders: set<string>)
    | Purge(ids: set<string>, user: string)
    | DeleteUser(user: string)

  ghost predicate Enabled(s: State, op: Op, h: Digest) {
    match op
    case StageTemp(path, _) => path !in s.disk && path !in s.refs
    case DropTemp(path) => path !in s.refs
    case CommitUpload(up, a, keep) => Prepared(s, up, h) && Answered(s, up, a) && up.owner in s.users
    case FailUpload(up, _) => up.tmp !in s.refs
    case Copy(copies, owner) => owner in s.users && copies.Keys !! s.files.Keys
    case Refile(id, _) => id in s.files
    case Move(_, _, dest, _) => dest in s.users
    case MoveFolders(_, _, dest) => dest in s.users
    case _ => true
  }

  ghost function Next(s: State, op: Op, h: Digest): State
    requires Enabled(s, op, h)
  {
    match op
    case StageTemp(path, content) => s.(disk := s.disk[path := content])
    case DropTemp(path) => s.(disk := s.disk - {path})
    case CommitUpload(up, a, keep) => Uploaded(s, up, a, keep)
    case FailUpload(up, tempGone) => if tempGone then s.(disk := s.disk - {up.tmp}) else s
    case Copy(copies, owner) => Copied(s, CopiedRows(s.files, copies, owner), owner)
    case Trash(ids, user) => Trashed(s, ids, user)
    case Restore(ids, user) => Restored(s, ids, user)
    case Refile(id, folder) => s.(files := s.files[id := s.files[id].(folder := folder)])
    case Move(ids, src, dest, home) => Moved(s, ids, src, dest, home)
    case MoveFolders(folders, src, dest) => FoldersMoved(s, folders, src, dest)
    case ForgetFolders(folders) => s.(files := Unhoused(s.files, folders))
    case Purge(ids, user) => Purged(s, ids, user)
    case DeleteUser(user) => Dropped(s, OwnedBy(s.files, user), s.users)
  }

  // The same step on private copies; an upload brings its bytes with it.
  datatype PlainOp =
    | Nothing
    | PlainUploading(up: Upload, content: Bytes, existing: Option<string>, no: nat, keep: nat)
    | PlainCopying(copies: map<string, CopySpec>, owner: string)
    | PlainFlagging(ids: set<string>, deleted: bool)
    | PlainMoving(ids: set<string>, owner: string, home: Home)
    | PlainForgetting(folders: set<string>)
    | PlainDropping(ids: set<string>)

  ghost function Abstract(s: State, op: Op, h: Digest): PlainOp
    requires Enabled(s, op, h)
  {
    match op
    case CommitUpload(up, a, keep) => PlainUploading(up, s.disk[up.tmp].plain, a.existing, a.versionNo, keep)
    case Copy(copies, owner) => PlainCopying(copies, owner)
    case Trash(ids, user) => PlainFlagging(ids, true)
    case Restore(ids, user) => PlainFlagging(ids, false)
    case Refile(id, folder) => PlainMoving({id}, s.files[id].owner, Into(folder))
    case Move(ids, src, dest, home) => PlainMoving(ids, dest, home)
    case MoveFolders(folders, src, dest) => PlainMoving(AllInFolders(s.files, folders), dest, InPlace)
    case ForgetFolders(folders) => PlainForgetting(folders)
    case Purge(ids, user) => PlainDropping(ids)
    case DeleteUser(user) => PlainDropping(OwnedBy(s.files, user))
    case _ => Nothing
  }

  ghost function PlainNext(p: Plain, op: PlainOp): Plain {
    match op
    case Nothing => p
    case PlainUploading(up, content, existing, no, keep) => PlainUpload(p, up, content, existing, no, keep)
    case PlainCopying(copies, owner) => PlainCopy(p, copies, owner)
    case PlainFlagging(ids, deleted) => PlainFlag(p, ids, deleted)
    case PlainMoving(ids, owner, home) => PlainMove(p, ids, owner, home)
    case PlainForgetting(folders) => PlainForget(p, folders)
    case PlainDropping(ids) => PlainDrop(p, ids)
  }

  lemma StagedReadable(s: State, path: string, content: Sealed, h: Digest)
    requires Inv(s, h) && path !in s.disk
    ensures Inv(s.(disk := s.disk[path := content]), h)
  {
  }

  lemma StepKeepsInv(s: State, op: Op, h: Digest)
    requires Inv(s, h) && h.CollisionFree() && Enabled(s, op, h)
    ensures Inv(Next(s, op, h), h)
  {
    match op
    case StageTemp(path, content) => StagedReadable(s, path, content, h);
    case DropTemp(path) => TempIsUnnamed(s, path, h);
    case CommitUpload(up, a, keep) => UploadKeepsInv(s, up, a, keep, h);
    case FailUpload(up, tempGone) => TempIsUnnamed(s, up.tmp, h);
    case Copy(copies, owner) => CopyKeepsInv(s, CopiedRows(s.files, copies, owner), owner, h);
    case Trash(ids, user) => FlagKeepsInv(s, ids, true, Trashed(s, ids, user).users, h);
    case Restore(ids, user) => FlagKeepsInv(s, ids, false, Restored(s, ids, user).users, h);
    case Refile(id, folder) => RefileKeepsInv(s, id, folder, h);
    case Move(ids, src, dest, home) => MoveKeepsInv(s, ids, src, dest, home, h);
    case MoveFolders(folders, src, dest) => FoldersMovedInv(s, folders, src, dest, h);
    case ForgetFolders(folders) => SameBlobsKeepInv(s, Unhoused(s.files, folders), s.users, h);
    case Purge(ids, user) => DropKeepsInv(s, ids, Released(s.users, user, BytesOf(s, ids)), h);
    case DeleteUser(user) => DropKeepsInv(s, OwnedBy(s.files, user), s.users, h);
  }

  lemma TempStepRefines(s: State, op: Op, h: Digest)
    requires Inv(s, h) && Enabled(s, op, h) && (op.StageTemp? || op.DropTemp? || op.FailUpload?)
    ensures View(Next(s, op, h)) == PlainNext(View(s), Abstract(s, op, h))
  {
    match op
    case StageTemp(path, content) =>
      InvCounted(s, h);
      StagedView(s, path, content);
    case DropTemp(path) => UnnamedView(s, path, h);
    case FailUpload(up, tempGone) => UnnamedView(s, up.tmp, h);
  }

  // It changes file rows in place.
  predicate ChangesRows(op: Op) {
    op.Trash? || op.Restore? || op.Refile? || op.Move? || op.MoveFolders? || op.ForgetFolders?
  }

  lemma RowStepRefines(s: State, op: Op, h: Digest)
    requires Enabled(s, op, h) && ChangesRows(op)
    ensures View(Next(s, op, h)) == PlainNext(View(s), Abstract(s, op, h))
  {
    match op
    case Trash(ids, user) => FlagRefines(s, ids, true, Trashed(s, ids, user).users);
    case Restore(ids, user) => FlagRefines(s, ids, false, Restored(s, ids, user).users);
    case Refile(id, folder) => RefileRefines(s, id, folder);
    case Move(ids, src, dest, home) => MoveRefines(s, ids, src, dest, home);
    case MoveFolders(folders, src, dest) => MoveFoldersRefines(s, folders, src, dest);
    case ForgetFolders(folders) => ForgetRefines(s, folders);
  }

  lemma DropStepRefines(s: State, op: Op, h: Digest)
    requires Enabled(s, op, h) && (op.Purge? || op.DeleteUser?)
    ensures View(Next(s, op, h)) == PlainNext(View(s), Abstract(s, op, h))
  {
    match op
    case Purge(ids, user) => DropRefines(s, ids, Released(s.users, user, BytesOf(s, ids)));
    case DeleteUser(user) => DropRefines(s, OwnedBy(s.files, user), s.users);
  }

  lemma CommitStepRefines(s: State, op: Op, h: Digest)
    requires Inv(s, h) && h.CollisionFree() && Enabled(s, op, h) && op.CommitUpload?
    ensures View(Next(s, op, h)) == PlainNext(View(s), Abstract(s, op, h))
  {
    UploadRefines(s, op.up, op.answers, op.keep, h);
  }

  lemma CopyStepRefines(s: State, op: Op, h: Digest)
    requires Enabled(s, op, h) && op.Copy?
    ensures View(Next(s, op, h)) == PlainNext(View(s), Abstract(s, op, h))
  {
    CopyRefines(s, op.copies, op.owner);
  }

  lemma StepRefines(s: State, op: Op, h: Digest)
    requires Inv(s, h) && h.CollisionFree() && Enabled(s, op, h)
    ensures View(Next(s, op, h)) == PlainNext(View(s), Abstract(s, op, h))
  {
    if op.CommitUpload? {
      CommitStepRefines(s, op, h);
    } else if op.Copy? {
      CopyStepRefines(s, op, h);
    } else if op.Purge? || op.DeleteUser? {
      DropStepRefines(s, op, h);
    } else if ChangesRows(op) {
      RowStepRefines(s, op, h);
    } else {
      TempStepRefines(s, op, h);
    }
  }

  lemma UnnamedView(s: State, path: string, h: Digest)
    requires Inv(s, h) && path !in s.refs
    ensures View(s.(disk := s.disk - {path})) == View(s)
  {
    InvCounted(s, h);
    CountedWithout(s, path);
    SameBodiesView(s, s.disk - {path});
  }

  lemma CountedWithout(s: State, path: string)
    requires Counted(s) && path !in s.refs
    ensures SameBodies(s, s.disk - {path})
  {
  }

  lemma StagedView(s: State, path: string, content: Sealed)
    requires Counted(s) && path !in s.refs
    ensures View(s.(disk := s.disk[path := content])) == View(s)
  {
    assert SameBodies(s, s.disk[path := content]);
    SameBodiesView(s, s.disk[path := content]);
  }

  // ---- what the plain steps are told is what the plain store itself would find ----

  predicate PlainSameName(p: Plain, up: Upload, x: string) {
    x in p.files && p.files[x].name == up.name && p.files[x].owner == up.owner && p.files[x].folder == up.folder
    && !p.files[x].deleted
  }

  // Any live file of that name in the folder; none only if there is none.
  ghost predicate PlainAnswer(p: Plain, up: Upload, existing: Option<string>) {
    match existing
    case Some(x) => PlainSameName(p, up, x)
    case None => forall x :: !PlainSameName(p, up, x)
  }

  ghost predicate PlainNumber(p: Plain, file: string, no: nat) {
    && no > 0 && (forall v :: v in p.versions && p.versions[v].file == file ==> p.versions[v].no < no)
    && (no == 1 || exists v :: v in p.versions && p.versions[v].file == file && p.versions[v].no == no - 1)
  }

  // An upload changes the content of the file it meets.
  predicate Changes(p: Plain, content: Bytes, e: string)
    requires e in p.files
  {
    !(p.files[e].hashed && p.files[e].body == Some(content))
  }

  ghost predicate Allowed(p: Plain, op: PlainOp) {
    match op
    case PlainUploading(up, content, existing, no, _) =>
      && PlainAnswer(p, up, existing)
      && (existing.None? ==> up.fileID !in p.files)
      && (existing.Some? && Changes(p, content, existing.value) ==>
        up.versionID !in p.versions && PlainNumber(p, existing.value, no))
    case PlainCopying(copies, _) => copies.Keys !! p.files.Keys
    case _ => true
  }

  lemma NumberIsPlain(s: State, file: string, no: nat)
    requires NextNumber(s.versions, file, no)
    ensures PlainNumber(View(s), file, no)
  {
    if no != 1 {
      var v :| v in s.versions && s.versions[v].file == file && s.versions[v].no == no - 1;
      assert v in View(s).versions;
    }
  }

  lemma AnswerIsPlain(s: State, up: Upload, existing: Option<string>)
    ensures SameNameAnswer(s.files, up, existing) <==> PlainAnswer(View(s), up, existing)
  {
    assert forall x :: IsSameName(s.files, up, x) <==> PlainSameName(View(s), up, x);
  }

  // The same-name file and the version number of a step come from the plain store as well.
  lemma StepIsAllowed(s: State, op: Op, h: Digest)
    requires Inv(s, h) && h.CollisionFree() && Enabled(s, op, h)
    ensures Allowed(View(s), Abstract(s, op, h))
  {
    if op.CommitUpload? {
      var up, a := op.up, op.answers;
      AnswerIsPlain(s, up, a.existing);
      if a.existing.Some? {
        SameContentIsPlain(s, up, a.existing, h);
        if !SameContent(s.files, up, a.existing) { NumberIsPlain(s, a.existing.value, a.versionNo); }
      }
    }
  }

  ghost predicate Trace(states: seq<State>, ops: seq<Op>, h: Digest) {
    && |states| == |ops| + 1
    && forall i :: 0 <= i < |ops| ==> Enabled(states[i], ops[i], h) && states[i + 1] == Next(states[i], ops[i], h)
  }

  ghost function PlainRun(p: Plain, ops: seq<PlainOp>): Plain
    decreases |ops|
  {
    if ops == [] then p else PlainNext(PlainRun(p, ops[..|ops| - 1]), ops[|ops| - 1])
  }

  ghost function AbstractOps(states: seq<State>, ops: seq<Op>, h: Digest, n: nat): seq<PlainOp>
    requires Trace(states, ops, h) && n <= |ops|
  {
    seq(n, i requires 0 <= i < n => Abstract(states[i], ops[i], h))
  }

  // Over any run every row reads exactly the bytes of its private copy, and the counts stay exact.
  lemma {:induction false} RunRefines(states: seq<State>, ops: seq<Op>, h: Digest, n: nat)
    requires Trace(states, ops, h) && h.CollisionFree() && Inv(states[0], h) && n <= |ops|
    ensures Inv(states[n], h) && View(states[n]) == PlainRun(View(states[0]), AbstractOps(states, ops, h, n))
    ensures n < |ops| ==> Allowed(View(states[n]), Abstract(states[n], ops[n], h))
    decreases n
  {
    if n > 0 {
      RunRefines(states, ops, h, n - 1);
      StepKeepsInv(states[n - 1], ops[n - 1], h);
      StepRefines(states[n - 1], ops[n - 1], h);
      AbstractPrefix(states, ops, h, n);
    }
    if n < |ops| { StepIsAllowed(states[n], ops[n], h); }
  }

  lemma AbstractPrefix(states: seq<State>, ops: seq<Op>, h: Digest, n: nat)
    requires Trace(states, ops, h) && 0 < n <= |ops|
    ensures var abs := AbstractOps(states, ops, h, n);
            abs[..n - 1] == AbstractOps(states, ops, h, n - 1) && abs[n - 1] == Abstract(states[n - 1], ops[n - 1], h)
            && PlainRun(View(states[0]), abs) == PlainNext(PlainRun(View(states[0]), abs[..n - 1]), abs[n - 1])
  {
  }

  ghost predicate FreshIds(p: Plain, op: PlainOp) {
    && (op.PlainUploading? ==> op.up.fileID !in p.files && op.up.versionID !in p.versions)
    && (op.PlainCopying? ==> op.copies.Keys !! p.files.Keys)
  }

  lemma PlainOthers(p: Plain, op: PlainOp, id: string)
    requires FreshIds(p, op)
    ensures id in p.files && id in PlainNext(p, op).files && !(op.PlainUploading? && op.existing == Some(id)) ==>
              PlainNext(p, op).files[id].body == p.files[id].body
    ensures id in p.versions && id in PlainNext(p, op).versions ==> PlainNext(p, op).versions[id] == p.versions[id]
  {
  }

  lemma AbstractIsFresh(s: State, op: Op, h: Digest)
    requires Enabled(s, op, h)
    ensures FreshIds(View(s), Abstract(s, op, h))
  {
  }

  // A step changes what a file row reads only if it uploads over that file; version rows never change.
  lemma OtherRowsReadTheSame(s: State, op: Op, h: Digest, id: string)
    requires Inv(s, h) && h.CollisionFree() && Enabled(s, op, h)
    ensures var before, after := View(s), View(Next(s, op, h));
            && (id in before.files && id in after.files && !(op.CommitUpload? && op.answers.existing == Some(id)) ==>
                  after.files[id].body == before.files[id].body)
            && (id in before.versions && id in after.versions ==> after.versions[id] == before.versions[id])
  {
    StepRefines(s, op, h);
    AbstractIsFresh(s, op, h);
    PlainOthers(View(s), Abstract(s, op, h), id);
  }

  // Every row can be downloaded: its bytes are on disk under its own key.
  lemma EveryRowReads(s: State, h: Digest)
    requires Inv(s, h)
    ensures forall f :: f in s.files ==>
            View(s).files[f].body.Some? && |View(s).files[f].body.value| == s.files[f].blob.size
    ensures forall v :: v in s.versions ==> View(s).versions[v].body.Some?
  {
  }
}
