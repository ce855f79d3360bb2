/** The file store: rows, reference counts, the disk and the quotas, and the transactions over them. */
module BlobStore {
  import opened BlobRefs
  import opened Options
  import opened Rows
  import opened Sums

  type Bytes = seq<bv8>

  // An encrypted file on disk; only its own key opens it.
  datatype Sealed = Sealed(key: string, plain: Bytes)

  type Disk = map<string, Sealed>

  // The content hash, taken to be free of collisions.
  datatype Digest = Digest(of: Bytes -> string) {
    ghost predicate CollisionFree() {
      forall x, y :: (of(x) == of(y) ==> x == y) && of(x) != ""
    }
  }

  datatype Account = Account(used: nat, quota: nat)

  type Accounts = map<string, Account>

  datatype State = State(files: Files, versions: Versions, refs: Refs, disk: Disk, users: Accounts)

  // ---- invariant ----

  // The bytes a row names are on disk, open with its key, and have its size and recorded hash.
  ghost predicate Sound(disk: Disk, h: Digest, b: Blob) {
    && b.path in disk && disk[b.path].key == b.key && |disk[b.path].plain| == b.size
    && (b.hash == "" || b.hash == h.of(disk[b.path].plain))
  }

  // Foreign keys and the unique key (file_id, version_no).
  ghost predicate Linked(files: Files, versions: Versions, users: Accounts) {
    && (forall f :: f in files ==> files[f].owner in users)
    && (forall v :: v in versions ==> versions[v].file in files)
    && DistinctNumbers(versions)
  }

  ghost predicate DistinctNumbers(versions: Versions) {
    forall v, w ::
      v in versions && w in versions && versions[v].file == versions[w].file && versions[v].no == versions[w].no ==>
      v == w
  }

  ghost predicate Readable(files: Files, versions: Versions, disk: Disk, h: Digest) {
    && (forall f :: f in files ==> Sound(disk, h, files[f].blob))
    && (forall v :: v in versions ==> Sound(disk, h, versions[v].blob))
  }

  ghost predicate Inv(s: State, h: Digest) {
    && s.refs == Recount(s.files, s.versions)
    && Readable(s.files, s.versions, s.disk, h) && Linked(s.files, s.versions, s.users)
  }

  // ---- quota ----

  predicate Fits(users: Accounts, user: string, size: nat) {
    user in users && users[user].used + size <= users[user].quota
  }

  // Nothing to pay always fits, even without an account.
  predicate CanPay(users: Accounts, user: string, size: nat) {
    size == 0 || Fits(users, user, size)
  }

  function Reserved(users: Accounts, user: string, size: nat): Accounts {
    if Fits(users, user, size) then users[user := users[user].(used := users[user].used + size)] else users
  }

  // With the floor at zero.
  function Released(users: Accounts, user: string, size: nat): Accounts {
    if user in users
    then users[user := users[user].(used := if users[user].used <= size then 0 else users[user].used - size)]
    else users
  }

  // ---- what a transaction leaves ----

  // New rows and accounts; the counts follow the rows, and blobs that lost their last row leave the disk.
  ghost function Settled(s: State, files: Files, versions: Versions, disk: Disk, users: Accounts): State {
    var refs := Recount(files, versions);
    State(files, versions, refs, disk - (s.refs.Keys - refs.Keys), users)
  }

  lemma SettledInv(s: State, files: Files, versions: Versions, disk: Disk, users: Accounts, h: Digest)
    requires Readable(files, versions, disk, h) && Linked(files, versions, users)
    ensures Inv(Settled(s, files, versions, disk, users), h)
  {
    var s' := Settled(s, files, versions, disk, users);
    forall p | p in Paths(files, versions) ensures p !in s.refs.Keys - s'.refs.Keys {
    }
    forall f | f in files ensures Sound(s'.disk, h, files[f].blob) {
      assert files[f].blob.path in Paths(files, versions);
    }
    forall v | v in versions ensures Sound(s'.disk, h, versions[v].blob) {
      assert versions[v].blob.path in Paths(files, versions);
    }
  }

  // A blob is on disk whenever a row names it, and is removed only when no row does.
  lemma RemovedOnlyWhenUnnamed(s: State, files: Files, versions: Versions, disk: Disk, users: Accounts, path: string)
    requires path in disk && path !in Settled(s, files, versions, disk, users).disk
    ensures Names(files, versions, path) == 0
  {
    NamedIffCounted(files, versions, path);
  }

  // ---- versions ----

  ghost function Newer(versions: Versions, v: string): set<string>
    requires v in versions
  {
    set w | w in versions && versions[w].file == versions[v].file && versions[w].no > versions[v].no
  }

  // The versions of a file beyond the newest `keep`.
  ghost function Excess(versions: Versions, file: string, keep: nat): set<string> {
    set v | v in versions && versions[v].file == file && |Newer(versions, v)| >= keep
  }

  ghost predicate NextNumber(versions: Versions, file: string, no: nat) {
    && no > 0 && (forall v :: v in versions && versions[v].file == file ==> versions[v].no < no)
    && (no == 1 || exists v :: v in versions && versions[v].file == file && versions[v].no == no - 1)
  }

  ghost function SizeOf(): Version -> nat {
    (v: Version) => v.blob.size
  }

  // ---- uploads ----

  datatype Upload = Upload(uploader: string, owner: string, name: string, folder: Option<string>,
                           hash: string, size: nat, key: string, tmp: string,
                           fileID: string, versionID: string, finalPath: string)

  // What the queries of an upload found; when several rows match, any one of them.
  datatype Answers = Answers(existing: Option<string>, donor: Option<string>, versionNo: nat)

  predicate IsSameName(files: Files, up: Upload, x: string) {
    x in files && files[x].name == up.name && files[x].owner == up.owner && files[x].folder == up.folder
      && !files[x].deleted
  }

  predicate IsDonor(files: Files, up: Upload, existing: Option<string>, x: string) {
    x in files && files[x].owner == up.owner && files[x].blob.hash == up.hash && !files[x].deleted
      && Some(x) != existing
  }

  predicate SameContent(files: Files, up: Upload, existing: Option<string>) {
    existing.Some? && existing.value in files && files[existing.value].blob.hash == up.hash && up.hash != ""
  }

  ghost predicate SameNameAnswer(files: Files, up: Upload, existing: Option<string>) {
    if existing.Some? then IsSameName(files, up, existing.value) else forall x :: !IsSameName(files, up, x)
  }

  ghost predicate DonorAnswer(files: Files, up: Upload, existing: Option<string>, donor: Option<string>) {
    if donor.Some? then IsDonor(files, up, existing, donor.value) else forall x :: !IsDonor(files, up, existing, x)
  }

  ghost predicate Answered(s: State, up: Upload, a: Answers) {
    && SameNameAnswer(s.files, up, a.existing)
    && (if SameContent(s.files, up, a.existing) then a.donor.None? else DonorAnswer(s.files, up, a.existing, a.donor))
    && (if a.existing.Some? && !SameContent(s.files, up, a.existing)
        then NextNumber(s.versions, a.existing.value, a.versionNo) else a.versionNo == 0)
  }

  function Rename(disk: Disk, from: string, to: string): Disk {
    if from in disk then (disk - {from})[to := disk[from]] else disk
  }

  // The blob the row will name: the donor's, or the uploaded one under its final path.
  function ChosenBlob(files: Files, up: Upload, donor: Option<string>): Blob
    requires donor.Some? ==> donor.value in files
  {
    if donor.Some? then files[donor.value].blob.(size := up.size, hash := up.hash)
    else Blob(up.finalPath, up.key, up.size, up.hash)
  }

  function Placed(disk: Disk, up: Upload, donor: Option<string>): Disk {
    if donor.Some? then disk - {up.tmp} else Rename(disk, up.tmp, up.finalPath)
  }

  function NewRow(files: Files, up: Upload, donor: Option<string>): File
    requires donor.Some? ==> donor.value in files
  {
    File(up.name, up.owner, up.folder, ChosenBlob(files, up, donor), false)
  }

  function Snapshot(row: File, file: string, up: Upload, no: nat): Version {
    Version(file, no, row.blob.(hash := ""), up.uploader)
  }

  ghost function Uploaded(s: State, up: Upload, a: Answers, keep: nat): State
    requires Answered(s, up, a)
  {
    if SameContent(s.files, up, a.existing) then s.(disk := s.disk - {up.tmp})
    else if a.existing.None? then
      Settled(s, s.files[up.fileID := NewRow(s.files, up, a.donor)], s.versions, Placed(s.disk, up, a.donor),
              Reserved(s.users, up.owner, up.size))
    else
      var e := a.existing.value;
      var versions := VersionsAfter(s, up, a);
      var excess := Excess(versions, e, keep);
      Settled(s, s.files[e := s.files[e].(blob := ChosenBlob(s.files, up, a.donor))], versions - excess,
              Placed(s.disk, up, a.donor),
              Released(Reserved(s.users, up.owner, up.size), up.owner, Sum(Only(versions, excess), SizeOf())))
  }

  // The temporary file holds what was hashed and measured; identifiers and the final path are fresh.
  ghost predicate Prepared(s: State, up: Upload, h: Digest) {
    && up.tmp in s.disk && up.tmp !in s.refs && up.finalPath !in s.disk && up.finalPath !in s.refs
    && up.fileID !in s.files && up.versionID !in s.versions
    && s.disk[up.tmp].key == up.key && up.size == |s.disk[up.tmp].plain| && up.hash == h.of(s.disk[up.tmp].plain)
  }

  lemma {:induction false} PlacedReadable(s: State, up: Upload, donor: Option<string>, h: Digest)
    requires Inv(s, h) && Prepared(s, up, h) && h.CollisionFree()
    requires donor.Some? ==> donor.value in s.files && s.files[donor.value].blob.hash == up.hash
    ensures Readable(s.files, s.versions, Placed(s.disk, up, donor), h)
    ensures Sound(Placed(s.disk, up, donor), h, ChosenBlob(s.files, up, donor))
  {
    forall f | f in s.files ensures Sound(Placed(s.disk, up, donor), h, s.files[f].blob) {
      assert s.files[f].blob.path in s.refs;
    }
    forall v | v in s.versions ensures Sound(Placed(s.disk, up, donor), h, s.versions[v].blob) {
      assert s.versions[v].blob.path in s.refs;
    }
  }

  lemma TempIsUnnamed(s: State, tmp: string, h: Digest)
    requires Inv(s, h) && tmp !in s.refs
    ensures Readable(s.files, s.versions, s.disk - {tmp}, h)
  {
    forall f | f in s.files ensures Sound(s.disk - {tmp}, h, s.files[f].blob) {
      assert s.files[f].blob.path in s.refs;
    }
    forall v | v in s.versions ensures Sound(s.disk - {tmp}, h, s.versions[v].blob) {
      assert s.versions[v].blob.path in s.refs;
    }
  }

  // The rows of case C: the current bytes become a version, the row turns to the new blob, and the
  // oldest versions go.
  ghost function VersionsAfter(s: State, up: Upload, a: Answers): Versions
    requires a.existing.Some? && a.existing.value in s.files
  {
    s.versions[up.versionID := Snapshot(s.files[a.existing.value], a.existing.value, up, a.versionNo)]
  }

  lemma VersioningLinked(s: State, up: Upload, a: Answers, blob: Blob, excess: set<string>)
    requires Linked(s.files, s.versions, s.users) && up.versionID !in s.versions
    requires a.existing.Some? && a.existing.value in s.files && NextNumber(s.versions, a.existing.value, a.versionNo)
    ensures Linked(s.files[a.existing.value := s.files[a.existing.value].(blob := blob)],
                VersionsAfter(s, up, a) - excess, s.users)
  {
  }

  lemma VersioningReadable(s: State, up: Upload, a: Answers, disk: Disk, blob: Blob, excess: set<string>, h: Digest)
    requires a.existing.Some? && a.existing.value in s.files
    requires Readable(s.files, s.versions, disk, h) && Sound(disk, h, blob)
    ensures Readable(s.files[a.existing.value := s.files[a.existing.value].(blob := blob)],
                VersionsAfter(s, up, a) - excess, disk, h)
  {
  }

  lemma UploadKeepsInv(s: State, up: Upload, a: Answers, keep: nat, h: Digest)
    requires Inv(s, h) && Prepared(s, up, h) && h.CollisionFree() && Answered(s, up, a)
    requires up.owner in s.users
    ensures Inv(Uploaded(s, up, a, keep), h)
  {
    var disk := Placed(s.disk, up, a.donor);
    var users := Reserved(s.users, up.owner, up.size);
    if SameContent(s.files, up, a.existing) {
      TempIsUnnamed(s, up.tmp, h);
    } else if a.existing.None? {
      PlacedReadable(s, up, a.donor, h);
      SettledInv(s, s.files[up.fileID := NewRow(s.files, up, a.donor)], s.versions, disk, users, h);
    } else {
      PlacedReadable(s, up, a.donor, h);
      var e, blob := a.existing.value, ChosenBlob(s.files, up, a.donor);
      var excess := Excess(VersionsAfter(s, up, a), e, keep);
      VersioningReadable(s, up, a, disk, blob, excess, h);
      VersioningLinked(s, up, a, blob, excess);
      SettledInv(s, s.files[e := s.files[e].(blob := blob)], VersionsAfter(s, up, a) - excess, disk,
                 Released(users, up.owner, Sum(Only(VersionsAfter(s, up, a), excess), SizeOf())), h);
    }
  }

  // ---- copies ----

  ghost function FileSize(): File -> nat {
    (f: File) => f.blob.size
  }

  // What is copied, under which name and where to.
  datatype CopySpec = CopySpec(src: string, name: string, folder: Option<string>)

  function CopiedRows(files: Files, copies: map<string, CopySpec>, owner: string): Files {
    map c | c in copies && copies[c].src in files ::
      File(copies[c].name, owner, copies[c].folder, files[copies[c].src].blob, false)
  }

  // New rows that name blobs already in use.
  ghost predicate SharesBlobs(files: Files, rows: Files) {
    && rows.Keys !! files.Keys
    && forall r :: r in rows ==> exists f :: f in files && files[f].blob == rows[r].blob
  }

  ghost function Copied(s: State, rows: Files, owner: string): State {
    Settled(s, s.files + rows, s.versions, s.disk, Reserved(s.users, owner, Sum(rows, FileSize())))
  }

  lemma CopiesShare(files: Files, copies: map<string, CopySpec>, owner: string)
    requires copies.Keys !! files.Keys
    ensures SharesBlobs(files, CopiedRows(files, copies, owner))
    ensures forall r :: r in CopiedRows(files, copies, owner) ==> CopiedRows(files, copies, owner)[r].owner == owner
  {
    var rows := CopiedRows(files, copies, owner);
    forall r | r in rows ensures exists f :: f in files && files[f].blob == rows[r].blob {
      assert copies[r].src in files;
    }
  }

  lemma CopyKeepsInv(s: State, rows: Files, owner: string, h: Digest)
    requires Inv(s, h) && SharesBlobs(s.files, rows) && owner in s.users && forall r :: r in rows ==>
             rows[r].owner == owner
    ensures Inv(Copied(s, rows, owner), h)
  {
    var files := s.files + rows;
    forall f | f in files ensures Sound(s.disk, h, files[f].blob) {
      if f in rows {
        var g :| g in s.files && s.files[g].blob == rows[f].blob;
      }
    }
    SettledInv(s, files, s.versions, s.disk, Reserved(s.users, owner, Sum(rows, FileSize())), h);
  }

  lemma CopiesKeepInv(s: State, copies: map<string, CopySpec>, owner: string, h: Digest)
    requires Inv(s, h) && copies.Keys !! s.files.Keys && owner in s.users
    ensures CopiedRows(s.files, copies, owner).Keys !! s.files.Keys
    ensures Inv(Copied(s, CopiedRows(s.files, copies, owner), owner), h)
  {
    CopiesShare(s.files, copies, owner);
    CopyKeepsInv(s, CopiedRows(s.files, copies, owner), owner, h);
  }

  // ---- rows that change in place ----

  // Trash, restore and move leave every row's blob alone.
  ghost predicate SameBlobs(files: Files, files': Files) {
    files.Keys == files'.Keys && forall f :: f in files ==> files'[f].blob == files[f].blob
  }

  lemma SameBlobsRecount(files: Files, files': Files, versions: Versions)
    requires SameBlobs(files, files')
    ensures Recount(files', versions) == Recount(files, versions)
  {
    forall p ensures Names(files', versions, p) == Names(files, versions, p) {
      SumSame(files, FileAt(p), files', FileAt(p));
    }
    forall p ensures p in Paths(files', versions) <==> p in Paths(files, versions) {
      NamedIffCounted(files', versions, p);
      NamedIffCounted(files, versions, p);
    }
  }

  lemma SameBlobsKeepInv(s: State, files: Files, users: Accounts, h: Digest)
    requires Inv(s, h) && SameBlobs(s.files, files) && users.Keys == s.users.Keys
    requires forall f :: f in files ==> files[f].owner in users
    ensures Inv(s.(files := files, users := users), h)
  {
    SameBlobsRecount(s.files, files, s.versions);
  }

  function Flagged(files: Files, ids: set<string>, deleted: bool): Files {
    map f | f in files :: if f in ids then files[f].(deleted := deleted) else files[f]
  }

  ghost function Trashed(s: State, ids: set<string>, user: string): State {
    s.(files := Flagged(s.files, ids, true), users := Released(s.users, user, Sum(Only(s.files, ids), FileSize())))
  }

  ghost function Restored(s: State, ids: set<string>, user: string): State {
    s.(files := Flagged(s.files, ids, false), users := Reserved(s.users, user, Sum(Only(s.files, ids), FileSize())))
  }

  // Where a moved file goes: a folder of its own choice, or along with the folder it sits in.
  datatype Home = InPlace | Into(folder: Option<string>)

  function Reassigned(files: Files, ids: set<string>, owner: string, home: Home): Files {
    map f | f in files ::
      if f in ids then files[f].(owner := owner, folder := if home.Into? then home.folder else files[f].folder)
        else files[f]
  }

  ghost function LiveSize(): File -> nat {
    (f: File) => if f.deleted then 0 else f.blob.size
  }

  ghost function Moved(s: State, ids: set<string>, src: string, dest: string, home: Home): State {
    var total := Sum(Only(s.files, ids), LiveSize());
    s.(files := Reassigned(s.files, ids, dest, home), users := Reserved(Released(s.users, src, total), dest, total))
  }

  lemma FlagKeepsInv(s: State, ids: set<string>, deleted: bool, users: Accounts, h: Digest)
    requires Inv(s, h) && users.Keys == s.users.Keys
    ensures Inv(s.(files := Flagged(s.files, ids, deleted), users := users), h)
  {
    SameBlobsKeepInv(s, Flagged(s.files, ids, deleted), users, h);
  }

  lemma RefileKeepsInv(s: State, id: string, folder: Option<string>, h: Digest)
    requires Inv(s, h) && id in s.files
    ensures Inv(s.(files := s.files[id := s.files[id].(folder := folder)]), h)
  {
    SameBlobsKeepInv(s, s.files[id := s.files[id].(folder := folder)], s.users, h);
  }

  lemma MoveKeepsInv(s: State, ids: set<string>, src: string, dest: string, home: Home, h: Digest)
    requires Inv(s, h) && dest in s.users
    ensures Inv(Moved(s, ids, src, dest, home), h)
  {
    SameBlobsKeepInv(s, Reassigned(s.files, ids, dest, home), Moved(s, ids, src, dest, home).users, h);
  }

  function InFolders(files: Files, user: string, folders: set<string>, deleted: bool): set<string> {
    set f | f in files && files[f].owner == user && files[f].folder.Some? && files[f].folder.value in folders
      && files[f].deleted == deleted
  }

  function AllInFolders(files: Files, folders: set<string>): set<string> {
    set f | f in files && files[f].folder.Some? && files[f].folder.value in folders
  }

  // The files of the folders sit at the root.
  function Unhoused(files: Files, folders: set<string>): Files {
    map f | f in files :: if f in AllInFolders(files, folders) then files[f].(folder := None) else files[f]
  }

  ghost function FoldersMoved(s: State, folders: set<string>, src: string, dest: string): State {
    var total := Sum(Only(s.files, InFolders(s.files, src, folders, false)), FileSize());
    s.(files := Reassigned(s.files, AllInFolders(s.files, folders), dest, InPlace),
       users := Reserved(Released(s.users, src, total), dest, total))
  }

  lemma FoldersMovedInv(s: State, folders: set<string>, src: string, dest: string, h: Digest)
    requires Inv(s, h) && dest in s.users
    ensures Inv(FoldersMoved(s, folders, src, dest), h)
  {
    var s' := FoldersMoved(s, folders, src, dest);
    SameBlobsKeepInv(s, s'.files, s'.users, h);
  }

  // Where the folders hold files of their own owner only, this is the move of those files.
  lemma FoldersMovedIsMove(s: State, folders: set<string>, src: string, dest: string)
    requires forall f :: f in AllInFolders(s.files, folders) ==> s.files[f].owner == src
    ensures FoldersMoved(s, folders, src, dest) == Moved(s, AllInFolders(s.files, folders), src, dest, InPlace)
  {
    LivePart(s.files, AllInFolders(s.files, folders), InFolders(s.files, src, folders, false));
  }

  // Only the live rows carry live bytes.
  lemma LivePart(files: Files, ids: set<string>, live: set<string>)
    requires live <= ids && forall f :: f in files && f in ids ==> (f in live <==> !files[f].deleted)
    ensures Sum(Only(files, ids), LiveSize()) == Sum(Only(files, live), FileSize())
  {
    var rows := Only(files, ids);
    SumSplit(rows, live, LiveSize());
    SumIsPositive(rows - live, LiveSize());
    assert Only(rows, live) == Only(files, live);
    SumSame(Only(files, live), LiveSize(), Only(files, live), FileSize());
  }

  // ---- rows that go ----

  function OwnedBy(files: Files, user: string): set<string> {
    set f | f in files && files[f].owner == user
  }

  function VersionsOf(versions: Versions, files: set<string>): set<string> {
    set v | v in versions && versions[v].file in files
  }

  // The rows go, and with them, by the foreign key, their versions.
  ghost function Dropped(s: State, ids: set<string>, users: Accounts): State {
    Settled(s, s.files - ids, s.versions - VersionsOf(s.versions, ids), s.disk, users)
  }

  ghost function BytesOf(s: State, ids: set<string>): nat {
    Sum(Only(s.files, ids), FileSize()) + Sum(Only(s.versions, VersionsOf(s.versions, ids)), SizeOf())
  }

  ghost function Purged(s: State, ids: set<string>, user: string): State {
    Dropped(s, ids, Released(s.users, user, BytesOf(s, ids)))
  }

  lemma DropKeepsInv(s: State, ids: set<string>, users: Accounts, h: Digest)
    requires Inv(s, h) && users.Keys == s.users.Keys
    ensures Inv(Dropped(s, ids, users), h)
  {
    SettledInv(s, s.files - ids, s.versions - VersionsOf(s.versions, ids), s.disk, users, h);
  }

  lemma FewerPaths(files: Files, versions: Versions, ids: set<string>, gone: set<string>)
    ensures Recount(files - ids, versions - gone).Keys <= Recount(files, versions).Keys
  {
    forall p | p in Paths(files - ids, versions - gone) ensures p in Paths(files, versions) {
    }
  }

  lemma RemovedTwice(disk: Disk, a: set<string>, b: set<string>, c: set<string>)
    requires c <= b <= a
    ensures disk - (a - b) - (b - c) == disk - (a - c)
  {
  }

  // Dropping some rows and then others is dropping them all at once.
  lemma DropTwice(s: State, first: set<string>, second: set<string>, users: Accounts, users': Accounts)
    requires s.refs == Recount(s.files, s.versions)
    ensures Dropped(Dropped(s, first, users), second, users') == Dropped(s, first + second, users')
  {
    var files, versions := s.files - first, s.versions - VersionsOf(s.versions, first);
    assert files - second == s.files - (first + second);
    assert versions - VersionsOf(versions, second) == s.versions - VersionsOf(s.versions, first + second);
    FewerPaths(s.files, s.versions, first, VersionsOf(s.versions, first));
    FewerPaths(files, versions, second, VersionsOf(versions, second));
    RemovedTwice(s.disk, s.refs.Keys, Recount(files, versions).Keys,
                 Recount(files - second, versions - VersionsOf(versions, second)).Keys);
  }

  lemma BytesTwice(s: State, first: set<string>, second: set<string>, users: Accounts)
    requires first !! second
    ensures BytesOf(s, first) + BytesOf(Dropped(s, first, users), second) == BytesOf(s, first + second)
  {
    var files, versions := s.files - first, s.versions - VersionsOf(s.versions, first);
    var both := Only(s.versions, VersionsOf(s.versions, first + second));
    SumSplit(Only(s.files, first + second), first, FileSize());
    assert Only(Only(s.files, first + second), first) == Only(s.files, first);
    assert Only(s.files, first + second) - first == Only(files, second);
    SumSplit(both, VersionsOf(s.versions, first), SizeOf());
    assert Only(both, VersionsOf(s.versions, first)) == Only(s.versions, VersionsOf(s.versions, first));
    assert both - VersionsOf(s.versions, first) == Only(versions, VersionsOf(versions, second));
  }

  lemma ReleasedTwice(users: Accounts, user: string, first: nat, second: nat)
    ensures Released(Released(users, user, first), user, second) == Released(users, user, first + second)
  {
  }

  lemma CreditTwice(s: State, first: set<string>, second: set<string>, user: string)
    requires first !! second
    ensures var s1 := Purged(s, first, user);
            Released(s1.users, user, BytesOf(s1, second)) == Released(s.users, user, BytesOf(s, first + second))
  {
    var users := Released(s.users, user, BytesOf(s, first));
    BytesTwice(s, first, second, users);
    ReleasedTwice(s.users, user, BytesOf(s, first), BytesOf(Dropped(s, first, users), second));
  }

  // Purging some files and then others is purging them all at once; the account gets the same back.
  lemma PurgeTwice(s: State, first: set<string>, second: set<string>, user: string)
    requires s.refs == Recount(s.files, s.versions) && first !! second
    ensures Purged(Purged(s, first, user), second, user) == Purged(s, first + second, user)
  {
    CreditTwice(s, first, second, user);
    DropTwice(s, first, second, Released(s.users, user, BytesOf(s, first)),
      Released(s.users, user, BytesOf(s, first + second)));
  }

  // ---- deleting the account itself ----

  function MadeBy(versions: Versions, user: string): set<string> {
    set v | v in versions && versions[v].createdBy == user
  }

  // The foreign key on created_by takes along, uncounted, every version the user made of somebody else's
  // file: the counts stay exact exactly when there is none.
  lemma AccountCascade(files: Files, versions: Versions, user: string)
    ensures Recount(files, versions - MadeBy(versions, user)) == Recount(files, versions) <==>
            MadeBy(versions, user) == {}
  {
    var gone := MadeBy(versions, user);
    if gone == {} {
      assert versions - gone == versions;
    } else {
      var v :| v in gone;
      var p := versions[v].blob.path;
      SumSplit(versions, gone, VersionAt(p));
      SumAtLeast(Only(versions, gone), v, VersionAt(p));
      NamedIffCounted(files, versions, p);
      assert Recount(files, versions)[p] == Names(files, versions, p);
      assert p in Recount(files, versions - gone) ==>
        Recount(files, versions - gone)[p] == Names(files, versions - gone, p);
    }
  }

  // A file of one user with a version that a collaborator made.
  ghost function Collaborated(): State {
    var files: Files := map["f" := File("a", "u", None, Blob("p", "k", 1, ""), false)];
    var versions: Versions := map["v" := Version("f", 1, Blob("q", "k", 1, ""), "w")];
    State(files, versions, Recount(files, versions), map["p" := Sealed("k", [0]), "q" := Sealed("k", [0])],
          map["u" := Account(2, 10), "w" := Account(0, 10)])
  }

  lemma CollaboratedSound(h: Digest)
    ensures Inv(Collaborated(), h) && OwnedBy(Collaborated().files, "w") == {}
  {
  }

  lemma OnlyVersionCounts(files: Files, versions: Versions, v: string)
    requires versions.Keys == {v} && forall f :: f in files ==> files[f].blob.path != versions[v].blob.path
    ensures versions[v].blob.path in Recount(files, versions)
            && Names(files, versions - {v}, versions[v].blob.path) == 0
  {
    var path := versions[v].blob.path;
    NamedIffCounted(files, versions, path);
    NamedIffCounted(files, versions - {v}, path);
  }

  // Without its only version: the blob is counted, and named by no row.
  ghost predicate LeftCounted(s: State, versions: Versions, path: string) {
    Recount(s.files, versions) != s.refs && path in s.refs && Names(s.files, versions, path) == 0
  }

  lemma OnlyVersionStrands(s: State, user: string, v: string)
    requires s.refs == Recount(s.files, s.versions) && s.versions.Keys == {v} == MadeBy(s.versions, user)
    requires forall f :: f in s.files ==> s.files[f].blob.path != s.versions[v].blob.path
    ensures LeftCounted(s, s.versions - MadeBy(s.versions, user), s.versions[v].blob.path)
  {
    AccountCascade(s.files, s.versions, user);
    OnlyVersionCounts(s.files, s.versions, v);
  }

  lemma CollaboratedRows()
    ensures var s := Collaborated();
            && s.refs == Recount(s.files, s.versions) && s.versions.Keys == {"v"} == MadeBy(s.versions, "w")
            && s.versions["v"].blob.path == "q" && forall f :: f in s.files ==> s.files[f].blob.path == "p"
  {
  }

  // Deleting the collaborator's account strands the version's blob.
  lemma CollaboratorStrandsBlob(h: Digest)
    ensures Inv(Collaborated(), h) && OwnedBy(Collaborated().files, "w") == {}
    ensures LeftCounted(Collaborated(), Collaborated().versions - MadeBy(Collaborated().versions, "w"), "q")
  {
    CollaboratedSound(h);
    CollaboratedRows();
    OnlyVersionStrands(Collaborated(), "w", "v");
  }
}
