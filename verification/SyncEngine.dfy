/** A full sync of one watched folder: folders, files, then the sweep of what is gone. */
module SyncEngine {
  import opened Lists
  import opened LocalTree
  import opened Options
  import opened RenameRemap
  import opened SyncState

  // ---- orders ----

  // The plain sort puts a path before everything below it.
  ghost predicate ParentsFirst(s: seq<Path>) {
    forall i, j :: 0 <= i < j < |s| ==> !(s[j] < s[i])
  }

  // The reverse sort puts it after.
  ghost predicate ChildrenFirst(s: seq<Path>) {
    forall i, j :: 0 <= i < j < |s| ==> !(s[i] < s[j])
  }

  lemma {:induction false} TopExists(paths: set<Path>, x: Path)
    requires x in paths
    ensures exists p :: p in paths && forall q :: q in paths ==> !(q < p)
    decreases |x|
  {
    if q :| q in paths && q < x {
      TopExists(paths, q);
    }
  }

  // Any order in which paths come after the folders they lie in.
  method SortParentsFirst(paths: set<Path>) returns (s: seq<Path>)
    ensures Distinct(s) && Elements(s) == paths && ParentsFirst(s)
  {
    s := [];
    var todo := paths;
    while todo != {}
      invariant Elements(s) + todo == paths && Elements(s) !! todo && Distinct(s) && ParentsFirst(s)
      invariant forall p, q :: p in s && q in todo ==> !(q < p)
      decreases todo
    {
      ghost var x :| x in todo;
      TopExists(todo, x);
      var p :| p in todo && forall q :: q in todo ==> !(q < p);
      assert p !in Elements(s);
      Joined(s, [p]);
      forall i | 0 <= i < |s| ensures !(p < s[i]) {
        assert s[i] in s && p in todo;
      }
      s := s + [p];
      todo := todo - {p};
    }
  }

  function Reversed(s: seq<Path>): (r: seq<Path>)
    ensures |r| == |s| && forall i :: 0 <= i < |s| ==> r[i] == s[|s| - 1 - i]
  {
    if s == [] then [] else [s[|s| - 1]] + Reversed(s[..|s| - 1])
  }

  method SortChildrenFirst(paths: set<Path>) returns (s: seq<Path>)
    ensures Distinct(s) && Elements(s) == paths && ChildrenFirst(s)
  {
    var up := SortParentsFirst(paths);
    s := Reversed(up);
    forall p ensures p in s <==> p in up {
      if p in up {
        var i :| 0 <= i < |up| && up[i] == p;
        assert s[|s| - 1 - i] == p;
      }
    }
  }

  // ---- single steps ----

  // ensureRemoteFolder: the nearest known folder above p is found, and the rest is created downwards.
  ghost function Ensured(s: State, p: Path): (r: State)
    ensures FolderAt(r, p) && forall q :: FolderAt(s, q) ==> FolderAt(r, q)
    decreases |p|
  {
    if FolderAt(s, p) then s else AddFolder(Ensured(s, Parent(p)), p)
  }

  lemma {:induction false} EnsuredKeepsAbove(s: State, p: Path, q: Path)
    requires |q| > |p|
    ensures FolderAt(Ensured(s, p), q) <==> FolderAt(s, q)
    decreases |p|
  {
    if !FolderAt(s, p) { EnsuredKeepsAbove(s, Parent(p), q); }
  }

  lemma {:induction false} EnsuredCore(s: State, p: Path)
    requires Core(s) && Homed(s)
    ensures Core(Ensured(s, p)) && Homed(Ensured(s, p))
    decreases |p|
  {
    if !FolderAt(s, p) {
      EnsuredCore(s, Parent(p));
      EnsuredKeepsAbove(s, Parent(p), p);
      AddFolderCore(Ensured(s, Parent(p)), p);
    }
  }

  // The mapping keeps its entries, apart from those that had to become folders.
  ghost predicate FilesOutcome(s: State, s': State, done: set<Path>, disk: Disk, fails: set<Path>) {
    && s'.mapping.Keys <= s.mapping.Keys + done
    && (forall q :: q in s.mapping && q !in done ==> q in s'.mapping && s'.mapping[q] == s.mapping[q])
    && forall f :: f in done ==> FileOutcome(s, s', f, disk, fails)
  }

  predicate UpToDate(s: State, f: Path, disk: Disk) {
    f in s.mapping && s.mapping[f].FileEntry? && f in disk && disk[f].Regular?
      && s.mapping[f].signature == disk[f].signature
  }

  // An unchanged file keeps its entry; so does one whose upload failed; any other is mapped as it is on disk.
  ghost predicate FileOutcome(s: State, s': State, f: Path, disk: Disk, fails: set<Path>) {
    if UpToDate(s, f, disk) || f in fails then
      (f in s'.mapping <==> f in s.mapping) && (f in s.mapping ==> s'.mapping[f] == s.mapping[f])
    else
      UpToDate(s', f, disk)
  }

  // ---- the scan as the sync uses it ----

  ghost predicate Scan(dirs: set<Path>, files: set<Path>) {
    && dirs !! files && [] !in dirs + files
    && forall p :: p in dirs + files ==> Parent(p) == [] || Parent(p) in dirs
  }

  lemma ScanOf(disk: Disk, skip: string -> bool)
    ensures Scan(Directories(disk, skip), RegularFiles(disk, skip))
  {
    forall p | p in Directories(disk, skip) + RegularFiles(disk, skip) && Parent(p) != []
      ensures Parent(p) in Directories(disk, skip)
    {
      ScanIsAncestorClosed(disk, skip, p);
    }
  }

  lemma {:induction false} AncestorsAreDirs(dirs: set<Path>, files: set<Path>, p: Path, q: Path)
    requires Scan(dirs, files) && q in dirs + files && p < q && p != []
    ensures p in dirs
    decreases |q|
  {
    if p != Parent(q) {
      assert p < Parent(q);
      AncestorsAreDirs(dirs, files, p, Parent(q));
    }
  }

  ghost predicate DirsMapped(s: State, dirs: set<Path>) {
    forall d :: d in dirs ==> FolderAt(s, d)
  }

  // Mapped, but not on disk as what it is mapped as.
  function Stale(s: State, dirs: set<Path>, files: set<Path>): set<Path> {
    set p | p in s.mapping && if s.mapping[p].FileEntry? then p !in files else p !in dirs
  }

  // The mapping is the scan, entry by entry, and the remote tree agrees.
  ghost predicate Mirrors(s: State, disk: Disk, dirs: set<Path>, files: set<Path>) {
    && Linked(s) && s.mapping.Keys == dirs + files && DirsMapped(s, dirs)
    && forall f :: f in files ==> UpToDate(s, f, disk)
  }

  function Deletes(gone: seq<Path>): (calls: seq<Call>)
    ensures |calls| == |gone| && forall i :: 0 <= i < |gone| ==> calls[i] == Delete(gone[i])
  {
    seq(|gone|, i requires 0 <= i < |gone| => Delete(gone[i]))
  }

  function AtOrUnder(m: Mapping, p: Path): set<Path> {
    set q | q in m && p <= q
  }

  // ---- the folder phase ----

  lemma ParentIsEarlier(dirs: seq<Path>, files: set<Path>, i: nat)
    requires Scan(Elements(dirs), files) && ParentsFirst(dirs) && i < |dirs|
    ensures dirs[i] != [] && (Parent(dirs[i]) == [] || Parent(dirs[i]) in Elements(dirs[..i]))
  {
    var p := dirs[i];
    assert p in Elements(dirs);
    if Parent(p) != [] {
      var k :| 0 <= k < |dirs| && dirs[k] == Parent(p);
      assert dirs[k] < dirs[i];
      assert dirs[..i][k] == dirs[k];
    }
  }

  ghost predicate DirsProgress(s0: State, s: State, done: set<Path>) {
    && Linked(s) && s.mapping.Keys == s0.mapping.Keys + done && DirsMapped(s, done)
    && (forall q :: q in s0.mapping && (q !in done || s0.mapping[q].FolderEntry?) ==> s.mapping[q] == s0.mapping[q])
    && (DirsMapped(s0, done) ==> s == s0)
  }

  lemma AddFolderLinked(s: State, d: Path)
    requires Linked(s) && d != [] && FolderAt(s, Parent(d)) && !FolderAt(s, d)
    ensures Linked(AddFolder(s, d))
  {
    LinkedIsHomed(s);
    AddFolderCore(s, d);
    forall q | q in s.mapping && q != d ensures Placed(AddFolder(s, d), q) {
      AddFolderPlaced(s, d, q);
    }
  }

  lemma KnownFolders(s0: State, s: State, done: set<Path>, d: Path)
    requires DirsProgress(s0, s, done) && FolderAt(s0, d)
    ensures FolderAt(s, d)
  {
  }

  lemma NewFolderStep(s0: State, s: State, done: set<Path>, d: Path)
    requires DirsProgress(s0, s, done) && d !in done && d != [] && FolderAt(s, Parent(d)) && !FolderAt(s, d)
    ensures DirsProgress(s0, AddFolder(s, d), done + {d})
  {
    AddFolderLinked(s, d);
    var s' := AddFolder(s, d);
    forall x | x in done + {d} ensures FolderAt(s', x) {
      assert x in done ==> FolderAt(s, x);
    }
    if FolderAt(s0, d) { KnownFolders(s0, s, done, d); }
    assert DirsMapped(s0, done + {d}) ==> FolderAt(s0, d);
  }

  lemma OldFolderStep(s0: State, s: State, done: set<Path>, d: Path)
    requires DirsProgress(s0, s, done) && d !in done && d != [] && FolderAt(s, d)
    ensures DirsProgress(s0, s, done + {d})
  {
    assert s.mapping.Keys + {d} == s.mapping.Keys;
    assert DirsMapped(s0, done + {d}) ==> DirsMapped(s0, done);
  }

  lemma DirStep(s0: State, s: State, done: set<Path>, d: Path)
    requires DirsProgress(s0, s, done) && d !in done && d != [] && FolderAt(s, Parent(d))
    ensures DirsProgress(s0, Ensured(s, d), done + {d})
  {
    if FolderAt(s, d) {
      OldFolderStep(s0, s, done, d);
    } else {
      NewFolderStep(s0, s, done, d);
      assert Ensured(s, Parent(d)) == s;
    }
  }

  // The folders that have to be created.
  ghost function NewDirs(s0: State, dirs: set<Path>): set<Path> {
    set d | d in dirs && !FolderAt(s0, d)
  }

  lemma DirCall(s0: State, s: State, done: set<Path>, d: Path)
    requires DirsProgress(s0, s, done) && d !in done && d != [] && FolderAt(s, Parent(d))
    ensures Ensured(s, d).calls == s.calls + if FolderAt(s0, d) then [] else [CreateFolder(d)]
  {
    if FolderAt(s0, d) {
      KnownFolders(s0, s, done, d);
    } else {
      assert !FolderAt(s, d) && Ensured(s, Parent(d)) == s;
    }
  }

  lemma MoreCreations(s0: State, calls: seq<Call>, done: set<Path>, d: Path)
    requires Added(s0.calls, calls, Creations(NewDirs(s0, done))) && d !in done
    ensures Added(s0.calls, calls + if FolderAt(s0, d) then [] else [CreateFolder(d)],
                Creations(NewDirs(s0, done + {d})))
  {
    if FolderAt(s0, d) {
      assert NewDirs(s0, done + {d}) == NewDirs(s0, done) && calls + [] == calls;
    } else {
      assert Creations(NewDirs(s0, done + {d})) == Creations(NewDirs(s0, done)) + {CreateFolder(d)};
      AddedOne(s0.calls, calls, Creations(NewDirs(s0, done)), CreateFolder(d));
    }
  }

  // ---- the file phase ----

  // What holds while files are being uploaded, in whatever order they finish.
  ghost predicate FilesProgress(s0: State, s: State, dirs: set<Path>, files: set<Path>, done: set<Path>, disk: Disk,
                                fails: set<Path>)
  {
    && Core(s) && Homed(s) && PlacedAll(s, dirs + files) && DirsMapped(s, dirs)
      && FilesOutcome(s0, s, done, disk, fails)
    && ((forall f :: f in done ==> UpToDate(s0, f, disk)) ==> s == s0)
  }

  lemma AddFileOnly(s: State, dirs: set<Path>, files: set<Path>, f: Path, signature: string, id: nat)
    requires Scan(dirs, files) && Core(s) && Homed(s) && PlacedAll(s, dirs + files) && DirsMapped(s, dirs)
    requires f in files && FolderAt(s, Parent(f)) && UploadAnswer(s, f, id)
    ensures var s' := AddFile(s, f, signature, id);
            Core(s') && Homed(s') && PlacedAll(s', dirs + files) && DirsMapped(s', dirs)
  {
    var s' := AddFile(s, f, signature, id);
    AddFileCore(s, f, signature, id);
    forall q | q in dirs + files && q in s'.mapping && q != f ensures Placed(s', q) {
      AddFilePlaced(s, f, signature, id, q);
    }
    forall d | d in dirs ensures FolderAt(s', d) {
      assert FolderAt(s, d) && d != f;
    }
  }

  lemma SkippedFileStep(s0: State, s: State, dirs: set<Path>, files: set<Path>, done: set<Path>, disk: Disk,
                        fails: set<Path>, f: Path)
    requires FilesProgress(s0, s, dirs, files, done, disk, fails) && f !in done
    requires UpToDate(s, f, disk) || f in fails
    ensures FilesProgress(s0, s, dirs, files, done + {f}, disk, fails)
  {
  }

  lemma UploadedFileStep(s0: State, s: State, dirs: set<Path>, files: set<Path>, done: set<Path>, disk: Disk,
                         fails: set<Path>, f: Path, id: nat)
    requires Scan(dirs, files) && FilesProgress(s0, s, dirs, files, done, disk, fails) && f in files && f !in done
    requires f in disk && disk[f].Regular? && !UpToDate(s, f, disk) && f !in fails
    requires FolderAt(s, Parent(f)) && UploadAnswer(s, f, id)
    ensures FilesProgress(s0, AddFile(s, f, disk[f].signature, id), dirs, files, done + {f}, disk, fails)
  {
    AddFileOnly(s, dirs, files, f, disk[f].signature, id);
    assert UpToDate(s0, f, disk) == UpToDate(s, f, disk);
  }

  // ---- uploads under way ----

  // The server has the file; its id has still to be stored.
  function Uploading(s: State, p: Path, id: nat): State
    requires p != [] && FolderAt(s, Parent(p))
  {
    s.(remote := s.remote[id := Node(FileKind, Last(p), Some(IdAt(s, Parent(p))))],
       nextId := if id == s.nextId then s.nextId + 1 else s.nextId, calls := s.calls + [UploadFile(p)])
  }

  function StoredFile(s: State, p: Path, signature: string, id: nat): State {
    s.(mapping := s.mapping[p := FileEntry(id, signature)])
  }

  // The state once every id is stored.
  function Settled(s: State, sent: map<Path, nat>, disk: Disk): State
    requires AllRegular(sent.Keys, disk)
  {
    s.(mapping := s.mapping + map f | f in sent :: FileEntry(sent[f], disk[f].signature))
  }

  predicate AllRegular(files: set<Path>, disk: Disk) {
    forall f :: f in files ==> f in disk && disk[f].Regular?
  }

  // Files that are due, looked at, and done with but for storing the ids of those that were sent. While
  // uploads overlap, the settled state is as far as if all of these had been stored.
  ghost predicate PoolProgress(s0: State, s: State, dirs: set<Path>, q: Queue, sent: map<Path, nat>, disk: Disk,
                               fails: set<Path>)
  {
    && q.Valid() && AllRegular(q.files, disk) && sent.Keys <= q.done
    && FilesProgress(s0, Settled(s, sent, disk), dirs, q.files, q.done, disk, fails)
    && forall f :: f in q.ready ==> !UpToDate(s, f, disk)
  }

  datatype Queue = Queue(files: set<Path>, todo: set<Path>, ready: set<Path>, done: set<Path>) {
    predicate Valid() {
      files == todo + ready + done && todo !! ready && done !! todo + ready
    }

    function LookedAt(f: Path, known: bool): Queue {
      if known then Queue(files, todo - {f}, ready, done + {f}) else Queue(files, todo - {f}, ready + {f}, done)
    }

    function TriedToSend(f: Path): Queue {
      Queue(files, todo, ready - {f}, done + {f})
    }
  }

  lemma SettledElsewhere(s: State, sent: map<Path, nat>, disk: Disk, f: Path)
    requires AllRegular(sent.Keys, disk) && f !in sent
    ensures var r := Settled(s, sent, disk);
            && (f in r.mapping <==> f in s.mapping) && (f in s.mapping ==> r.mapping[f] == s.mapping[f])
            && (FolderAt(r, f) <==> FolderAt(s, f)) && (UpToDate(r, f, disk) <==> UpToDate(s, f, disk))
  {
  }

  lemma ParentIsThere(s: State, dirs: set<Path>, files: set<Path>, sent: map<Path, nat>, disk: Disk, f: Path)
    requires Scan(dirs, files) && AllRegular(sent.Keys, disk) && sent.Keys <= files && f in files
    requires DirsMapped(Settled(s, sent, disk), dirs)
    ensures f != [] && Parent(f) !in sent && FolderAt(s, Parent(f))
    ensures FolderAt(Settled(s, sent, disk), Parent(f))
            && IdAt(Settled(s, sent, disk), Parent(f)) == IdAt(s, Parent(f))
  {
    assert Parent(f) == [] || Parent(f) in dirs;
    SettledElsewhere(s, sent, disk, Parent(f));
  }

  lemma SettledMapping(s: State, sent: map<Path, nat>, disk: Disk, f: Path, id: nat)
    requires AllRegular(sent.Keys + {f}, disk)
    ensures Settled(s, sent[f := id], disk).mapping
         == Settled(s, sent, disk).mapping[f := FileEntry(id, disk[f].signature)]
  {
  }

  lemma SendingIsAdding(s: State, sent: map<Path, nat>, disk: Disk, f: Path, id: nat)
    requires AllRegular(sent.Keys + {f}, disk) && f != []
    requires FolderAt(s, Parent(f)) && Parent(f) !in sent && UploadAnswer(s, f, id)
    ensures var r := Settled(s, sent, disk);
            && FolderAt(r, Parent(f)) && UploadAnswer(r, f, id)
            && Settled(Uploading(s, f, id), sent[f := id], disk) == AddFile(r, f, disk[f].signature, id)
  {
    SettledElsewhere(s, sent, disk, Parent(f));
    SettledMapping(s, sent, disk, f, id);
  }

  lemma StoringIsSettled(s: State, sent: map<Path, nat>, disk: Disk, f: Path)
    requires AllRegular(sent.Keys, disk) && f in sent
    ensures Settled(StoredFile(s, f, disk[f].signature, sent[f]), sent - {f}, disk) == Settled(s, sent, disk)
  {
  }

  // A file that is not done with is as up to date as it was before.
  lemma DueIsAsBefore(s0: State, s: State, dirs: set<Path>, q: Queue, sent: map<Path, nat>, disk: Disk,
                      fails: set<Path>, f: Path)
    requires PoolProgress(s0, s, dirs, q, sent, disk, fails) && f in q.todo + q.ready
    ensures UpToDate(s0, f, disk) == UpToDate(s, f, disk) == UpToDate(Settled(s, sent, disk), f, disk)
  {
    SettledElsewhere(s, sent, disk, f);
  }

  lemma DoneWith(s0: State, s: State, dirs: set<Path>, q: Queue, sent: map<Path, nat>, disk: Disk, fails: set<Path>,
                 f: Path, done: set<Path>)
    requires PoolProgress(s0, s, dirs, q, sent, disk, fails) && f in q.todo + q.ready && done == q.done + {f}
    requires UpToDate(s, f, disk) || f in fails
    ensures FilesProgress(s0, Settled(s, sent, disk), dirs, q.files, done, disk, fails)
  {
    SettledElsewhere(s, sent, disk, f);
    SkippedFileStep(s0, Settled(s, sent, disk), dirs, q.files, q.done, disk, fails, f);
  }

  lemma QueueStays(q: Queue, f: Path, known: bool)
    requires q.Valid()
    ensures f in q.todo ==> q.LookedAt(f, known).Valid()
    ensures f in q.ready ==> q.TriedToSend(f).Valid()
  {
  }

  // An unchanged file is done with when it is looked at.
  lemma LookDone(s0: State, s: State, dirs: set<Path>, q: Queue, sent: map<Path, nat>, disk: Disk, fails: set<Path>,
                 f: Path, q': Queue)
    requires PoolProgress(s0, s, dirs, q, sent, disk, fails) && f in q.todo && UpToDate(s, f, disk)
    requires q' == q.LookedAt(f, true)
    ensures PoolProgress(s0, s, dirs, q', sent, disk, fails)
  {
    QueueStays(q, f, true);
    DoneWith(s0, s, dirs, q, sent, disk, fails, f, q'.done);
  }

  lemma LookReady(s0: State, s: State, dirs: set<Path>, q: Queue, sent: map<Path, nat>, disk: Disk, fails: set<Path>,
                  f: Path)
    requires PoolProgress(s0, s, dirs, q, sent, disk, fails) && f in q.todo && !UpToDate(s, f, disk)
    ensures PoolProgress(s0, s, dirs, q.LookedAt(f, false), sent, disk, fails)
  {
  }

  lemma SendFails(s0: State, s: State, dirs: set<Path>, q: Queue, sent: map<Path, nat>, disk: Disk, fails: set<Path>,
                  f: Path)
    requires PoolProgress(s0, s, dirs, q, sent, disk, fails) && f in q.ready && f in fails
    ensures PoolProgress(s0, s, dirs, q.TriedToSend(f), sent, disk, fails) && !UpToDate(s0, f, disk)
  {
    DueIsAsBefore(s0, s, dirs, q, sent, disk, fails, f);
    DoneWith(s0, s, dirs, q, sent, disk, fails, f, q.TriedToSend(f).done);
  }

  lemma SendGoes(s0: State, s: State, dirs: set<Path>, q: Queue, sent: map<Path, nat>, disk: Disk, fails: set<Path>,
                 f: Path, id: nat)
    requires Scan(dirs, q.files) && PoolProgress(s0, s, dirs, q, sent, disk, fails)
    requires f in q.ready && f !in fails && f != [] && FolderAt(s, Parent(f)) && UploadAnswer(s, f, id)
    ensures PoolProgress(s0, Uploading(s, f, id), dirs, q.TriedToSend(f), sent[f := id], disk, fails)
  {
    var r := Settled(s, sent, disk);
    ParentIsThere(s, dirs, q.files, sent, disk, f);
    SettledElsewhere(s, sent, disk, f);
    SendingIsAdding(s, sent, disk, f, id);
    UploadedFileStep(s0, r, dirs, q.files, q.done, disk, fails, f, id);
  }

  lemma AtMostOneMore(sent: map<Path, nat>, f: Path, id: nat)
    ensures |sent[f := id].Keys| <= |sent.Keys| + 1
  {
    assert sent[f := id].Keys == sent.Keys + {f};
  }

  lemma StoreStep(s0: State, s: State, dirs: set<Path>, q: Queue, sent: map<Path, nat>, disk: Disk, fails: set<Path>,
                  f: Path)
    requires PoolProgress(s0, s, dirs, q, sent, disk, fails) && f in sent
    ensures PoolProgress(s0, StoredFile(s, f, disk[f].signature, sent[f]), dirs, q, sent - {f}, disk, fails)
  {
    StoringIsSettled(s, sent, disk, f);
  }

  lemma NothingSent(s: State, disk: Disk)
    ensures Settled(s, map[], disk) == s
  {
    assert Settled(s, map[], disk).mapping == s.mapping;
  }

  lemma PoolDone(s0: State, s: State, dirs: set<Path>, q: Queue, sent: map<Path, nat>, disk: Disk, fails: set<Path>)
    requires PoolProgress(s0, s, dirs, q, sent, disk, fails) && q.todo == {} && q.ready == {} && sent.Keys == {}
    ensures q.done == q.files && FilesProgress(s0, s, dirs, q.files, q.files, disk, fails)
  {
    assert sent == map[];
    NothingSent(s, disk);
    assert q.done == q.files;
  }

  // The files whose upload fails, and those that are uploaded.
  ghost function Failing(s0: State, done: set<Path>, disk: Disk, fails: set<Path>): set<Path> {
    set f | f in done && f in fails && !UpToDate(s0, f, disk)
  }

  ghost function Changed(s0: State, done: set<Path>, disk: Disk, fails: set<Path>): set<Path> {
    set f | f in done && f !in fails && !UpToDate(s0, f, disk)
  }

  ghost predicate Counted(s0: State, done: set<Path>, disk: Disk, fails: set<Path>, failed: nat) {
    failed == |Failing(s0, done, disk, fails)|
  }

  // ---- calls ----

  // These calls and no others, each once.
  ghost predicate Listed(calls: seq<Call>, expected: set<Call>) {
    Distinct(calls) && Elements(calls) == expected
  }

  ghost predicate Added(before: seq<Call>, after: seq<Call>, expected: set<Call>) {
    before <= after && Listed(after[|before|..], expected)
  }

  ghost function Creations(dirs: set<Path>): set<Call> {
    set d | d in dirs :: CreateFolder(d)
  }

  ghost function Uploads(files: set<Path>): set<Call> {
    set f | f in files :: UploadFile(f)
  }

  ghost function Deletions(paths: set<Path>): set<Call> {
    set p | p in paths :: Delete(p)
  }

  lemma AddedNone(calls: seq<Call>)
    ensures Added(calls, calls, {})
  {
  }

  lemma AddedOne(before: seq<Call>, after: seq<Call>, expected: set<Call>, c: Call)
    requires Added(before, after, expected) && c !in expected
    ensures Added(before, after + [c], expected + {c})
  {
    var added := after[|before|..];
    assert (after + [c])[|before|..] == added + [c];
    assert Elements(added + [c]) == Elements(added) + {c};
    assert c !in Elements(added);
  }

  lemma DeletesAreListed(gone: seq<Path>)
    requires Distinct(gone)
    ensures Listed(Deletes(gone), Deletions(Elements(gone)))
  {
    var calls := Deletes(gone);
    forall c ensures c in Elements(calls) <==> c in Deletions(Elements(gone)) {
      if c in Elements(calls) {
        var i :| 0 <= i < |calls| && calls[i] == c;
        assert gone[i] in Elements(gone);
      }
      if c in Deletions(Elements(gone)) {
        var i :| 0 <= i < |gone| && Delete(gone[i]) == c;
        assert calls[i] == c;
      }
    }
  }

  // First the folders, then the files, then the deletions.
  ghost predicate RanCalls(before: seq<Call>, after: seq<Call>, creations: set<Call>, uploads: set<Call>,
                           deletions: set<Call>)
  {
    exists i, j :: |before| <= i <= j <= |after| && before == after[..|before|]
      && Listed(after[|before|..i], creations) && Listed(after[i..j], uploads) && Listed(after[j..], deletions)
  }

  lemma CallsInOrder(c0: seq<Call>, c1: seq<Call>, c2: seq<Call>, c3: seq<Call>, creations: set<Call>,
                     uploads: set<Call>, deletions: set<Call>)
    requires Added(c0, c1, creations) && Added(c1, c2, uploads) && Added(c2, c3, deletions)
    ensures RanCalls(c0, c3, creations, uploads, deletions)
  {
    assert c3[|c0|..|c1|] == c1[|c0|..] && c3[|c1|..|c2|] == c2[|c1|..] && c0 == c3[..|c0|];
  }

  // ---- what a sync leaves, in terms of the table it found ----

  // Mapped, and gone from the disk; or mapped as a folder where a file now is that cannot be uploaded.
  ghost function OffDisk(s: State, dirs: set<Path>, files: set<Path>, fails: set<Path>): set<Path> {
    set p | p in s.mapping && p !in dirs && (p !in files || (p in fails && s.mapping[p].FolderEntry?))
  }

  ghost function MappedAfter(s: State, dirs: set<Path>, files: set<Path>, fails: set<Path>): set<Path> {
    s.mapping.Keys + dirs + (files - fails)
  }

  // Every folder and every uploaded file is mapped, everything else is as it was; `swept` is gone.
  ghost predicate SyncedEntries(s0: State, s: State, dirs: set<Path>, files: set<Path>, disk: Disk, fails: set<Path>,
                                swept: set<Path>)
  {
    && s.mapping.Keys == MappedAfter(s0, dirs, files, fails) - swept && DirsMapped(s, dirs)
    && (forall f :: f in files - fails ==> UpToDate(s, f, disk))
    && forall p | p in s0.mapping && p in s.mapping && Untouched(s0, dirs, files, disk, fails, p) ::
         s.mapping[p] == s0.mapping[p]
  }

  // Not on disk, a known folder, a file that is up to date, or one that could not be uploaded.
  predicate Untouched(s0: State, dirs: set<Path>, files: set<Path>, disk: Disk, fails: set<Path>, p: Path) {
    if p in dirs then p in s0.mapping && s0.mapping[p].FolderEntry?
    else p !in files || p in fails || UpToDate(s0, p, disk)
  }

  lemma DirAfter(s0: State, s1: State, s2: State, dirs: set<Path>, files: set<Path>, disk: Disk, fails: set<Path>,
                 d: Path)
    requires DirsProgress(s0, s1, dirs) && FilesProgress(s1, s2, dirs, files, files, disk, fails) && Scan(dirs, files)
    requires d in dirs
    ensures d in s2.mapping && s2.mapping[d].FolderEntry?
    ensures d in s0.mapping && s0.mapping[d].FolderEntry? ==> s2.mapping[d] == s0.mapping[d]
  {
    assert FolderAt(s1, d) && FolderAt(s2, d);
  }

  lemma FileAfter(s0: State, s1: State, s2: State, dirs: set<Path>, files: set<Path>, disk: Disk, fails: set<Path>,
                  f: Path)
    requires DirsProgress(s0, s1, dirs) && FilesProgress(s1, s2, dirs, files, files, disk, fails) && Scan(dirs, files)
    requires f in files
    ensures f !in fails ==> UpToDate(s2, f, disk)
    ensures f in fails || UpToDate(s0, f, disk) ==>
              (f in s2.mapping <==> f in s0.mapping) && (f in s0.mapping ==> s2.mapping[f] == s0.mapping[f])
  {
    assert FileOutcome(s1, s2, f, disk, fails);
  }

  lemma OtherAfter(s0: State, s1: State, s2: State, dirs: set<Path>, files: set<Path>, disk: Disk, fails: set<Path>,
                   p: Path)
    requires DirsProgress(s0, s1, dirs) && FilesProgress(s1, s2, dirs, files, files, disk, fails) && Scan(dirs, files)
    requires p !in dirs && p !in files
    ensures (p in s2.mapping <==> p in s0.mapping) && (p in s0.mapping ==> s2.mapping[p] == s0.mapping[p])
  {
  }

  // What the uploads make of one path.
  ghost predicate PathAfter(s0: State, s2: State, dirs: set<Path>, files: set<Path>, disk: Disk, fails: set<Path>,
                            p: Path)
  {
    && (p in s2.mapping <==> p in MappedAfter(s0, dirs, files, fails))
    && (p in Stale(s2, dirs, files) <==> p in OffDisk(s0, dirs, files, fails))
    && (p in s0.mapping && p in s2.mapping && Untouched(s0, dirs, files, disk, fails, p) ==>
          s2.mapping[p] == s0.mapping[p])
  }

  lemma AfterUploads(s0: State, s1: State, s2: State, dirs: set<Path>, files: set<Path>, disk: Disk, fails: set<Path>,
                     p: Path)
    requires DirsProgress(s0, s1, dirs) && FilesProgress(s1, s2, dirs, files, files, disk, fails) && Scan(dirs, files)
    ensures PathAfter(s0, s2, dirs, files, disk, fails, p)
  {
    if p in dirs {
      DirAfter(s0, s1, s2, dirs, files, disk, fails, p);
    } else if p in files {
      FileAfter(s0, s1, s2, dirs, files, disk, fails, p);
    } else {
      OtherAfter(s0, s1, s2, dirs, files, disk, fails, p);
    }
  }

  lemma EntriesAfterUploads(s0: State, s1: State, s2: State, dirs: set<Path>, files: set<Path>, disk: Disk,
                            fails: set<Path>)
    requires DirsProgress(s0, s1, dirs) && FilesProgress(s1, s2, dirs, files, files, disk, fails) && Scan(dirs, files)
    ensures s2.mapping.Keys == MappedAfter(s0, dirs, files, fails)
    ensures Stale(s2, dirs, files) == OffDisk(s0, dirs, files, fails)
    ensures SyncedEntries(s0, s2, dirs, files, disk, fails, {})
  {
    forall p ensures PathAfter(s0, s2, dirs, files, disk, fails, p) {
      AfterUploads(s0, s1, s2, dirs, files, disk, fails, p);
    }
    forall f | f in files - fails ensures UpToDate(s2, f, disk) {
      FileAfter(s0, s1, s2, dirs, files, disk, fails, f);
    }
    PathsAfter(s0, s2, dirs, files, disk, fails);
  }

  lemma PathsAfter(s0: State, s2: State, dirs: set<Path>, files: set<Path>, disk: Disk, fails: set<Path>)
    requires forall p :: PathAfter(s0, s2, dirs, files, disk, fails, p)
    requires DirsMapped(s2, dirs) && forall f | f in files - fails :: UpToDate(s2, f, disk)
    ensures s2.mapping.Keys == MappedAfter(s0, dirs, files, fails)
    ensures Stale(s2, dirs, files) == OffDisk(s0, dirs, files, fails)
    ensures SyncedEntries(s0, s2, dirs, files, disk, fails, {})
  {
    forall p ensures p in s2.mapping.Keys <==> p in MappedAfter(s0, dirs, files, fails) {
      assert PathAfter(s0, s2, dirs, files, disk, fails, p);
    }
    forall p ensures p in Stale(s2, dirs, files) <==> p in OffDisk(s0, dirs, files, fails) {
      assert PathAfter(s0, s2, dirs, files, disk, fails, p);
    }
    forall p | p in s0.mapping && p in s2.mapping && Untouched(s0, dirs, files, disk, fails, p)
      ensures s2.mapping[p] == s0.mapping[p]
    {
      assert PathAfter(s0, s2, dirs, files, disk, fails, p);
    }
  }

  lemma EntriesAfterSweep(s0: State, s2: State, s: State, dirs: set<Path>, files: set<Path>, disk: Disk,
                          fails: set<Path>)
    requires SyncedEntries(s0, s2, dirs, files, disk, fails, {})
    requires s.mapping == s2.mapping - OffDisk(s0, dirs, files, fails) && Scan(dirs, files)
    ensures SyncedEntries(s0, s, dirs, files, disk, fails, OffDisk(s0, dirs, files, fails))
  {
  }

  lemma FewGoneIsSwept(s: State, dirs: set<Path>, files: set<Path>, fails: set<Path>)
    ensures |s.mapping.Keys| <= |MappedAfter(s, dirs, files, fails)|
  {
    SubsetSize(s.mapping.Keys, MappedAfter(s, dirs, files, fails));
  }

  function Turns(q: Queue, sent: map<Path, nat>): nat {
    3 * |q.todo| + 2 * |q.ready| + |sent.Keys|
  }

  lemma NothingDone(s0: State, disk: Disk, fails: set<Path>)
    ensures Counted(s0, {}, disk, fails, 0) && Added(s0.calls, s0.calls, Uploads(Changed(s0, {}, disk, fails)))
  {
    AddedNone(s0.calls);
    assert Failing(s0, {}, disk, fails) == {} && Uploads(Changed(s0, {}, disk, fails)) == {};
  }

  lemma LookCounts(s0: State, q: Queue, sent: map<Path, nat>, disk: Disk, fails: set<Path>, failed: nat, f: Path,
                   known: bool)
    requires Counted(s0, q.done, disk, fails, failed) && f in q.todo && (known ==> UpToDate(s0, f, disk))
    ensures Counted(s0, q.LookedAt(f, known).done, disk, fails, failed)
    ensures Changed(s0, q.LookedAt(f, known).done, disk, fails) == Changed(s0, q.done, disk, fails)
    ensures Turns(q.LookedAt(f, known), sent) < Turns(q, sent)
  {
    assert Failing(s0, q.LookedAt(f, known).done, disk, fails) == Failing(s0, q.done, disk, fails);
  }

  lemma SendCounts(s0: State, q: Queue, sent: map<Path, nat>, disk: Disk, fails: set<Path>, failed: nat, f: Path,
                   id: Option<nat>)
    requires Counted(s0, q.done, disk, fails, failed) && f in q.ready && q.Valid()
    requires (id.None? <==> f in fails) && !UpToDate(s0, f, disk)
    ensures Counted(s0, q.TriedToSend(f).done, disk, fails, if id.None? then failed + 1 else failed)
    ensures Turns(q.TriedToSend(f), if id.Some? then sent[f := id.value] else sent) < Turns(q, sent)
  {
    var before, after := Failing(s0, q.done, disk, fails), Failing(s0, q.TriedToSend(f).done, disk, fails);
    assert after == before + if id.None? then {f} else {};
    if id.Some? { AtMostOneMore(sent, f, id.value); }
  }

  lemma SendCalls(s0: State, calls: seq<Call>, calls': seq<Call>, q: Queue, disk: Disk, fails: set<Path>, f: Path)
    requires Added(s0.calls, calls, Uploads(Changed(s0, q.done, disk, fails))) && f in q.ready && q.Valid()
    requires !UpToDate(s0, f, disk) && calls' == calls + if f in fails then [] else [UploadFile(f)]
    ensures Added(s0.calls, calls', Uploads(Changed(s0, q.TriedToSend(f).done, disk, fails)))
  {
    var before, after := Changed(s0, q.done, disk, fails), Changed(s0, q.TriedToSend(f).done, disk, fails);
    if f in fails {
      assert after == before && calls' == calls;
    } else {
      assert after == before + {f} && Uploads(after) == Uploads(before) + {UploadFile(f)};
      AddedOne(s0.calls, calls, Uploads(before), UploadFile(f));
    }
  }

  lemma StoreCounts(q: Queue, sent: map<Path, nat>, f: Path)
    requires f in sent
    ensures Turns(q, sent - {f}) < Turns(q, sent)
  {
    assert (sent - {f}).Keys == sent.Keys - {f};
  }

  // How the upload of a file ends: the server takes it, it fails, or the file is gone meanwhile.
  datatype Fate = Sent | Refused | Gone

  function Forgotten(s: State, p: Path, refuses: set<nat>): State {
    if p in s.mapping && s.mapping[p].FileEntry? then Removed(s, p, s.mapping[p].id in refuses) else s
  }

  class Engine {
    var state: State
    const refuses: set<nat> // the items whose deletion the server rejects

    constructor (refuses: set<nat>)
      ensures Linked(state) && state.mapping == map[] && this.refuses == refuses
    {
      this.refuses := refuses;
      state := State(0, map[], map[0 := Node(FolderKind, "", None)], 1, []);
    }

    method EnsureRemoteFolder(p: Path) returns (id: nat)
      modifies this`state
      ensures state == Ensured(old(state), p) && id == IdAt(state, p)
      decreases |p|
    {
      if p == [] { return state.root; }
      if p in state.mapping && state.mapping[p].FolderEntry? { return state.mapping[p].id; }
      var parentId := EnsureRemoteFolder(Parent(p));
      id := state.nextId;
      state := AddFolder(state, p);
    }

    method Upload(p: Path) returns (id: nat)
      requires p != [] && FolderAt(state, Parent(p))
      ensures UploadAnswer(state, p, id)
    {
      var wanted := Node(FileKind, Last(p), Some(IdAt(state, Parent(p))));
      if exists x :: x in state.remote && state.remote[x] == wanted {
        id :| id in state.remote && state.remote[id] == wanted;
      } else {
        id := state.nextId;
      }
    }

    // removeFileMapping: the entry goes whether or not the server deletes the file.
    method Forget(p: Path)
      modifies this`state
      ensures state == Forgotten(old(state), p, refuses)
    {
      if p !in state.mapping || !state.mapping[p].FileEntry? { return; }
      state := Removed(state, p, state.mapping[p].id in refuses);
    }

    // The first part of syncFile: whether the file is unchanged; otherwise its parent folder is made sure of.
    method LookAt(f: Path, signature: string) returns (known: bool)
      requires f != []
      modifies this`state
      ensures known
              == (f in old(state).mapping && old(state).mapping[f] == FileEntry(old(state).mapping[f].id, signature))
      ensures state == if known then old(state) else Ensured(old(state), Parent(f))
    {
      if f in state.mapping && state.mapping[f].FileEntry? && state.mapping[f].signature == signature { return true; }
      var folder := EnsureRemoteFolder(Parent(f));
      known := false;
    }

    // The second: the upload, up to the server's answer.
    method SendFile(f: Path) returns (id: nat)
      requires f != [] && FolderAt(state, Parent(f))
      modifies this`state
      ensures UploadAnswer(old(state), f, id) && state == Uploading(old(state), f, id)
    {
      id := Upload(f);
      state := Uploading(state, f, id);
    }

    // The third: the answer is stored.
    method StoreAnswer(f: Path, signature: string, id: nat)
      modifies this`state
      ensures state == StoredFile(old(state), f, signature, id)
    {
      state := StoredFile(state, f, signature, id);
    }

    // `found` is the signature of the file when it is looked at, None if it is gone by then.
    method SyncFile(f: Path, found: Option<string>, fate: Fate) returns (ok: bool)
      requires f != []
      modifies this`state
      ensures found.None? ==> ok && state == Forgotten(old(state), f, refuses)
      ensures found.Some? ==>
                var s, signature := old(state), found.value;
                var known := f in s.mapping && s.mapping[f] == FileEntry(s.mapping[f].id, signature);
                && ok == (known || !fate.Refused?)
                && if known then state == s
                   else match fate
                     case Refused => state == Ensured(s, Parent(f))
                     case Gone => state == Forgotten(Ensured(s, Parent(f)), f, refuses)
                     case Sent => exists id ::
                       UploadAnswer(Ensured(s, Parent(f)), f, id)
                       && state == AddFile(Ensured(s, Parent(f)), f, signature, id)
    {
      if found.None? {
        Forget(f);
        return true;
      }
      var known := LookAt(f, found.value);
      if known { return true; }
      if fate.Refused? { return false; }
      if fate.Gone? {
        Forget(f);
        return true;
      }
      ghost var s := state;
      var id := SendFile(f);
      StoreAnswer(f, found.value, id);
      assert state == AddFile(s, f, found.value, id);
      ok := true;
    }

    method SyncDirectory(d: Path, ghost s0: State, ghost done: set<Path>)
      requires DirsProgress(s0, state, done) && d !in done && d != [] && FolderAt(state, Parent(d))
      modifies this`state
      ensures DirsProgress(s0, state, done + {d})
      ensures state.calls == old(state).calls + if FolderAt(s0, d) then [] else [CreateFolder(d)]
    {
      DirStep(s0, state, done, d);
      DirCall(s0, state, done, d);
      var _ := EnsureRemoteFolder(d);
    }

    method SyncDirectories(dirs: seq<Path>, ghost files: set<Path>)
      requires Linked(state) && Distinct(dirs) && ParentsFirst(dirs) && Scan(Elements(dirs), files)
      modifies this`state
      ensures DirsProgress(old(state), state, Elements(dirs))
      ensures Added(old(state).calls, state.calls, Creations(NewDirs(old(state), Elements(dirs))))
    {
      ghost var s0 := state;
      ghost var done: set<Path> := {};
      var i := 0;
      assert Elements(dirs[..0]) == {};
      AddedNone(s0.calls);
      assert Creations(NewDirs(s0, {})) == {};
      while i < |dirs|
        invariant i <= |dirs| && done == Elements(dirs[..i]) && DirsProgress(s0, state, done)
        invariant Added(s0.calls, state.calls, Creations(NewDirs(s0, done)))
      {
        NextDir(dirs, files, state, i);
        MoreCreations(s0, state.calls, done, dirs[i]);
        SyncDirectory(dirs[i], s0, done);
        done := done + {dirs[i]};
        i := i + 1;
      }
      assert dirs[..|dirs|] == dirs;
    }

    // One turn of the pool each: some file that is due is looked at, some that was looked at is sent, some
    // answer is stored.
    method Look(ghost s0: State, ghost dirs: set<Path>, q: Queue, ghost sent: map<Path, nat>, disk: Disk,
                ghost fails: set<Path>)
      returns (f: Path, known: bool)
      requires Scan(dirs, q.files) && PoolProgress(s0, state, dirs, q, sent, disk, fails) && q.todo != {}
      modifies this`state
      ensures f in q.todo && PoolProgress(s0, state, dirs, q.LookedAt(f, known), sent, disk, fails)
      ensures (known ==> UpToDate(s0, f, disk)) && state.calls == old(state).calls
    {
      f :| f in q.todo;
      ParentIsThere(state, dirs, q.files, sent, disk, f);
      ghost var s := state;
      known := LookAt(f, disk[f].signature);
      if known {
        DueIsAsBefore(s0, s, dirs, q, sent, disk, fails, f);
        LookDone(s0, s, dirs, q, sent, disk, fails, f, q.LookedAt(f, true));
      } else {
        LookReady(s0, s, dirs, q, sent, disk, fails, f);
      }
    }

    method Send(ghost s0: State, ghost dirs: set<Path>, q: Queue, ghost sent: map<Path, nat>, ghost disk: Disk,
                fails: set<Path>)
      returns (f: Path, id: Option<nat>)
      requires Scan(dirs, q.files) && PoolProgress(s0, state, dirs, q, sent, disk, fails) && q.ready != {}
      modifies this`state
      ensures f in q.ready && (id.None? <==> f in fails) && !UpToDate(s0, f, disk)
      ensures state.calls == old(state).calls + if id.Some? then [UploadFile(f)] else []
      ensures PoolProgress(s0, state, dirs, q.TriedToSend(f), if id.Some? then sent[f := id.value] else sent, disk,
                  fails)
    {
      f :| f in q.ready;
      if f in fails {
        SendFails(s0, state, dirs, q, sent, disk, fails, f);
        return f, None;
      }
      ParentIsThere(state, dirs, q.files, sent, disk, f);
      DueIsAsBefore(s0, state, dirs, q, sent, disk, fails, f);
      ghost var s := state;
      var n := SendFile(f);
      SendGoes(s0, s, dirs, q, sent, disk, fails, f, n);
      id := Some(n);
    }

    method Store(ghost s0: State, ghost dirs: set<Path>, ghost q: Queue, sent: map<Path, nat>, disk: Disk,
                 ghost fails: set<Path>)
      returns (f: Path)
      requires PoolProgress(s0, state, dirs, q, sent, disk, fails) && sent.Keys != {}
      modifies this`state
      ensures f in sent && PoolProgress(s0, state, dirs, q, sent - {f}, disk, fails)
              && state.calls == old(state).calls
    {
      f :| f in sent.Keys;
      StoreStep(s0, state, dirs, q, sent, disk, fails, f);
      StoreAnswer(f, disk[f].signature, sent[f]);
    }

    method SendTurn(ghost s0: State, ghost dirs: set<Path>, q: Queue, sent: map<Path, nat>, ghost disk: Disk,
                    fails: set<Path>, failed: nat)
      returns (q': Queue, sent': map<Path, nat>, failed': nat)
      requires Scan(dirs, q.files) && PoolProgress(s0, state, dirs, q, sent, disk, fails)
      requires Counted(s0, q.done, disk, fails, failed) && q.ready != {}
      requires Added(s0.calls, state.calls, Uploads(Changed(s0, q.done, disk, fails)))
      modifies this`state
      ensures q'.files == q.files && PoolProgress(s0, state, dirs, q', sent', disk, fails)
      ensures Counted(s0, q'.done, disk, fails, failed') && Turns(q', sent') < Turns(q, sent)
      ensures Added(s0.calls, state.calls, Uploads(Changed(s0, q'.done, disk, fails)))
    {
      ghost var calls := state.calls;
      var f, id := Send(s0, dirs, q, sent, disk, fails);
      SendCalls(s0, calls, state.calls, q, disk, fails, f);
      SendCounts(s0, q, sent, disk, fails, failed, f, id);
      q', failed' := q.TriedToSend(f), if id.None? then failed + 1 else failed;
      sent' := if id.Some? then sent[f := id.value] else sent;
    }

    method Turn(ghost s0: State, ghost dirs: set<Path>, q: Queue, sent: map<Path, nat>, disk: Disk, fails: set<Path>,
                failed: nat)
      returns (q': Queue, sent': map<Path, nat>, failed': nat)
      requires Scan(dirs, q.files) && PoolProgress(s0, state, dirs, q, sent, disk, fails)
      requires Counted(s0, q.done, disk, fails, failed) && (q.todo != {} || q.ready != {} || sent.Keys != {})
      requires Added(s0.calls, state.calls, Uploads(Changed(s0, q.done, disk, fails)))
      modifies this`state
      ensures q'.files == q.files && PoolProgress(s0, state, dirs, q', sent', disk, fails)
      ensures Counted(s0, q'.done, disk, fails, failed') && Turns(q', sent') < Turns(q, sent)
      ensures Added(s0.calls, state.calls, Uploads(Changed(s0, q'.done, disk, fails)))
    {
      q', sent', failed' := q, sent, failed;
      if
      case q.todo != {} =>
        var f, known := Look(s0, dirs, q, sent, disk, fails);
        LookCounts(s0, q, sent, disk, fails, failed, f, known);
        q' := q.LookedAt(f, known);
      case q.ready != {} =>
        q', sent', failed' := SendTurn(s0, dirs, q, sent, disk, fails, failed);
      case sent.Keys != {} =>
        var f := Store(s0, dirs, q, sent, disk, fails);
        StoreCounts(q, sent, f);
        sent' := sent - {f};
    }

    // The pool's workers take turns at every await: a file is looked at, sent and its answer stored in
    // steps of its own, and the steps of different files interleave in any order.
    method SyncFiles(ghost dirs: set<Path>, files: set<Path>, disk: Disk, fails: set<Path>) returns (failed: nat)
      requires Linked(state) && DirsMapped(state, dirs) && Scan(dirs, files)
      requires forall f :: f in files ==> f in disk && disk[f].Regular?
      modifies this`state
      ensures FilesProgress(old(state), state, dirs, files, files, disk, fails)
      ensures failed == |Failing(old(state), files, disk, fails)|
      ensures Added(old(state).calls, state.calls, Uploads(Changed(old(state), files, disk, fails)))
    {
      LinkedIsHomed(state);
      NothingSent(state, disk);
      failed := RunPool(state, dirs, Queue(files, files, {}, {}), disk, fails);
    }

    method RunPool(ghost s0: State, ghost dirs: set<Path>, start: Queue, disk: Disk, fails: set<Path>)
      returns (failed: nat)
      requires Scan(dirs, start.files) && PoolProgress(s0, state, dirs, start, map[], disk, fails) && start.done == {}
      requires state.calls == s0.calls
      modifies this`state
      ensures FilesProgress(s0, state, dirs, start.files, start.files, disk, fails)
      ensures Counted(s0, start.files, disk, fails, failed)
      ensures Added(s0.calls, state.calls, Uploads(Changed(s0, start.files, disk, fails)))
    {
      var q, sent: map<Path, nat> := start, map[];
      failed := 0;
      NothingDone(s0, disk, fails);
      while q.todo != {} || q.ready != {} || sent.Keys != {}
        invariant q.files == start.files && PoolProgress(s0, state, dirs, q, sent, disk, fails)
        invariant Counted(s0, q.done, disk, fails, failed)
        invariant Added(s0.calls, state.calls, Uploads(Changed(s0, q.done, disk, fails)))
        decreases Turns(q, sent)
      {
        q, sent, failed := Turn(s0, dirs, q, sent, disk, fails, failed);
      }
      PoolDone(s0, state, dirs, q, sent, disk, fails);
    }

    // ---- removal ----

    method RemoveItem(p: Path, ghost s0: State, ghost keep: set<Path>, ghost gone: seq<Path>)
      requires SweepProgress(s0, state, keep, gone, refuses) && p in state.mapping && p !in keep
      modifies this`state
      ensures SweepProgress(s0, state, keep, gone + [p], refuses)
    {
      RemoveStep(s0, state, keep, gone, p, refuses);
      state := Removed(state, p, state.mapping[p].id in refuses);
    }

    method RemoveItems(items: seq<Path>, ghost s0: State, ghost keep: set<Path>, ghost gone: seq<Path>)
      requires SweepProgress(s0, state, keep, gone, refuses) && Distinct(items)
      requires Elements(items) !! keep && Elements(items) <= state.mapping.Keys
      modifies this`state
      ensures SweepProgress(s0, state, keep, gone + items, refuses)
    {
      var i := 0;
      assert gone + items[..0] == gone;
      while i < |items|
        invariant i <= |items| && SweepProgress(s0, state, keep, gone + items[..i], refuses)
      {
        StillThere(s0, state, keep, gone, items, i, refuses);
        RemoveItem(items[i], s0, keep, gone + items[..i]);
        assert gone + items[..i] + [items[i]] == gone + items[..i + 1];
        i := i + 1;
      }
      assert items[..|items|] == items;
    }

    // The folder and everything mapped below it, deepest first. `keep` stands for what must stay.
    method RemoveDirectoryMapping(p: Path, ghost s0: State, ghost keep: set<Path>, ghost gone: seq<Path>)
      returns (ghost more: seq<Path>)
      requires SweepProgress(s0, state, keep, gone, refuses) && AtOrUnder(state.mapping, p) !! keep
      modifies this`state
      ensures SweepProgress(s0, state, keep, gone + more, refuses)
      ensures Distinct(more) && Elements(more) == (set q | q in old(state.mapping) && p <= q)
    {
      var items := SortChildrenFirst(AtOrUnder(state.mapping, p));
      RemoveItems(items, s0, keep, gone);
      more := items;
    }

    method RemoveFileMapping(p: Path, ghost s0: State, ghost keep: set<Path>, ghost gone: seq<Path>)
      requires SweepProgress(s0, state, keep, gone, refuses) && p !in keep
      modifies this`state
      ensures if p in old(state.mapping) && old(state.mapping)[p].FileEntry?
              then SweepProgress(s0, state, keep, gone + [p], refuses)
              else state == old(state)
    {
      if p in state.mapping && state.mapping[p].FileEntry? {
        RemoveStep(s0, state, keep, gone, p, refuses);
      }
      Forget(p);
    }

    // One turn of the sweep; the entry is still there when its turn comes.
    method SweepOne(stale: seq<Path>, i: nat, ghost s0: State, ghost keep: set<Path>, ghost dirs: set<Path>,
                    ghost files: set<Path>)
      requires Standing(s0, keep) && Swept(s0, keep, stale, dirs, files) && i < |stale|
      requires SweepProgress(s0, state, keep, stale[..i], refuses)
      modifies this`state
      ensures SweepProgress(s0, state, keep, stale[..i + 1], refuses)
    {
      NextStale(s0, state, keep, stale, dirs, files, i, refuses);
      assert stale[..i] + [stale[i]] == stale[..i + 1];
      if state.mapping[stale[i]].FileEntry? {
        RemoveFileMapping(stale[i], s0, keep, stale[..i]);
      } else {
        ghost var more := RemoveDirectoryMapping(stale[i], s0, keep, stale[..i]);
        OnlyOne(more, stale[i]);
      }
    }

    // Every stale mapping in turn.
    method Sweep(stale: seq<Path>, ghost keep: set<Path>, ghost dirs: set<Path>, ghost files: set<Path>)
      requires Standing(state, keep) && Swept(state, keep, stale, dirs, files)
      modifies this`state
      ensures Standing(state, keep) && state.mapping == old(state.mapping) - Elements(stale)
      ensures state.calls == old(state.calls) + Deletes(stale)
      ensures RemoteSwept(old(state), state, Elements(stale), refuses)
    {
      ghost var s0 := state;
      var i := 0;
      NothingGone(s0, keep, refuses);
      assert stale[..0] == [];
      while i < |stale|
        invariant i <= |stale| && SweepProgress(s0, state, keep, stale[..i], refuses)
      {
        SweepOne(stale, i, s0, keep, dirs, files);
        i := i + 1;
      }
      assert stale[..|stale|] == stale;
    }

    method SweepStale(stale: seq<Path>, ghost dirs: set<Path>, ghost files: set<Path>)
      requires Scan(dirs, files) && Core(state) && PlacedAll(state, dirs + files) && DirsMapped(state, dirs)
      requires Distinct(stale) && ChildrenFirst(stale) && Elements(stale) == Stale(state, dirs, files)
      modifies this`state
      ensures Linked(state) && state.mapping == old(state).mapping - Elements(stale)
      ensures state.calls == old(state).calls + Deletes(stale) && (stale == [] ==> state == old(state))
      ensures RemoteSwept(old(state), state, Elements(stale), refuses)
    {
      ghost var keep := state.mapping.Keys - Elements(stale);
      KeptStands(state, dirs, files, stale);
      if stale != [] {
        Sweep(stale, keep, dirs, files);
      } else {
        NothingGone(state, keep, refuses);
      }
      KeptIsLinked(state, keep);
    }

    // The sweep, unless more than half of what is mapped has gone missing at once.
    method CleanUp(ghost dirs: set<Path>, ghost files: set<Path>, stale: set<Path>)
      returns (massDelete: bool, order: seq<Path>)
      requires Scan(dirs, files) && Core(state) && PlacedAll(state, dirs + files) && DirsMapped(state, dirs)
      requires stale == Stale(state, dirs, files)
      modifies this`state
      ensures massDelete == (2 * |stale| > |old(state).mapping|)
      ensures Distinct(order) && Elements(order) == stale
      ensures massDelete || stale == {} ==> state == old(state)
      ensures !massDelete ==>
                && Linked(state) && state.mapping == old(state).mapping - stale
                && state.calls == old(state).calls + Deletes(order) && RemoteSwept(old(state), state, stale, refuses)
    {
      order := SortChildrenFirst(stale);
      DistinctSize(order);
      StaleIsPart(state, dirs, files);
      assert stale == {} ==> |order| == 0;
      massDelete := |state.mapping| > 0 && 2 * |order| > |state.mapping|;
      if !massDelete { SweepStale(order, dirs, files); }
    }

    // syncRoot, once the remote folder of the root exists. `fails` are the files whose upload fails.
    method SyncRoot(disk: Disk, skip: string -> bool, fails: set<Path>) returns (failed: nat, massDelete: bool)
      requires Linked(state) && [] in disk
      modifies this`state
      ensures var dirs, files := Directories(disk, skip), RegularFiles(disk, skip);
              var gone := OffDisk(old(state), dirs, files, fails);
              && failed == |Failing(old(state), files, disk, fails)|
              && massDelete == (2 * |gone| > |MappedAfter(old(state), dirs, files, fails)|)
              && (2 * |gone| <= |old(state).mapping.Keys| ==> !massDelete)
              && SyncedEntries(old(state), state, dirs, files, disk, fails, if massDelete then {} else gone)
              && RanCalls(old(state).calls, state.calls, Creations(NewDirs(old(state), dirs)),
                   Uploads(Changed(old(state), files, disk, fails)), Deletions(if massDelete then {} else gone))
      ensures var gone := OffDisk(old(state), Directories(disk, skip), RegularFiles(disk, skip), fails);
              !massDelete ==>
                forall p | p in gone && old(state).mapping[p].id !in refuses ::
                  old(state).mapping[p].id !in state.remote
      ensures var dirs, files := Directories(disk, skip), RegularFiles(disk, skip);
              && (!massDelete ==> Linked(state)) && (failed == 0 && !massDelete ==> Mirrors(state, disk, dirs, files))
              && (Mirrors(old(state), disk, dirs, files) ==> state == old(state))
    {
      var dirList, fileList := WalkDirectory(disk, skip);
      ScanOf(disk, skip);
      var sorted := SortParentsFirst(Elements(dirList));
      ghost var dirs, files := Directories(disk, skip), RegularFiles(disk, skip);
      ghost var s0 := state;
      SyncDirectories(sorted, files);
      ghost var s1 := state;
      failed := SyncFiles(dirs, Elements(fileList), disk, fails);
      ghost var s2 := state;
      UploadsDone(s0, s1, s2, dirs, files, disk, fails);
      var order;
      massDelete, order := CleanUp(dirs, files, Stale(state, Elements(dirList), Elements(fileList)));
      SweepDone(s0, s1, s2, state, dirs, files, disk, fails, massDelete, order);
      if !massDelete { SweptItems(s0, s2, state, dirs, files, disk, fails, refuses); }
    }

    // tryRenameMatch from a matched folder on: `accepted` is the server's answer to the rename. The keys
    // are rewritten in the order the table lists them.
    method RenameFolder(from: Path, to: Path, accepted: bool) returns (ghost order: seq<Path>)
      requires Linked(state) && from in state.mapping && state.mapping[from].FolderEntry? && to != []
      modifies this`state
      ensures !accepted ==> state == Ensured(old(state), Parent(to))
      ensures accepted ==> RenameRan(Ensured(old(state), Parent(to)), state, order, from, to)
      ensures accepted && !(from <= to) && (forall k :: k in old(state).mapping ==> !(to <= k)) ==>
                Linked(state) && Rewritten(Ensured(old(state), Parent(to)).mapping, state.mapping, from, to)
    {
      ghost var s0 := state;
      assert FolderAt(s0, from) && from != [];
      order := [];
      var parentId := EnsureRemoteFolder(Parent(to));
      if !accepted { return; }
      ghost var s := state;
      assert FolderAt(s, from);
      var id := state.mapping[from].id;
      state := state.(remote := state.remote[id := Node(FolderKind, Last(to), Some(parentId))]);
      var m';
      m', order := RemapKeys(state.mapping, from, to);
      state := state.(mapping := m');
      RenameIsSound(s0, s, order, from, to);
    }
  }

  // The remote folder has its new name and parent, and the keys were moved in that order.
  ghost predicate RenameRan(s: State, s': State, order: seq<Path>, from: Path, to: Path) {
    && from in s.mapping && to != [] && FolderAt(s, Parent(to)) && Enumerates(order, s.mapping, from)
    && s' == Renamed(s, MoveAll(s.mapping, order, from, to), from, to)
  }

  lemma {:induction false} EnsuredLinked(s: State, p: Path)
    requires Linked(s)
    ensures Linked(Ensured(s, p)) && forall q :: q in Ensured(s, p).mapping ==> q in s.mapping || q <= p
    decreases |p|
  {
    if !FolderAt(s, p) {
      EnsuredLinked(s, Parent(p));
      EnsuredKeepsAbove(s, Parent(p), p);
      AddFolderLinked(Ensured(s, Parent(p)), p);
    }
  }

  lemma RenameIsSound(s0: State, s: State, order: seq<Path>, from: Path, to: Path)
    requires Linked(s0) && from in s0.mapping && s0.mapping[from].FolderEntry? && to != []
             && s == Ensured(s0, Parent(to))
    requires from in s.mapping && s.mapping[from].FolderEntry? && FolderAt(s, Parent(to))
    requires Enumerates(order, s.mapping, from)
    ensures var m' := MoveAll(s.mapping, order, from, to);
            !(from <= to) && (forall k :: k in s0.mapping ==> !(to <= k)) ==>
              Linked(Renamed(s, m', from, to)) && Rewritten(s.mapping, m', from, to)
  {
    EnsuredLinked(s0, Parent(to));
    if !(from <= to) && forall k :: k in s0.mapping ==> !(to <= k) {
      forall k | k in s.mapping ensures !(to <= k) {
        assert k in s0.mapping || |k| <= |Parent(to)|;
      }
      NothingUnderNewPath(s.mapping, from, to);
      RemapIsBijective(s.mapping, order, from, to);
      RenameKeepsLinked(s, MoveAll(s.mapping, order, from, to), from, to);
    }
  }

  lemma {:induction false} AncestorMapped(s: State, p: Path, q: Path)
    requires Linked(s) && p in s.mapping && q <= p && q != []
    ensures q in s.mapping
    decreases |p|
  {
    if q != p {
      assert Placed(s, p) && q <= Parent(p);
      AncestorMapped(s, Parent(p), q);
    }
  }

  // What an accepted rename does to a linked table, for all paths and every order of its keys: it keeps
  // its size exactly when each key finds its place free, and is then rewritten; a folder matched to its
  // own path drops out with everything below it; one matched to a folder above it overwrites that one.
  lemma RenameOutcome(s: State, s': State, order: seq<Path>, from: Path, to: Path)
    requires Linked(s) && RenameRan(s, s', order, from, to)
    ensures |s'.mapping| == |s.mapping| <==> Safe(s.mapping, order, from, to)
    ensures Safe(s.mapping, order, from, to) ==> Rewritten(s.mapping, s'.mapping, from, to)
    ensures from == to ==> s'.mapping == s.mapping - Moved(s.mapping, from)
    ensures to <= from && to != from ==> |s'.mapping| < |s.mapping|
  {
    ClashLosesEntries(s.mapping, order, from, to);
    if from == to {
      SamePathErases(s.mapping, order, from);
    } else if to <= from {
      AncestorMapped(s, from, to);
      UpwardOverwrites(s.mapping, order, from, to);
    }
  }

  // Two folders side by side at the top.
  const TWO_FOLDERS: State := State(
    0, map[["a"] := FolderEntry(1), ["b"] := FolderEntry(2)],
    map[0 := Node(FolderKind, "", None), 1 := Node(FolderKind, "a", Some(0)), 2 := Node(FolderKind, "b", Some(0))], 3,
      [])

  lemma TwoFoldersLinked()
    ensures Linked(TWO_FOLDERS) && Moved(TWO_FOLDERS.mapping, ["a"]) == {["a"]}
  {
    assert ["a"][0] == "a" && ["b"][0] == "b";
    assert !(["a"] <= ["b"]);
  }

  // A folder matched to a mapped path costs that path its entry; matched to its own, it costs its own.
  lemma RenameLosesAnEntry(s: State, order: seq<Path>, to: Path)
    requires to == ["a"] || to == ["b"]
    requires RenameRan(TWO_FOLDERS, s, order, ["a"], to)
    ensures Linked(TWO_FOLDERS) && |s.mapping| == 1
  {
    TwoFoldersLinked();
    OnlyOne(order, ["a"]);
    OneMove(TWO_FOLDERS.mapping, ["a"], to);
    assert TWO_FOLDERS.mapping.Keys == {["a"], ["b"]};
    assert s.mapping.Keys == {["b"]} && |s.mapping| == |s.mapping.Keys|;
  }

  lemma OneMove(m: Mapping, from: Path, to: Path)
    ensures MoveAll(m, [from], from, to) == MoveKey(m, from, to)
  {
    assert [from][..0] == [];
    assert Target(from, to, from) == to;
  }

  lemma SameFiles(s0: State, s1: State, dirs: set<Path>, files: set<Path>, disk: Disk)
    requires DirsProgress(s0, s1, dirs) && dirs !! files
    ensures forall f :: f in files ==> UpToDate(s1, f, disk) == UpToDate(s0, f, disk)
  {
  }

  lemma UploadsDone(s0: State, s1: State, s2: State, dirs: set<Path>, files: set<Path>, disk: Disk, fails: set<Path>)
    requires DirsProgress(s0, s1, dirs) && FilesProgress(s1, s2, dirs, files, files, disk, fails) && Scan(dirs, files)
    requires AllRegular(files, disk)
    ensures Failing(s1, files, disk, fails) == Failing(s0, files, disk, fails)
    ensures Changed(s1, files, disk, fails) == Changed(s0, files, disk, fails)
    ensures s2.mapping.Keys == MappedAfter(s0, dirs, files, fails)
    ensures Stale(s2, dirs, files) == OffDisk(s0, dirs, files, fails)
    ensures SyncedEntries(s0, s2, dirs, files, disk, fails, {})
    ensures Mirrors(s0, disk, dirs, files) ==> s2 == s0 && Stale(s2, dirs, files) == {}
  {
    SameFiles(s0, s1, dirs, files, disk);
    EntriesAfterUploads(s0, s1, s2, dirs, files, disk, fails);
    QuietPhases(s0, s1, s2, dirs, files, disk, fails);
  }

  lemma SweepDone(s0: State, s1: State, s2: State, s3: State, dirs: set<Path>, files: set<Path>, disk: Disk,
                  fails: set<Path>, massDelete: bool, order: seq<Path>)
    requires FilesProgress(s1, s2, dirs, files, files, disk, fails) && Scan(dirs, files)
    requires Failing(s1, files, disk, fails) == Failing(s0, files, disk, fails)
    requires Changed(s1, files, disk, fails) == Changed(s0, files, disk, fails)
    requires s2.mapping.Keys == MappedAfter(s0, dirs, files, fails)
    requires Stale(s2, dirs, files) == OffDisk(s0, dirs, files, fails)
    requires SyncedEntries(s0, s2, dirs, files, disk, fails, {})
    requires Added(s0.calls, s1.calls, Creations(NewDirs(s0, dirs)))
    requires Added(s1.calls, s2.calls, Uploads(Changed(s1, files, disk, fails)))
    requires Distinct(order) && Elements(order) == Stale(s2, dirs, files)
    requires massDelete ==> s3 == s2
    requires !massDelete ==> s3.mapping == s2.mapping - Stale(s2, dirs, files) && s3.calls == s2.calls + Deletes(order)
                             && Linked(s3)
    ensures var gone := OffDisk(s0, dirs, files, fails);
            && SyncedEntries(s0, s3, dirs, files, disk, fails, if massDelete then {} else gone)
            && RanCalls(s0.calls, s3.calls, Creations(NewDirs(s0, dirs)), Uploads(Changed(s0, files, disk, fails)),
                 Deletions(if massDelete then {} else gone))
    ensures |s0.mapping.Keys| <= |s2.mapping.Keys|
    ensures |Failing(s0, files, disk, fails)| == 0 && !massDelete ==> Mirrors(s3, disk, dirs, files)
  {
    FewGoneIsSwept(s0, dirs, files, fails);
    SweepCalls(s2.calls, s3.calls, massDelete, order);
    CallsInOrder(s0.calls, s1.calls, s2.calls, s3.calls, Creations(NewDirs(s0, dirs)),
      Uploads(Changed(s0, files, disk, fails)), Deletions(if massDelete then {} else Elements(order)));
    if !massDelete {
      EntriesAfterSweep(s0, s2, s3, dirs, files, disk, fails);
      if |Failing(s1, files, disk, fails)| == 0 {
        assert Failing(s1, files, disk, fails) == {};
        NoneFails(s1, files, disk, fails);
        SyncedMirrors(s1, s2, s3, dirs, files, disk, fails);
      }
    }
  }

  lemma SweptItems(s0: State, s2: State, s3: State, dirs: set<Path>, files: set<Path>, disk: Disk, fails: set<Path>,
                   refuses: set<nat>)
    requires SyncedEntries(s0, s2, dirs, files, disk, fails, {})
    requires RemoteSwept(s2, s3, OffDisk(s0, dirs, files, fails), refuses)
    ensures forall p | p in OffDisk(s0, dirs, files, fails) && s0.mapping[p].id !in refuses ::
              s0.mapping[p].id !in s3.remote
  {
    forall p | p in OffDisk(s0, dirs, files, fails) && s0.mapping[p].id !in refuses
      ensures s0.mapping[p].id !in s3.remote
    {
      assert Untouched(s0, dirs, files, disk, fails, p);
    }
  }

  lemma NoneFails(s: State, files: set<Path>, disk: Disk, fails: set<Path>)
    requires Failing(s, files, disk, fails) == {}
    ensures forall f :: f in files && f in fails ==> UpToDate(s, f, disk)
  {
    forall f | f in files && f in fails ensures UpToDate(s, f, disk) {
      assert f !in Failing(s, files, disk, fails);
    }
  }

  lemma SweepCalls(before: seq<Call>, after: seq<Call>, massDelete: bool, order: seq<Path>)
    requires Distinct(order) && after == if massDelete then before else before + Deletes(order)
    ensures Added(before, after, Deletions(if massDelete then {} else Elements(order)))
  {
    if massDelete {
      AddedNone(before);
      assert Deletions({}) == {};
    } else {
      DeletesAreListed(order);
      assert after[|before|..] == Deletes(order);
    }
  }

  // A sync that finds everything in place calls nobody.
  lemma QuietPhases(s0: State, s1: State, s2: State, dirs: set<Path>, files: set<Path>, disk: Disk, fails: set<Path>)
    requires DirsProgress(s0, s1, dirs) && FilesProgress(s1, s2, dirs, files, files, disk, fails) && dirs !! files
    ensures Mirrors(s0, disk, dirs, files) ==> s2 == s0 && Stale(s2, dirs, files) == {}
  {
  }

  // With every upload done, what is not stale is the scan.
  lemma FreshIsScan(s1: State, s2: State, dirs: set<Path>, files: set<Path>, disk: Disk, fails: set<Path>)
    requires FilesProgress(s1, s2, dirs, files, files, disk, fails) && [] !in dirs
    requires forall f :: f in files && f in fails ==> UpToDate(s1, f, disk)
    ensures s2.mapping.Keys - Stale(s2, dirs, files) == dirs + files && forall f :: f in files ==> UpToDate(s2, f, disk)
  {
    forall f | f in files ensures UpToDate(s2, f, disk) {
      assert FileOutcome(s1, s2, f, disk, fails);
    }
    forall d | d in dirs ensures FolderAt(s2, d) {
    }
  }

  lemma SyncedMirrors(s1: State, s2: State, s3: State, dirs: set<Path>, files: set<Path>, disk: Disk, fails: set<Path>)
    requires FilesProgress(s1, s2, dirs, files, files, disk, fails) && [] !in dirs
    requires forall f :: f in files && f in fails ==> UpToDate(s1, f, disk)
    requires Linked(s3) && s3.mapping == s2.mapping - Stale(s2, dirs, files)
    ensures Mirrors(s3, disk, dirs, files)
  {
    FreshIsScan(s1, s2, dirs, files, disk, fails);
    assert s3.mapping.Keys == s2.mapping.Keys - Stale(s2, dirs, files);
  }

  // ---- the sweep ----

  // The remote items of these paths are gone, but for those the server would not delete; with a folder went
  // what lay below it, and everything else is as it was.
  ghost predicate RemoteSwept(s0: State, s: State, gone: set<Path>, refuses: set<nat>) {
    && gone <= s0.mapping.Keys && s.remote.Keys <= s0.remote.Keys
    && (forall x | x in s.remote :: s.remote[x] == s0.remote[x])
    && (forall p | p in gone && s0.mapping[p].id !in refuses :: s0.mapping[p].id !in s.remote)
    && forall x | x in s0.remote && x !in s.remote ::
         exists p :: p in gone && s0.mapping[p].id !in refuses && Reaches(s0.remote, x, s0.mapping[p].id)
  }

  ghost predicate Reaches(remote: Remote, x: nat, id: nat) {
    exists n: nat :: Up(remote, x, n) == Some(id)
  }

  lemma {:induction false} UpInLarger(small: Remote, large: Remote, x: nat, n: nat)
    requires small.Keys <= large.Keys && (forall y | y in small :: small[y] == large[y]) && Up(small, x, n).Some?
    ensures Up(large, x, n) == Up(small, x, n)
    decreases n
  {
    if n > 0 { UpInLarger(small, large, small[x].parent.value, n - 1); }
  }

  lemma RemovedIsBelow(s: State, p: Path, refused: bool, x: nat)
    requires p in s.mapping && x in s.remote && x !in Removed(s, p, refused).remote
    ensures !refused && Reaches(s.remote, x, s.mapping[p].id)
  {
    if s.mapping[p].FileEntry? { assert Up(s.remote, x, 0) == Some(x); }
  }

  lemma RemovedIsGone(s: State, p: Path)
    requires p in s.mapping
    ensures s.mapping[p].id !in Removed(s, p, false).remote
  {
    var id := s.mapping[p].id;
    if id in s.remote { assert Up(s.remote, id, 0) == Some(id) && id in Below(s.remote, id); }
  }

  lemma RemoveRemote(s0: State, s: State, gone: set<Path>, p: Path, refuses: set<nat>)
    requires RemoteSwept(s0, s, gone, refuses) && p in s.mapping && p in s0.mapping && s.mapping[p] == s0.mapping[p]
    ensures RemoteSwept(s0, Removed(s, p, s.mapping[p].id in refuses), gone + {p}, refuses)
  {
    var refused := s.mapping[p].id in refuses;
    var s' := Removed(s, p, refused);
    if !refused { RemovedIsGone(s, p); }
    forall x | x in s0.remote && x !in s'.remote
      ensures exists q :: q in gone + {p} && s0.mapping[q].id !in refuses && Reaches(s0.remote, x, s0.mapping[q].id)
    {
      if x in s.remote {
        RemovedIsBelow(s, p, refused, x);
        var n: nat :| Up(s.remote, x, n) == Some(s.mapping[p].id);
        UpInLarger(s.remote, s0.remote, x, n);
        assert Reaches(s0.remote, x, s0.mapping[p].id);
      } else {
        var q :| q in gone && s0.mapping[q].id !in refuses && Reaches(s0.remote, x, s0.mapping[q].id);
        assert q in gone + {p};
      }
    }
  }

  // The paths in `gone` have been removed, and nothing else has changed.
  ghost predicate SweepProgress(s0: State, s: State, keep: set<Path>, gone: seq<Path>, refuses: set<nat>) {
    && Standing(s, keep) && s.mapping == s0.mapping - Elements(gone) && s.calls == s0.calls + Deletes(gone)
    && RemoteSwept(s0, s, Elements(gone), refuses)
  }

  lemma NothingGone(s: State, keep: set<Path>, refuses: set<nat>)
    requires Standing(s, keep)
    ensures SweepProgress(s, s, keep, [], refuses)
  {
    assert s.calls + Deletes([]) == s.calls;
    assert s.mapping - Elements([]) == s.mapping;
  }

  lemma RemoveStep(s0: State, s: State, keep: set<Path>, gone: seq<Path>, p: Path, refuses: set<nat>)
    requires SweepProgress(s0, s, keep, gone, refuses) && p in s.mapping && p !in keep
    ensures SweepProgress(s0, Removed(s, p, s.mapping[p].id in refuses), keep, gone + [p], refuses)
  {
    RemovalKeepsStanding(s, keep, p, s.mapping[p].id in refuses);
    RemoveRemote(s0, s, Elements(gone), p, refuses);
    assert Elements(gone + [p]) == Elements(gone) + {p};
    assert Deletes(gone + [p]) == Deletes(gone) + [Delete(p)];
    assert s0.mapping - Elements(gone) - {p} == s0.mapping - (Elements(gone) + {p});
  }

  lemma StillThere(s0: State, s: State, keep: set<Path>, gone: seq<Path>, items: seq<Path>, i: nat,
                   refuses: set<nat>)
    requires Distinct(items) && i < |items| && SweepProgress(s0, s, keep, gone + items[..i], refuses)
    requires Elements(items) !! keep && Elements(items) <= (s0.mapping - Elements(gone)).Keys
    ensures items[i] in s.mapping && items[i] !in keep
  {
    assert items[i] in Elements(items);
    assert items[i] !in gone;
    assert items[i] !in gone + items[..i];
  }

  // The stale paths, deepest first, beside a kept part that is closed under parents.
  ghost predicate Swept(s: State, keep: set<Path>, stale: seq<Path>, dirs: set<Path>, files: set<Path>) {
    && Scan(dirs, files) && keep <= dirs + files && Elements(stale) == Stale(s, dirs, files)
    && s.mapping.Keys == keep + Elements(stale) && keep !! Elements(stale)
    && Distinct(stale) && ChildrenFirst(stale)
  }

  lemma BelowIsEarlier(stale: seq<Path>, i: nat, q: Path)
    requires ChildrenFirst(stale) && i < |stale| && q in stale && stale[i] < q
    ensures q in Elements(stale[..i])
  {
    var j :| 0 <= j < |stale| && stale[j] == q;
    assert j < i;
    assert stale[..i][j] == q;
  }

  lemma NextStale(s0: State, s: State, keep: set<Path>, stale: seq<Path>, dirs: set<Path>, files: set<Path>, i: nat,
                  refuses: set<nat>)
    requires Swept(s0, keep, stale, dirs, files) && i < |stale| && SweepProgress(s0, s, keep, stale[..i], refuses)
             && Standing(s0, keep)
    ensures stale[i] in s.mapping && stale[i] !in keep
    ensures s.mapping[stale[i]].FolderEntry? ==> AtOrUnder(s.mapping, stale[i]) == {stale[i]}
  {
    var p := stale[i];
    assert p in Elements(stale);
    assert p !in stale[..i];
    if s.mapping[p].FolderEntry? {
      forall q | q in AtOrUnder(s.mapping, p) ensures q == p {
        if q != p && q in keep {
          AncestorsAreDirs(dirs, files, p, q);
        } else if q != p {
          BelowIsEarlier(stale, i, q);
        }
      }
    }
  }

  lemma OnlyOne(more: seq<Path>, p: Path)
    requires Distinct(more) && Elements(more) == {p}
    ensures more == [p]
  {
    DistinctSize(more);
    assert more[0] in Elements(more);
  }

  lemma NextDir(dirs: seq<Path>, files: set<Path>, s: State, i: nat)
    requires Distinct(dirs) && ParentsFirst(dirs) && Scan(Elements(dirs), files) && i < |dirs|
    requires DirsMapped(s, Elements(dirs[..i]))
    ensures dirs[i] != [] && dirs[i] !in Elements(dirs[..i]) && FolderAt(s, Parent(dirs[i]))
    ensures Elements(dirs[..i + 1]) == Elements(dirs[..i]) + {dirs[i]}
  {
    ParentIsEarlier(dirs, files, i);
  }

  lemma StaleIsPart(s: State, dirs: set<Path>, files: set<Path>)
    ensures |s.mapping| == 0 ==> Stale(s, dirs, files) == {}
  {
    if |s.mapping| == 0 { assert s.mapping == map[]; }
  }

  lemma KeptStands(s: State, dirs: set<Path>, files: set<Path>, order: seq<Path>)
    requires Scan(dirs, files) && Core(s) && PlacedAll(s, dirs + files) && DirsMapped(s, dirs)
    requires Distinct(order) && ChildrenFirst(order) && Elements(order) == Stale(s, dirs, files)
    ensures var keep := s.mapping.Keys - Stale(s, dirs, files); Standing(s, keep) && Swept(s, keep, order, dirs, files)
  {
    var keep := s.mapping.Keys - Stale(s, dirs, files);
    forall p | p in keep ensures Placed(s, p) && (Parent(p) == [] || Parent(p) in keep) {
      assert p in dirs + files;
      assert Parent(p) in dirs ==> FolderAt(s, Parent(p));
    }
  }

  lemma KeptIsLinked(s: State, keep: set<Path>)
    requires Standing(s, keep) && s.mapping.Keys == keep
    ensures Linked(s)
  {
  }

  // What the sweep takes for deleted: everything the walk could not reach, be it only for an unreadable
  // folder or a skipped name on the way.
  lemma StaleMeansUnreached(s: State, disk: Disk, skip: string -> bool, p: Path)
    requires forall q :: q in disk && q != [] ==> Parent(q) in disk && disk[Parent(q)].Dir?
    requires p in s.mapping && p != []
    ensures p in Stale(s, Directories(disk, skip), RegularFiles(disk, skip)) <==>
              !(&& p in disk && (if s.mapping[p].FileEntry? then disk[p].Regular? else disk[p].Dir?)
                && (forall n :: 0 < n <= |p| ==> !skip(Last(p[..n])))
                  && (forall n :: 0 <= n < |p| ==> Listable(disk, p[..n])))
  {
    if p in disk { MissedPaths(disk, skip, p); }
  }

  // One folder with one file, mapped as they are on disk; the folder cannot be read at the moment.
  const UNREADABLE: Disk := map[[] := Dir(true), ["a"] := Dir(false), ["a", "f"] := Regular("x")]

  const ONE_FILE: State := State(
    0, map[["a"] := FolderEntry(1), ["a", "f"] := FileEntry(2, "x")],
    map[0 := Node(FolderKind, "", None), 1 := Node(FolderKind, "a", Some(0)), 2 := Node(FileKind, "f", Some(1))], 3, [])

  lemma OneFileCore()
    ensures Core(ONE_FILE) && |ONE_FILE.mapping| == 2
  {
    assert ONE_FILE.mapping.Keys == {["a"], ["a", "f"]} && |ONE_FILE.mapping.Keys| == |ONE_FILE.mapping|;
  }

  lemma OneFilePlaced()
    ensures Placed(ONE_FILE, ["a"]) && Placed(ONE_FILE, ["a", "f"])
  {
    assert Parent(["a", "f"]) == ["a"] && Parent(["a"]) == [];
  }

  // The unchanged file below is taken for deleted, and half of the table is not too much to sweep.
  lemma UnreadableFolderSwept(skip: string -> bool)
    requires !skip("a") && !skip("f")
    ensures var stale := Stale(ONE_FILE, Directories(UNREADABLE, skip), RegularFiles(UNREADABLE, skip));
            Linked(ONE_FILE) && UpToDate(ONE_FILE, ["a", "f"], UNREADABLE)
            && stale == {["a", "f"]} && 2 * |stale| <= |ONE_FILE.mapping|
  {
    OneFileCore();
    OneFilePlaced();
    assert Parent(["a", "f"]) == ["a"] && Parent(["a"]) == [];
    assert Seen(UNREADABLE, skip, []) && Seen(UNREADABLE, skip, ["a"]);
    assert !Seen(UNREADABLE, skip, ["a", "f"]);
  }
}
