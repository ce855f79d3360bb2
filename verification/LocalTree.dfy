/** The watched folder on disk and the walk that lists it. */
module LocalTree {
  import opened Lists

  // A path relative to the watched folder, as its components; [] is the folder itself.
  type Path = seq<string>

  datatype Item = Dir(readable: bool) | Regular(signature: string) | Special

  type Disk = map<Path, Item>

  function Parent(p: Path): Path
    requires p != []
  {
    p[..|p| - 1]
  }

  function Last(p: Path): string
    requires p != []
  {
    p[|p| - 1]
  }

  // ---- what a scan is meant to list ----

  predicate Listable(disk: Disk, p: Path) {
    p in disk && disk[p].Dir? && disk[p].readable
  }

  // Reached from the top through readable folders, without a skipped name.
  ghost predicate Seen(disk: Disk, skip: string -> bool, p: Path)
    decreases |p|
  {
    p in disk && (p == [] || (!skip(Last(p)) && Listable(disk, Parent(p)) && Seen(disk, skip, Parent(p))))
  }

  ghost function Directories(disk: Disk, skip: string -> bool): set<Path> {
    set p | p in disk && p != [] && disk[p].Dir? && Seen(disk, skip, p)
  }

  ghost function RegularFiles(disk: Disk, skip: string -> bool): set<Path> {
    set p | p in disk && p != [] && disk[p].Regular? && Seen(disk, skip, p)
  }

  // A scan lists a path only together with all the folders above it.
  lemma ScanIsAncestorClosed(disk: Disk, skip: string -> bool, p: Path)
    requires p in Directories(disk, skip) + RegularFiles(disk, skip) && Parent(p) != []
    ensures Parent(p) in Directories(disk, skip)
  {
  }

  // In a real tree a path goes unlisted exactly when a name on the way is skipped or a folder above it
  // cannot be read: such paths look deleted.
  lemma {:induction false} MissedPaths(disk: Disk, skip: string -> bool, p: Path)
    requires forall q :: q in disk && q != [] ==> Parent(q) in disk && disk[Parent(q)].Dir?
    requires p in disk
    ensures Seen(disk, skip, p) <==>
              (forall n :: 0 < n <= |p| ==> !skip(Last(p[..n])))
                && (forall n :: 0 <= n < |p| ==> Listable(disk, p[..n]))
    decreases |p|
  {
    if p != [] {
      var q := Parent(p);
      MissedPaths(disk, skip, q);
      assert forall n :: 0 <= n <= |q| ==> q[..n] == p[..n];
      assert p[..|p|] == p;
    }
  }

  // ---- the walk ----

  function EntriesOf(disk: Disk, cur: Path): set<Path> {
    set p | p in disk && p != [] && Parent(p) == cur
  }

  // One folder's entries, in the order the file system gives them.
  method ReadEntries(disk: Disk, skip: string -> bool, cur: Path) returns (dirs: seq<Path>, files: seq<Path>)
    requires Listable(disk, cur)
    ensures Distinct(dirs) && Elements(dirs) == Fresh(disk, skip, cur, true)
    ensures Distinct(files) && Elements(files) == Fresh(disk, skip, cur, false)
  {
    dirs, files := [], [];
    var todo := EntriesOf(disk, cur);
    while todo != {}
      invariant todo <= EntriesOf(disk, cur)
      invariant Distinct(dirs) && Elements(dirs) == set p | p in EntriesOf(disk, cur) - todo && !skip(Last(p))
                && disk[p].Dir?
      invariant Distinct(files) && Elements(files) == set p | p in EntriesOf(disk, cur) - todo && !skip(Last(p))
                && disk[p].Regular?
      decreases todo
    {
      var entry :| entry in todo;
      todo := todo - {entry};
      assert entry !in Elements(dirs) && entry !in Elements(files);
      assert Elements(dirs + [entry]) == Elements(dirs) + {entry}
        && Elements(files + [entry]) == Elements(files) + {entry};
      if !skip(Last(entry)) {
        if disk[entry].Dir? {
          dirs := dirs + [entry];
        } else if disk[entry].Regular? {
          files := files + [entry];
        }
      }
    }
  }

  // What the walk has listed once the folders in `read` have been read.
  ghost predicate Progress(disk: Disk, skip: string -> bool, read: set<Path>, dirs: seq<Path>, files: seq<Path>,
                           stack: seq<Path>)
  {
    && Distinct(dirs) && Distinct(files) && Distinct(stack)
    && [] !in dirs && Elements(stack) !! read && Elements(stack) + read == Elements(dirs) + {[]}
    && Elements(dirs) == Under(disk, skip, read, true) && Elements(files) == Under(disk, skip, read, false)
  }

  lemma {:induction false} AllRead(disk: Disk, skip: string -> bool, read: set<Path>, dirs: seq<Path>, files: seq<Path>,
                                   p: Path)
    requires Progress(disk, skip, read, dirs, files, []) && Seen(disk, skip, p)
    ensures disk[p].Dir? ==> p in read
    ensures p != [] ==> Parent(p) in read
    decreases |p|
  {
    if p != [] {
      AllRead(disk, skip, read, dirs, files, Parent(p));
      if disk[p].Dir? { assert p in Elements(dirs); }
    } else {
      assert [] in Elements(dirs) + {[]};
    }
  }

  lemma {:induction false} ReadWasSeen(disk: Disk, skip: string -> bool, read: set<Path>, dirs: seq<Path>,
                                       files: seq<Path>, p: Path)
    requires Progress(disk, skip, read, dirs, files, []) && [] in disk && p in read
    ensures p in disk && Seen(disk, skip, p)
    decreases |p|
  {
    if p != [] {
      assert p in Elements(dirs) + {[]};
      ReadWasSeen(disk, skip, read, dirs, files, Parent(p));
    }
  }

  lemma WalkIsComplete(disk: Disk, skip: string -> bool, read: set<Path>, dirs: seq<Path>, files: seq<Path>)
    requires Progress(disk, skip, read, dirs, files, []) && [] in disk
    ensures Elements(dirs) == Directories(disk, skip) && Elements(files) == RegularFiles(disk, skip)
  {
    forall p | p in disk && p != [] && !skip(Last(p)) && Listable(disk, Parent(p))
      ensures Parent(p) in read <==> Seen(disk, skip, p)
    {
      if Parent(p) in read { ReadWasSeen(disk, skip, read, dirs, files, Parent(p)); }
      if Seen(disk, skip, p) { AllRead(disk, skip, read, dirs, files, p); }
    }
  }

  // The folders, or files, that one listed folder adds.
  ghost function Fresh(disk: Disk, skip: string -> bool, cur: Path, dirs: bool): set<Path> {
    if Listable(disk, cur)
    then set p | p in EntriesOf(disk, cur) && !skip(Last(p)) && (if dirs then disk[p].Dir? else disk[p].Regular?)
    else {}
  }

  // All that the folders read so far contain.
  ghost function Under(disk: Disk, skip: string -> bool, read: set<Path>, dirs: bool): set<Path> {
    set p | p in disk && p != [] && !skip(Last(p)) && (if dirs then disk[p].Dir? else disk[p].Regular?)
            && Parent(p) in read && Listable(disk, Parent(p))
  }

  lemma UnderOneMore(disk: Disk, skip: string -> bool, read: set<Path>, cur: Path, dirs: bool)
    ensures Under(disk, skip, read + {cur}, dirs) == Under(disk, skip, read, dirs) + Fresh(disk, skip, cur, dirs)
    ensures cur !in read ==> Under(disk, skip, read, dirs) !! Fresh(disk, skip, cur, dirs)
  {
  }

  lemma ReadOneMore(disk: Disk, skip: string -> bool, read: set<Path>, dirs: seq<Path>, files: seq<Path>,
                    stack: seq<Path>, newDirs: seq<Path>, newFiles: seq<Path>)
    requires stack != [] && Progress(disk, skip, read, dirs, files, stack) && Distinct(newDirs) && Distinct(newFiles)
    requires Elements(newDirs) == Fresh(disk, skip, stack[|stack| - 1], true)
    requires Elements(newFiles) == Fresh(disk, skip, stack[|stack| - 1], false)
    ensures Progress(disk, skip, read + {stack[|stack| - 1]}, dirs + newDirs, files + newFiles,
                stack[..|stack| - 1] + newDirs)
  {
    var cur, rest := stack[|stack| - 1], stack[..|stack| - 1];
    Popped(stack);
    UnderOneMore(disk, skip, read, cur, true);
    UnderOneMore(disk, skip, read, cur, false);
    Joined(dirs, newDirs);
    Joined(files, newFiles);
    assert [] !in Fresh(disk, skip, cur, true);
    Joined(rest, newDirs);
  }

  // walkDirectory: an explicit stack instead of recursion; a folder that cannot be read is passed over.
  method WalkDirectory(disk: Disk, skip: string -> bool) returns (dirs: seq<Path>, files: seq<Path>)
    requires [] in disk
    ensures Distinct(dirs) && Elements(dirs) == Directories(disk, skip)
    ensures Distinct(files) && Elements(files) == RegularFiles(disk, skip)
  {
    dirs, files := [], [];
    var stack: seq<Path> := [[]];
    ghost var read: set<Path> := {};
    while stack != []
      invariant Progress(disk, skip, read, dirs, files, stack) && read <= disk.Keys
      decreases disk.Keys - read
    {
      var cur := stack[|stack| - 1];
      var newDirs, newFiles := [], [];
      if Listable(disk, cur) {
        newDirs, newFiles := ReadEntries(disk, skip, cur);
      }
      StackIsOnDisk(disk, skip, read, dirs, files, stack);
      ReadOneMore(disk, skip, read, dirs, files, stack, newDirs, newFiles);
      stack := stack[..|stack| - 1] + newDirs;
      dirs, files := dirs + newDirs, files + newFiles;
      read := read + {cur};
    }
    WalkIsComplete(disk, skip, read, dirs, files);
  }

  lemma StackIsOnDisk(disk: Disk, skip: string -> bool, read: set<Path>, dirs: seq<Path>, files: seq<Path>,
                      stack: seq<Path>)
    requires Progress(disk, skip, read, dirs, files, stack) && stack != [] && [] in disk
    ensures stack[|stack| - 1] in disk && stack[|stack| - 1] !in read
  {
    var cur := stack[|stack| - 1];
    assert cur in Elements(stack);
    assert cur in Elements(dirs) + {[]};
  }
}
