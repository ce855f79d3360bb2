/** Reference counts of blobs: how many file and version rows name each path. */
module BlobRefs {
  import opened Options
  import opened Rows
  import opened Sums

  type Refs = map<string, nat>

  ghost function FileAt(path: string): File -> nat {
    (f: File) => if f.blob.path == path then 1 else 0
  }

  ghost function VersionAt(path: string): Version -> nat {
    (v: Version) => if v.blob.path == path then 1 else 0
  }

  // How many rows name a path.
  ghost function Names(files: Files, versions: Versions, path: string): nat {
    Sum(files, FileAt(path)) + Sum(versions, VersionAt(path))
  }

  ghost function Paths(files: Files, versions: Versions): set<string> {
    (set f | f in files :: files[f].blob.path) + (set v | v in versions :: versions[v].blob.path)
  }

  lemma NamedIffCounted(files: Files, versions: Versions, path: string)
    ensures Names(files, versions, path) > 0 <==> path in Paths(files, versions)
  {
    SumIsPositive(files, FileAt(path));
    SumIsPositive(versions, VersionAt(path));
    if f :| f in files && files[f].blob.path == path { assert FileAt(path)(files[f]) == 1; }
    if v :| v in versions && versions[v].blob.path == path { assert VersionAt(path)(versions[v]) == 1; }
  }

  // What blob_refs holds when every row is counted.
  ghost function Recount(files: Files, versions: Versions): Refs {
    map p | p in Paths(files, versions) :: Names(files, versions, p)
  }

  function Count(refs: Refs, path: string): nat {
    if path in refs then refs[path] else 0
  }

  function Inc(refs: Refs, path: string): Refs {
    refs[path := Count(refs, path) + 1]
  }

  function Dec(refs: Refs, path: string): Refs {
    if Count(refs, path) <= 1 then refs - {path} else refs[path := refs[path] - 1]
  }

  // In the middle of a transaction: the counts cover the rows and the releases still to come.
  ghost predicate Balanced(files: Files, versions: Versions, refs: Refs, pending: multiset<string>) {
    && (forall p :: p in refs ==> refs[p] > 0)
    && forall p :: Count(refs, p) == Names(files, versions, p) + pending[p]
  }

  lemma RecountBalances(files: Files, versions: Versions)
    ensures Balanced(files, versions, Recount(files, versions), multiset{})
  {
    forall p ensures Names(files, versions, p) > 0 <==> p in Paths(files, versions) {
      NamedIffCounted(files, versions, p);
    }
  }

  // Nothing left to release: the table is the count of the rows.
  lemma BalancedIsRecount(files: Files, versions: Versions, refs: Refs)
    requires Balanced(files, versions, refs, multiset{})
    ensures refs == Recount(files, versions)
  {
    forall p ensures p in refs <==> p in Paths(files, versions)
      ensures p in refs ==> refs[p] == Names(files, versions, p)
    {
      NamedIffCounted(files, versions, p);
      assert Count(refs, p) == Names(files, versions, p) + multiset{}[p];
    }
  }

  lemma InsertFileBalances(files: Files, versions: Versions, refs: Refs, pending: multiset<string>, id: string,
                           row: File)
    requires Balanced(files, versions, refs, pending) && id !in files
    ensures Balanced(files[id := row], versions, Inc(refs, row.blob.path), pending)
  {
    forall p
      ensures Names(files[id := row], versions, p) == Names(files, versions, p) + if p == row.blob.path then 1 else 0
    {
      SumAdd(files, id, row, FileAt(p));
    }
  }

  lemma InsertVersionBalances(files: Files, versions: Versions, refs: Refs, pending: multiset<string>, id: string,
                              row: Version)
    requires Balanced(files, versions, refs, pending) && id !in versions
    ensures Balanced(files, versions[id := row], Inc(refs, row.blob.path), pending)
  {
    forall p
      ensures Names(files, versions[id := row], p) == Names(files, versions, p) + if p == row.blob.path then 1 else 0
    {
      SumAdd(versions, id, row, VersionAt(p));
    }
  }

  // A file row turns to another blob: its old one is still to be released.
  lemma RepointBalances(files: Files, versions: Versions, refs: Refs, id: string, blob: Blob)
    requires Balanced(files, versions, refs, multiset{}) && id in files
    ensures Balanced(files[id := files[id].(blob := blob)], versions, Inc(refs, blob.path),
                multiset{files[id].blob.path})
  {
    var row, was := files[id].(blob := blob), files[id].blob.path;
    forall p ensures Names(files[id := row], versions, p) + multiset{was}[p]
                     == Names(files, versions, p) + if p == blob.path then 1 else 0
    {
      SumSet(files, id, row, FileAt(p));
    }
  }

  lemma ReleaseBalances(files: Files, versions: Versions, refs: Refs, pending: multiset<string>, path: string)
    requires Balanced(files, versions, refs, pending) && path in pending
    ensures Balanced(files, versions, Dec(refs, path), pending - multiset{path}) && path in refs
  {
    assert Count(refs, path) == Names(files, versions, path) + pending[path];
  }

  // Rows leave the tables: the paths they named are still to be released.
  ghost predicate PathsOf(paths: multiset<string>, files: Files, versions: Versions) {
    forall p :: paths[p] == Names(files, versions, p)
  }

  lemma DropBalances(files: Files, versions: Versions, refs: Refs, gone: set<string>, goneVersions: set<string>,
                     paths: multiset<string>)
    requires Balanced(files, versions, refs, multiset{})
    requires PathsOf(paths, Only(files, gone), Only(versions, goneVersions))
    ensures Balanced(files - gone, versions - goneVersions, refs, paths)
  {
    forall p ensures Names(files, versions, p) == Names(files - gone, versions - goneVersions, p) + paths[p] {
      SumSplit(files, gone, FileAt(p));
      SumSplit(versions, goneVersions, VersionAt(p));
    }
  }

  lemma OneMoreFilePath(files: Files, done: set<string>, versions: Versions, paths: seq<string>, f: string)
    requires f in files && f !in done && PathsOf(multiset(paths), Only(files, done), versions)
    ensures PathsOf(multiset(paths + [files[f].blob.path]), Only(files, done + {f}), versions)
  {
    var row := files[f];
    assert Only(files, done + {f}) == Only(files, done)[f := row];
    forall p ensures multiset(paths + [row.blob.path])[p] == Names(Only(files, done + {f}), versions, p) {
      SumAdd(Only(files, done), f, row, FileAt(p));
      assert multiset(paths + [row.blob.path]) == multiset(paths) + multiset{row.blob.path};
    }
  }

  lemma OneMoreVersionPath(files: Files, versions: Versions, done: set<string>, paths: seq<string>, v: string)
    requires v in versions && v !in done && PathsOf(multiset(paths), files, Only(versions, done))
    ensures PathsOf(multiset(paths + [versions[v].blob.path]), files, Only(versions, done + {v}))
  {
    var row := versions[v];
    assert Only(versions, done + {v}) == Only(versions, done)[v := row];
    forall p ensures multiset(paths + [row.blob.path])[p] == Names(files, Only(versions, done + {v}), p) {
      SumAdd(Only(versions, done), v, row, VersionAt(p));
      assert multiset(paths + [row.blob.path]) == multiset(paths) + multiset{row.blob.path};
    }
  }
}
