/** The sync engine's mapping table and the remote tree it mirrors to. */
module SyncState {
  import opened LocalTree
  import opened Options

  // What the engine remembers of a local path.
  datatype Entry = FolderEntry(id: nat) | FileEntry(id: nat, signature: string)

  type Mapping = map<Path, Entry>

  datatype Kind = FolderKind | FileKind

  datatype Node = Node(kind: Kind, name: string, parent: Option<nat>)

  type Remote = map<nat, Node>

  // The calls made to the server, by the local path they are about.
  datatype Call = CreateFolder(path: Path) | UploadFile(path: Path) | Delete(path: Path)

  datatype State = State(root: nat, mapping: Mapping, remote: Remote, nextId: nat, calls: seq<Call>)

  // ---- where things hang ----

  predicate FolderAt(s: State, p: Path) {
    p == [] || (p in s.mapping && s.mapping[p].FolderEntry?)
  }

  function IdAt(s: State, p: Path): nat
    requires p == [] || p in s.mapping
  {
    if p == [] then s.root else s.mapping[p].id
  }

  function KindOf(e: Entry): Kind {
    if e.FolderEntry? then FolderKind else FileKind
  }

  // The remote item of p has its kind and name, and hangs under the remote folder of p's parent path.
  ghost predicate Placed(s: State, p: Path) {
    && p != [] && p in s.mapping && FolderAt(s, Parent(p)) && s.mapping[p].id in s.remote
    && s.remote[s.mapping[p].id] == Node(KindOf(s.mapping[p]), Last(p), Some(IdAt(s, Parent(p))))
  }

  // Remote ids are all accounted for, and no two paths share one.
  ghost predicate Core(s: State) {
    && s.root in s.remote && s.remote[s.root].parent.None? && (forall id :: id in s.remote ==> id < s.nextId)
    && [] !in s.mapping
    && (forall p :: p in s.mapping ==> s.mapping[p].id < s.nextId && s.mapping[p].id != s.root)
    && forall p, q :: p in s.mapping && q in s.mapping && s.mapping[p].id == s.mapping[q].id ==> p == q
  }

  // A mapped item lies in no mapped folder but its own parent's.
  ghost predicate HomedAt(s: State, q: Path) {
    && q in s.mapping && q != [] && s.mapping[q].id in s.remote
    && s.remote[s.mapping[q].id].name == Last(q) && s.remote[s.mapping[q].id].parent.Some?
    && s.remote[s.mapping[q].id].parent.value < s.nextId
    && forall d :: FolderAt(s, d) && IdAt(s, d) == s.remote[s.mapping[q].id].parent.value ==> d == Parent(q)
  }

  ghost predicate Homed(s: State) {
    forall q :: q in s.mapping ==> HomedAt(s, q)
  }

  // The mapping is closed under parents and agrees with the remote tree.
  ghost predicate Linked(s: State) {
    Core(s) && forall p :: p in s.mapping ==> Placed(s, p)
  }

  ghost predicate PlacedAll(s: State, ps: set<Path>) {
    forall p :: p in ps && p in s.mapping ==> Placed(s, p)
  }

  lemma LinkedIsHomed(s: State)
    requires Linked(s)
    ensures Homed(s)
  {
    forall q | q in s.mapping ensures HomedAt(s, q) {
      PlacedIsHomed(s, q);
    }
  }

  // ---- new remote items ----

  function AddFolder(s: State, p: Path): State
    requires p != [] && FolderAt(s, Parent(p))
  {
    s.(mapping := s.mapping[p := FolderEntry(s.nextId)],
       remote := s.remote[s.nextId := Node(FolderKind, Last(p), Some(IdAt(s, Parent(p))))],
       nextId := s.nextId + 1, calls := s.calls + [CreateFolder(p)])
  }

  // The server answers with the live file of that name in the folder, when there is one.
  predicate UploadAnswer(s: State, p: Path, id: nat)
    requires p != [] && FolderAt(s, Parent(p))
  {
    var wanted := Node(FileKind, Last(p), Some(IdAt(s, Parent(p))));
    if exists x :: x in s.remote && s.remote[x] == wanted then id in s.remote && s.remote[id] == wanted
    else id == s.nextId
  }

  function AddFile(s: State, p: Path, signature: string, id: nat): State
    requires p != [] && FolderAt(s, Parent(p))
  {
    s.(mapping := s.mapping[p := FileEntry(id, signature)],
       remote := s.remote[id := Node(FileKind, Last(p), Some(IdAt(s, Parent(p))))],
       nextId := if id == s.nextId then s.nextId + 1 else s.nextId, calls := s.calls + [UploadFile(p)])
  }

  lemma FolderIdsDiffer(s: State, d: Path, e: Path)
    requires Core(s) && FolderAt(s, d) && FolderAt(s, e) && IdAt(s, d) == IdAt(s, e)
    ensures d == e
  {
  }

  lemma PlacedIsHomed(s: State, q: Path)
    requires Core(s) && Placed(s, q)
    ensures HomedAt(s, q)
  {
    forall d | FolderAt(s, d) && IdAt(s, d) == s.remote[s.mapping[q].id].parent.value ensures d == Parent(q) {
      FolderIdsDiffer(s, d, Parent(q));
    }
  }

  lemma AddFolderCore(s: State, p: Path)
    requires Core(s) && Homed(s) && p != [] && FolderAt(s, Parent(p)) && !FolderAt(s, p)
    ensures Core(AddFolder(s, p)) && Homed(AddFolder(s, p)) && Placed(AddFolder(s, p), p)
  {
    var s' := AddFolder(s, p);
    assert Parent(p) != p;
    forall q | q in s'.mapping ensures HomedAt(s', q) {
      if q == p {
        PlacedIsHomed(s', p);
      } else {
        assert HomedAt(s, q);
        forall d | FolderAt(s', d) && IdAt(s', d) == s.remote[s.mapping[q].id].parent.value ensures d == Parent(q) {
          if d != p { assert FolderAt(s, d) && IdAt(s, d) == IdAt(s', d); }
        }
      }
    }
  }

  lemma AddFolderPlaced(s: State, p: Path, q: Path)
    requires Core(s) && p != [] && FolderAt(s, Parent(p)) && !FolderAt(s, p) && Placed(s, q) && q != p
    ensures Placed(AddFolder(s, p), q)
  {
  }

  lemma UploadIsOwn(s: State, p: Path, id: nat, q: Path)
    requires Core(s) && Homed(s) && p != [] && FolderAt(s, Parent(p)) && UploadAnswer(s, p, id)
    requires q in s.mapping && s.mapping[q].id == id
    ensures q == p
  {
    assert HomedAt(s, q);
    assert q == Parent(q) + [Last(q)] && p == Parent(p) + [Last(p)];
  }

  lemma AddFileCore(s: State, p: Path, signature: string, id: nat)
    requires Core(s) && Homed(s) && p != [] && FolderAt(s, Parent(p)) && UploadAnswer(s, p, id)
    ensures Core(AddFile(s, p, signature, id)) && Homed(AddFile(s, p, signature, id))
            && Placed(AddFile(s, p, signature, id), p)
  {
    var s' := AddFile(s, p, signature, id);
    assert Parent(p) != p && id != s.root;
    forall q | q in s.mapping && s.mapping[q].id == id ensures q == p {
      UploadIsOwn(s, p, id, q);
    }
    forall q | q in s'.mapping ensures HomedAt(s', q) {
      if q == p {
        PlacedIsHomed(s', p);
      } else {
        assert HomedAt(s, q);
        forall d | FolderAt(s', d) && IdAt(s', d) == s.remote[s.mapping[q].id].parent.value ensures d == Parent(q) {
          assert FolderAt(s, d) && IdAt(s, d) == IdAt(s', d);
        }
      }
    }
  }

  lemma AddFilePlaced(s: State, p: Path, signature: string, id: nat, q: Path)
    requires Core(s) && p != [] && FolderAt(s, Parent(p)) && UploadAnswer(s, p, id) && Placed(s, q) && q != p
             && Parent(q) != p
    ensures Placed(AddFile(s, p, signature, id), q)
  {
  }

  // ---- removed remote items ----

  function Up(remote: Remote, id: nat, n: nat): Option<nat>
    decreases n
  {
    if id !in remote then None
    else if n == 0 then Some(id)
    else if remote[id].parent.None? then None
    else Up(remote, remote[id].parent.value, n - 1)
  }

  // Deleting a folder takes everything below it along.
  function Below(remote: Remote, id: nat): set<nat> {
    set x | x in remote && exists n: nat :: n <= |remote| && Up(remote, x, n) == Some(id)
  }

  lemma {:induction false} UpAdds(remote: Remote, x: nat, m: nat, n: nat)
    requires Up(remote, x, m).Some?
    ensures Up(remote, x, m + n) == Up(remote, Up(remote, x, m).value, n)
    decreases m
  {
    if m > 0 { UpAdds(remote, remote[x].parent.value, m - 1, n); }
  }

  // With a folder goes what hangs in it, and what hangs in that.
  lemma BelowTakesChildren(remote: Remote, id: nat, x: nat, y: nat)
    requires {id, x, y} <= remote.Keys && |{id, x, y}| == 3
    requires remote[x].parent == Some(id) && remote[y].parent == Some(x)
    ensures {id, x, y} <= Below(remote, id)
  {
    assert Up(remote, id, 0) == Some(id) && Up(remote, x, 1) == Some(id);
    UpAdds(remote, y, 1, 1);
    AtLeastThree(remote.Keys, id, x, y);
  }

  lemma AtLeastThree(ids: set<nat>, a: nat, b: nat, c: nat)
    requires {a, b, c} <= ids && |{a, b, c}| == 3
    ensures |ids| >= 3
  {
    assert ids == (ids - {a, b, c}) + {a, b, c};
  }

  // Paths whose items, and all the folders above them, are in place.
  ghost predicate Standing(s: State, keep: set<Path>) {
    && Core(s) && keep <= s.mapping.Keys
    && forall p :: p in keep ==> Placed(s, p) && (Parent(p) == [] || Parent(p) in keep)
  }

  // Going up from a standing item meets standing items only.
  lemma {:induction false} ChainStands(s: State, keep: set<Path>, p: Path, n: nat)
    requires Standing(s, keep) && (p == [] || p in keep)
    ensures var up := Up(s.remote, IdAt(s, p), n);
            up.Some? ==> up.value == s.root || exists q :: q in keep && s.mapping[q].id == up.value
    decreases n
  {
    if n > 0 && p != [] {
      assert Placed(s, p);
      ChainStands(s, keep, Parent(p), n - 1);
    }
  }

  // The entry of p goes, and, unless the server refuses, its remote item with all that hangs below.
  function Removed(s: State, p: Path, refused: bool): State
    requires p in s.mapping
  {
    s.(mapping := s.mapping - {p}, calls := s.calls + [Delete(p)],
       remote := if refused then s.remote
                 else if s.mapping[p].FileEntry? then s.remote - {s.mapping[p].id}
                 else s.remote - Below(s.remote, s.mapping[p].id))
  }

  lemma StandingIsKept(s: State, keep: set<Path>, p: Path, q: Path)
    requires Standing(s, keep) && p in s.mapping && p !in keep && (q == [] || q in keep)
    ensures IdAt(s, q) != s.mapping[p].id && IdAt(s, q) !in Below(s.remote, s.mapping[p].id)
  {
    if n: nat :| n <= |s.remote| && Up(s.remote, IdAt(s, q), n) == Some(s.mapping[p].id) {
      ChainStands(s, keep, q, n);
    }
  }

  // Removing anything else leaves the standing items where they are.
  lemma RemovalKeepsStanding(s: State, keep: set<Path>, p: Path, refused: bool)
    requires Standing(s, keep) && p in s.mapping && p !in keep
    ensures Standing(Removed(s, p, refused), keep)
  {
    var s' := Removed(s, p, refused);
    StandingIsKept(s, keep, p, []);
    forall q | q in keep ensures Placed(s', q) {
      StandingIsKept(s, keep, p, q);
      assert Placed(s, q);
    }
  }
}
