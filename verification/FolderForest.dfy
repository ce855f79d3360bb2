/** The folder tables: ownership, nesting, and the handlers that reshape them. */
module FolderForest {
  import opened Options

  datatype Folder = Folder(name: string, owner: string, parent: Option<string>, deleted: bool)

  type Table = map<string, Folder>

  const MAX_DEPTH: nat := 64

  // ---- forests ----

  // Parents exist, and a child belongs to its parent's owner.
  ghost predicate Owned(t: Table) {
    forall x :: x in t && t[x].parent.Some? ==> t[x].parent.value in t && t[t[x].parent.value].owner == t[x].owner
  }

  // A numbering in which every parent comes before its children: there are no cycles.
  ghost predicate Ranks(t: Table, rank: map<string, nat>) {
    && t.Keys <= rank.Keys
    && forall x :: x in t && t[x].parent.Some? ==> t[x].parent.value in rank && rank[t[x].parent.value] < rank[x]
  }

  ghost predicate Forest(t: Table) {
    Owned(t) && exists rank :: Ranks(t, rank)
  }

  // The n-th ancestor; the folder itself is the 0th.
  function Ancestor(t: Table, x: string, n: nat): (r: Option<string>)
    ensures r.Some? ==> r.value in t
    decreases n
  {
    if x !in t then None
    else if n == 0 then Some(x)
    else if t[x].parent.None? then None
    else Ancestor(t, t[x].parent.value, n - 1)
  }

  ghost predicate Within(t: Table, x: string, root: string) {
    exists n: nat :: Ancestor(t, x, n) == Some(root)
  }

  ghost function Subtree(t: Table, root: string): set<string> {
    set x | x in t && Within(t, x, root)
  }

  lemma WithinUnfolds(t: Table, x: string, root: string)
    ensures Within(t, x, root) <==>
              x in t && (x == root || (t[x].parent.Some? && Within(t, t[x].parent.value, root)))
  {
    if Within(t, x, root) {
      var n: nat :| Ancestor(t, x, n) == Some(root);
      if n > 0 { assert Ancestor(t, t[x].parent.value, n - 1) == Some(root); }
    }
    if x in t && x == root {
      assert Ancestor(t, x, 0) == Some(root);
    }
    if x in t && t[x].parent.Some? && Within(t, t[x].parent.value, root) {
      var n: nat :| Ancestor(t, t[x].parent.value, n) == Some(root);
      assert Ancestor(t, x, n + 1) == Some(root);
    }
  }

  lemma {:induction false} AncestorRank(t: Table, rank: map<string, nat>, x: string, n: nat)
    requires Ranks(t, rank) && Ancestor(t, x, n).Some?
    ensures rank[Ancestor(t, x, n).value] + n <= rank[x]
    decreases n
  {
    if n > 0 {
      AncestorRank(t, rank, t[x].parent.value, n - 1);
    }
  }

  lemma {:induction false} AncestorOwner(t: Table, x: string, n: nat)
    requires Owned(t) && Ancestor(t, x, n).Some?
    ensures t[Ancestor(t, x, n).value].owner == t[x].owner
    decreases n
  {
    if n > 0 {
      AncestorOwner(t, t[x].parent.value, n - 1);
    }
  }

  // Every walk towards the root ends.
  lemma AncestorWalkEnds(t: Table, x: string)
    requires Forest(t)
    ensures exists n: nat :: Ancestor(t, x, n) == None
  {
    var rank :| Ranks(t, rank);
    if x in t {
      var n := rank[x] + 1;
      if Ancestor(t, x, n).Some? { AncestorRank(t, rank, x, n); }
      assert Ancestor(t, x, n) == None;
    } else {
      assert Ancestor(t, x, 0) == None;
    }
  }

  // A subtree has one owner.
  lemma SubtreeOwner(t: Table, root: string, x: string)
    requires Owned(t) && x in Subtree(t, root)
    ensures root in t && t[x].owner == t[root].owner
  {
    var n: nat :| Ancestor(t, x, n) == Some(root);
    AncestorOwner(t, x, n);
  }

  lemma {:induction false} AncestorAdds(t: Table, x: string, m: nat, n: nat)
    requires Ancestor(t, x, m).Some?
    ensures Ancestor(t, x, m + n) == Ancestor(t, Ancestor(t, x, m).value, n)
    decreases m
  {
    if m > 0 {
      AncestorAdds(t, t[x].parent.value, m - 1, n);
    }
  }

  lemma NotDeeper(t: Table, rank: map<string, nat>, x: string, root: string, m: nat, n: nat)
    requires Ranks(t, rank) && Ancestor(t, x, m) == Some(root) && Ancestor(t, x, n) == Some(root) && m <= n
    ensures m == n
  {
    AncestorAdds(t, x, m, n - m);
    AncestorRank(t, rank, root, n - m);
  }

  // A folder lies at one depth below the root only.
  lemma DepthIsUnique(t: Table, rank: map<string, nat>, x: string, root: string, m: nat, n: nat)
    requires Ranks(t, rank) && Ancestor(t, x, m) == Some(root) && Ancestor(t, x, n) == Some(root)
    ensures m == n
  {
    if m <= n {
      NotDeeper(t, rank, x, root, m, n);
    } else {
      NotDeeper(t, rank, x, root, n, m);
    }
  }

  // ---- walks ----

  ghost function AtDepth(t: Table, root: string, d: nat): set<string> {
    set x | x in t && Ancestor(t, x, d) == Some(root)
  }

  ghost function UpTo(t: Table, root: string, d: nat): set<string> {
    set x, n: nat | x in t && n <= d && Ancestor(t, x, n) == Some(root) :: x
  }

  function ParentIn(t: Table, x: string): Option<string> {
    if x in t && t[x].parent.Some? && t[x].parent.value in t then t[x].parent else None
  }

  lemma {:induction false} AncestorLast(t: Table, x: string, n: nat)
    ensures Ancestor(t, x, n + 1) == if Ancestor(t, x, n).Some? then ParentIn(t, Ancestor(t, x, n).value) else None
    decreases n
  {
    if x in t && n > 0 && t[x].parent.Some? {
      AncestorLast(t, t[x].parent.value, n - 1);
    }
  }

  // One level of the recursive query: the children of the folders found last, of the same owner.
  function ChildrenOf(t: Table, level: set<string>, owner: string): set<string> {
    set x | x in t && t[x].owner == owner && t[x].parent.Some? && t[x].parent.value in level
  }

  lemma NextLevel(t: Table, root: string, d: nat)
    requires Owned(t) && root in t
    ensures ChildrenOf(t, AtDepth(t, root, d), t[root].owner) == AtDepth(t, root, d + 1)
  {
    forall x ensures x in ChildrenOf(t, AtDepth(t, root, d), t[root].owner) <==> x in AtDepth(t, root, d + 1) {
      if x in AtDepth(t, root, d + 1) {
        AncestorOwner(t, x, d + 1);
      }
      if x in ChildrenOf(t, AtDepth(t, root, d), t[root].owner) {
        assert Ancestor(t, x, d + 1) == Ancestor(t, t[x].parent.value, d);
      }
    }
  }

  lemma UpToNext(t: Table, root: string, d: nat)
    ensures UpTo(t, root, d + 1) == UpTo(t, root, d) + AtDepth(t, root, d + 1)
  {
  }

  // collectFolderTree: the owner-restricted recursive walk down from a folder. In a forest it ends
  // and finds the whole subtree.
  method CollectFolderTree(t: Table, owner: string, root: string) returns (ids: set<string>)
    requires Forest(t)
    ensures ids == if root in t && t[root].owner == owner then Subtree(t, root) else {}
  {
    if root !in t || t[root].owner != owner {
      return {};
    }
    ghost var rank :| Ranks(t, rank);
    ghost var d := 0;
    ids := {root};
    var level := {root};
    Start(t, root);
    while level != {}
      invariant level == AtDepth(t, root, d) && ids == UpTo(t, root, d)
      decreases t.Keys - ids, level
    {
      NextLevel(t, root, d);
      UpToNext(t, root, d);
      LevelsAreDisjoint(t, rank, root, d);
      level := ChildrenOf(t, level, owner);
      ids := ids + level;
      d := d + 1;
    }
    NoDeeper(t, root, d);
  }

  lemma Start(t: Table, root: string)
    requires root in t
    ensures AtDepth(t, root, 0) == {root} && UpTo(t, root, 0) == {root}
  {
    assert Ancestor(t, root, 0) == Some(root);
  }

  lemma LevelsAreDisjoint(t: Table, rank: map<string, nat>, root: string, d: nat)
    requires Ranks(t, rank)
    ensures UpTo(t, root, d) !! AtDepth(t, root, d + 1)
  {
    forall x | x in UpTo(t, root, d) ensures x !in AtDepth(t, root, d + 1) {
      var n: nat :| n <= d && Ancestor(t, x, n) == Some(root);
      if Ancestor(t, x, d + 1) == Some(root) {
        DepthIsUnique(t, rank, x, root, n, d + 1);
      }
    }
  }

  // When one level is empty, so are the deeper ones.
  lemma NoDeeper(t: Table, root: string, d: nat)
    requires AtDepth(t, root, d) == {}
    ensures UpTo(t, root, d) == Subtree(t, root)
  {
    forall x | x in Subtree(t, root) ensures x in UpTo(t, root, d) {
      var n: nat :| Ancestor(t, x, n) == Some(root);
      if n > d { PassesEveryLevel(t, x, root, d, n); }
    }
  }

  lemma PassesEveryLevel(t: Table, x: string, root: string, d: nat, n: nat)
    requires Ancestor(t, x, n) == Some(root) && d <= n
    ensures AtDepth(t, root, d) != {}
  {
    ShorterWalk(t, x, n - d, d);
    AncestorAdds(t, x, n - d, d);
    assert Ancestor(t, x, n - d).value in AtDepth(t, root, d);
  }

  lemma {:induction false} ShorterWalk(t: Table, x: string, m: nat, n: nat)
    requires Ancestor(t, x, m + n).Some?
    ensures Ancestor(t, x, m).Some?
    decreases m
  {
    if m > 0 {
      ShorterWalk(t, t[x].parent.value, m - 1, n);
    }
  }

  // How many folders the walk from x to its root meets.
  ghost function Depth(t: Table, rank: map<string, nat>, x: string): nat
    requires Ranks(t, rank)
    decreases if x in rank then rank[x] + 1 else 0
  {
    if x !in t then 0 else 1 + if t[x].parent.Some? then Depth(t, rank, t[x].parent.value) else 0
  }

  lemma {:induction false} DepthIsIntrinsic(t: Table, r1: map<string, nat>, r2: map<string, nat>, x: string)
    requires Ranks(t, r1) && Ranks(t, r2)
    ensures Depth(t, r1, x) == Depth(t, r2, x)
    decreases if x in r1 then r1[x] + 1 else 0
  {
    if x in t && t[x].parent.Some? {
      DepthIsIntrinsic(t, r1, r2, t[x].parent.value);
    }
  }

  ghost function Nesting(t: Table, x: string): nat
    requires Forest(t)
  {
    var rank :| Ranks(t, rank);
    Depth(t, rank, x)
  }

  // folderDepth: the recursive query walks up at most 256 folders.
  method FolderDepth(t: Table, x: string) returns (depth: nat)
    requires Forest(t)
    ensures depth == if Nesting(t, x) < 256 then Nesting(t, x) else 256
  {
    ghost var rank :| Ranks(t, rank);
    depth := 0;
    var cur := Some(x);
    while cur.Some? && cur.value in t && depth < 256
      invariant depth <= 256
      invariant depth + (if cur.Some? then Depth(t, rank, cur.value) else 0) == Depth(t, rank, x)
      decreases 256 - depth
    {
      cur := t[cur.value].parent;
      depth := depth + 1;
    }
    forall r | Ranks(t, r) ensures Depth(t, r, x) == Depth(t, rank, x) {
      DepthIsIntrinsic(t, r, rank, x);
    }
  }

  // ---- the table after each change ----

  function Created(t: Table, id: string, name: string, owner: string, parent: Option<string>): Table {
    t[id := Folder(name, owner, parent, false)]
  }

  // The subtree of id hangs under dest and belongs to its owner.
  function Regrafted(t: Table, ids: set<string>, id: string, dest: Option<string>, owner: string): Table {
    map x | x in t ::
      Folder(t[x].name, if x in ids then owner else t[x].owner, if x == id then dest else t[x].parent, t[x].deleted)
  }

  function Flagged(t: Table, ids: set<string>, deleted: bool): Table {
    map x | x in t :: if x in ids then t[x].(deleted := deleted) else t[x]
  }

  // DELETE with the parent foreign key's ON DELETE SET NULL.
  function DeleteRows(t: Table, ids: set<string>): Table {
    map x | x in t && x !in ids ::
      if t[x].parent.Some? && t[x].parent.value in ids then t[x].(parent := None) else t[x]
  }

  lemma CreateKeepsForest(t: Table, id: string, name: string, owner: string, parent: Option<string>)
    requires Forest(t) && id !in t
    requires parent.Some? ==> parent.value in t && t[parent.value].owner == owner
    ensures Forest(Created(t, id, name, owner, parent))
  {
    var rank :| Ranks(t, rank);
    assert Ranks(Created(t, id, name, owner, parent), rank[id := if parent.Some? then rank[parent.value] + 1 else 0]);
  }

  lemma {:induction false} RegraftKeepsOwned(t: Table, id: string, dest: Option<string>, owner: string)
    requires Owned(t) && id in t
    requires dest.Some? ==> dest.value in t && dest.value !in Subtree(t, id) && t[dest.value].owner == owner
    ensures Owned(Regrafted(t, Subtree(t, id), id, dest, owner))
  {
    var ids := Subtree(t, id);
    WithinUnfolds(t, id, id);
    forall x | x in t && t[x].parent.Some? && x != id ensures x in ids <==> t[x].parent.value in ids {
      WithinUnfolds(t, x, id);
    }
  }

  // Rank the moved subtree above its new parent.
  ghost function Lifted(t: Table, rank: map<string, nat>, ids: set<string>, lift: nat): map<string, nat> {
    map x | x in rank :: if x in ids then rank[x] + lift else rank[x]
  }

  lemma RegraftKeepsRanks(t: Table, rank: map<string, nat>, id: string, dest: Option<string>, owner: string)
    requires Owned(t) && Ranks(t, rank) && id in t
    requires dest.Some? ==> dest.value in t && dest.value !in Subtree(t, id)
    ensures var ids := Subtree(t, id);
            Ranks(Regrafted(t, ids, id, dest, owner),
              Lifted(t, rank, ids, if dest.Some? then rank[dest.value] + 1 else 0))
  {
    var ids := Subtree(t, id);
    WithinUnfolds(t, id, id);
    forall x | x in t && t[x].parent.Some? && x != id ensures x in ids <==> t[x].parent.value in ids {
      WithinUnfolds(t, x, id);
    }
  }

  // Moving a folder anywhere outside its own subtree, to the same or another owner, keeps the forest.
  lemma MoveKeepsForest(t: Table, id: string, dest: Option<string>, owner: string)
    requires Forest(t) && id in t
    requires dest.Some? ==> dest.value in t && dest.value !in Subtree(t, id) && t[dest.value].owner == owner
    ensures Forest(Regrafted(t, Subtree(t, id), id, dest, owner))
  {
    var rank :| Ranks(t, rank);
    RegraftKeepsOwned(t, id, dest, owner);
    RegraftKeepsRanks(t, rank, id, dest, owner);
  }

  lemma FlagKeepsForest(t: Table, ids: set<string>, deleted: bool)
    requires Forest(t)
    ensures Forest(Flagged(t, ids, deleted))
  {
    var rank :| Ranks(t, rank);
    assert Ranks(Flagged(t, ids, deleted), rank);
  }

  lemma DeleteKeepsForest(t: Table, ids: set<string>)
    requires Forest(t)
    ensures Forest(DeleteRows(t, ids))
  {
    var rank :| Ranks(t, rank);
    assert Ranks(DeleteRows(t, ids), rank);
  }

  // Purging a whole subtree orphans nobody: no other row changes.
  lemma PurgeOrphansNobody(t: Table, id: string)
    ensures DeleteRows(t, Subtree(t, id)) == map x | x in t && x !in Subtree(t, id) :: t[x]
  {
    forall x | x in t && t[x].parent.Some? && t[x].parent.value in Subtree(t, id) ensures x in Subtree(t, id) {
      WithinUnfolds(t, x, id);
    }
  }

  // Deleting all folders of a user leaves every other row as it is.
  lemma DeleteUserOrphansNobody(t: Table, user: string)
    requires Owned(t)
    ensures DeleteRows(t, FoldersOf(t, user)) == map x | x in t && t[x].owner != user :: t[x]
  {
  }

  // ---- requests ----

  // What canAccessFolder answers: the owner, if the folder is live and the caller owns it or holds an
  // editor grant on it or above it.
  function Access(t: Table, user: string, id: string, grants: set<string>): Option<string> {
    if id in t && !t[id].deleted && (t[id].owner == user || id in grants) then Some(t[id].owner) else None
  }

  // A live folder that the caller owns or holds a grant on.
  predicate OpenTo(t: Table, user: string, id: string, grants: set<string>) {
    id in t && !t[id].deleted && (t[id].owner == user || id in grants)
  }

  lemma AccessIsOpen(t: Table, user: string, id: string, grants: set<string>)
    ensures Access(t, user, id, grants) == if OpenTo(t, user, id, grants) then Some(t[id].owner) else None
  {
  }

  datatype Request =
    | Create(user: string, id: string, name: string, parent: Option<string>, grants: set<string>)
    | Move(user: string, id: string, dest: Option<string>, grants: set<string>, quotaOk: bool)
    | Trash(user: string, id: string, grants: set<string>)
    | Restore(user: string, id: string, quotaOk: bool)
    | Purge(user: string, id: string)
    | DeleteUser(user: string)

  datatype Status = Done | NotFound | InvalidParent | TooDeep | IntoItself | IntoDescendant | QuotaExceeded | EmptyName

  ghost predicate CreateAllowed(t: Table, r: Request)
    requires Forest(t) && r.Create?
  {
    r.name != ""
      && (r.parent.None?
      || (Access(t, r.user, r.parent.value, r.grants).Some? && Nesting(t, r.parent.value) < MAX_DEPTH))
  }

  function DestOwner(t: Table, r: Request): string
    requires r.Move?
  {
    if r.dest.Some? && r.dest.value in t then t[r.dest.value].owner else r.user
  }

  ghost predicate MoveAllowed(t: Table, r: Request)
    requires Forest(t) && r.Move?
  {
    && Access(t, r.user, r.id, r.grants).Some? && r.dest != Some(r.id)
    && (r.dest.Some? ==>
          && Access(t, r.user, r.dest.value, r.grants).Some? && Nesting(t, r.dest.value) < MAX_DEPTH
          && r.dest.value !in Subtree(t, r.id))
    && (DestOwner(t, r) != t[r.id].owner ==> r.quotaOk)
  }

  // The answers of the handlers, check by check.
  ghost function CreateAnswer(t: Table, user: string, name: string, parent: Option<string>, grants: set<string>): Status
    requires Forest(t)
  {
    if name == "" then EmptyName
    else if parent.None? then Done
    else if !OpenTo(t, user, parent.value, grants) then InvalidParent
    else if Nesting(t, parent.value) >= 64 then TooDeep
    else Done
  }

  ghost function MoveAnswer(t: Table, user: string, id: string, dest: Option<string>, grants: set<string>,
                            quotaOk: bool): Status
    requires Forest(t)
  {
    if !OpenTo(t, user, id, grants) then NotFound
    else if dest == Some(id) then IntoItself
    else if dest.Some? && !OpenTo(t, user, dest.value, grants) then InvalidParent
    else if dest.Some? && Nesting(t, dest.value) >= 64 then TooDeep
    else if dest.Some? && dest.value in Subtree(t, id) then IntoDescendant
    else if (if dest.Some? then t[dest.value].owner else user) != t[id].owner && !quotaOk then QuotaExceeded
    else Done
  }

  // What a move does, row by row: only the moved folder has a new parent, exactly its old subtree belongs to
  // the new owner, and it is its subtree still.
  ghost predicate MovedRows(t: Table, t': Table, id: string, dest: Option<string>, owner: string) {
    && t'.Keys == t.Keys
    && (forall x :: x in t ==>
          && t'[x].name == t[x].name && t'[x].deleted == t[x].deleted
          && t'[x].parent == (if x == id then dest else t[x].parent)
          && t'[x].owner == if x in Subtree(t, id) then owner else t[x].owner)
    && Subtree(t', id) == Subtree(t, id)
  }

  ghost predicate MarkedRows(t: Table, t': Table, id: string, deleted: bool) {
    && t'.Keys == t.Keys
    && forall x :: x in t ==>
         && t'[x].name == t[x].name && t'[x].owner == t[x].owner && t'[x].parent == t[x].parent
         && t'[x].deleted == if x in Subtree(t, id) then deleted else t[x].deleted
  }

  // A folder of the caller that is marked as deleted.
  predicate Discarded(t: Table, user: string, id: string) {
    id in t && t[id].deleted && t[id].owner == user
  }

  lemma {:induction false} StillBelow(t: Table, t': Table, id: string, x: string, n: nat)
    requires t'.Keys == t.Keys && forall y :: y in t && y != id ==> t'[y].parent == t[y].parent
    requires Ancestor(t, x, n) == Some(id)
    ensures Within(t', x, id)
    decreases n
  {
    if x != id { StillBelow(t, t', id, t[x].parent.value, n - 1); }
    WithinUnfolds(t', x, id);
  }

  // Below the moved folder everything stays where it is.
  lemma SubtreeMovesAlong(t: Table, t': Table, id: string)
    requires t'.Keys == t.Keys && forall y :: y in t && y != id ==> t'[y].parent == t[y].parent
    ensures Subtree(t', id) == Subtree(t, id)
  {
    forall x | x in Subtree(t, id) ensures x in Subtree(t', id) {
      var n: nat :| Ancestor(t, x, n) == Some(id);
      StillBelow(t, t', id, x, n);
    }
    forall x | x in Subtree(t', id) ensures x in Subtree(t, id) {
      var n: nat :| Ancestor(t', x, n) == Some(id);
      StillBelow(t', t, id, x, n);
    }
  }

  lemma RegraftMovesRows(t: Table, id: string, dest: Option<string>, owner: string)
    ensures MovedRows(t, Regrafted(t, Subtree(t, id), id, dest, owner), id, dest, owner)
  {
    SubtreeMovesAlong(t, Regrafted(t, Subtree(t, id), id, dest, owner), id);
  }

  predicate InTrash(t: Table, user: string, id: string) {
    id in t && t[id].owner == user && t[id].deleted
  }

  function FoldersOf(t: Table, user: string): set<string> {
    set x | x in t && t[x].owner == user
  }

  ghost function Apply(t: Table, r: Request): Table
    requires Forest(t)
  {
    match r
    case Create(user, id, name, parent, grants) =>
      if CreateAllowed(t, r) then Created(t, id, name, if parent.Some? then t[parent.value].owner else user, parent)
        else t
    case Move(user, id, dest, grants, quotaOk) =>
      if MoveAllowed(t, r) then Regrafted(t, Subtree(t, id), id, dest, DestOwner(t, r)) else t
    case Trash(user, id, grants) =>
      if Access(t, user, id, grants).Some? then Flagged(t, Subtree(t, id), true) else t
    case Restore(user, id, quotaOk) =>
      if InTrash(t, user, id) && quotaOk then Flagged(t, Subtree(t, id), false) else t
    case Purge(user, id) =>
      if InTrash(t, user, id) then DeleteRows(t, Subtree(t, id)) else t
    case DeleteUser(user) => DeleteRows(t, FoldersOf(t, user))
  }

  // Folder ids are fresh random identifiers.
  ghost predicate Fresh(t: Table, r: Request) {
    r.Create? ==> r.id !in t
  }

  lemma ApplyKeepsForest(t: Table, r: Request)
    requires Forest(t) && Fresh(t, r)
    ensures Forest(Apply(t, r))
  {
    match r
    case Create(user, id, name, parent, grants) =>
      if CreateAllowed(t, r) {
        CreateKeepsForest(t, id, name, if parent.Some? then t[parent.value].owner else user, parent);
      }
    case Move(user, id, dest, grants, quotaOk) =>
      if MoveAllowed(t, r) { MoveKeepsForest(t, id, dest, DestOwner(t, r)); }
    case Trash(user, id, grants) => FlagKeepsForest(t, Subtree(t, id), true);
    case Restore(user, id, quotaOk) => FlagKeepsForest(t, Subtree(t, id), false);
    case Purge(user, id) => DeleteKeepsForest(t, Subtree(t, id));
    case DeleteUser(user) => DeleteKeepsForest(t, FoldersOf(t, user));
  }

  // The checks of a move, before any quota is asked for.
  method CheckMove(t: Table, user: string, id: string, dest: Option<string>, grants: set<string>) returns (s: Status)
    requires Forest(t)
    ensures s.Done? <==> MoveAllowed(t, Move(user, id, dest, grants, true))
    ensures s == MoveAnswer(t, user, id, dest, grants, true)
  {
    var access := Access(t, user, id, grants);
    if access.None? { return NotFound; }
    if dest == Some(id) { return IntoItself; }
    if dest.Some? {
      var destAccess := Access(t, user, dest.value, grants);
      if destAccess.None? { return InvalidParent; }
      var depth := FolderDepth(t, dest.value);
      if depth >= MAX_DEPTH { return TooDeep; }
      var tree := CollectFolderTree(t, access.value, id);
      if dest.value in tree { return IntoDescendant; }
    }
    s := Done;
  }

  // ---- the handlers ----

  class FolderStore {
    var folders: Table

    constructor ()
      ensures folders == map[]
    {
      folders := map[];
    }

    ghost predicate Valid()
      reads this
    {
      Forest(folders)
    }

    method CreateFolder(user: string, id: string, name: string, parent: Option<string>, grants: set<string>)
      returns (s: Status)
      requires Valid() && id !in folders
      modifies this
      ensures Valid() && folders == Apply(old(folders), Create(user, id, name, parent, grants))
      ensures s.Done? <==> CreateAllowed(old(folders), Create(user, id, name, parent, grants))
      ensures s == CreateAnswer(old(folders), user, name, parent, grants)
      ensures s.Done? ==>
                var owner := if parent.Some? then old(folders)[parent.value].owner else user;
                folders == old(folders)[id := Folder(name, owner, parent, false)]
    {
      ApplyKeepsForest(folders, Create(user, id, name, parent, grants));
      if name == "" { return EmptyName; }
      var owner := user;
      if parent.Some? {
        var access := Access(folders, user, parent.value, grants);
        if access.None? { return InvalidParent; }
        owner := access.value;
        var depth := FolderDepth(folders, parent.value);
        if depth >= MAX_DEPTH { return TooDeep; }
      }
      folders := folders[id := Folder(name, owner, parent, false)];
      s := Done;
    }

    method MoveFolder(user: string, id: string, dest: Option<string>, grants: set<string>, quotaOk: bool)
      returns (s: Status)
      requires Valid()
      modifies this
      ensures Valid() && folders == Apply(old(folders), Move(user, id, dest, grants, quotaOk))
      ensures s.Done? <==> MoveAllowed(old(folders), Move(user, id, dest, grants, quotaOk))
      ensures s == MoveAnswer(old(folders), user, id, dest, grants, quotaOk)
      ensures s.Done? ==>
                MovedRows(old(folders), folders, id, dest,
                  if dest.Some? then old(folders)[dest.value].owner else user)
    {
      ApplyKeepsForest(folders, Move(user, id, dest, grants, quotaOk));
      s := CheckMove(folders, user, id, dest, grants);
      if !s.Done? { return; }
      RegraftMovesRows(folders, id, dest, DestOwner(folders, Move(user, id, dest, grants, quotaOk)));
      var owner, destOwner := folders[id].owner, DestOwner(folders, Move(user, id, dest, grants, quotaOk));
      if destOwner == owner {
        SameOwnerMove(folders, id, dest);
        folders := folders[id := folders[id].(parent := dest)];
      } else {
        var ids := CollectFolderTree(folders, owner, id);
        if !quotaOk { return QuotaExceeded; }
        folders := Regrafted(folders, ids, id, dest, destOwner);
      }
    }

    method DeleteFolder(user: string, id: string, grants: set<string>) returns (s: Status)
      requires Valid()
      modifies this
      ensures Valid() && folders == Apply(old(folders), Trash(user, id, grants))
      ensures s == if OpenTo(old(folders), user, id, grants) then Done else NotFound
      ensures s.Done? ==> MarkedRows(old(folders), folders, id, true)
    {
      ApplyKeepsForest(folders, Trash(user, id, grants));
      var access := Access(folders, user, id, grants);
      if access.None? { return NotFound; }
      var ids := CollectFolderTree(folders, access.value, id);
      folders := Flagged(folders, ids, true);
      s := Done;
    }

    method RestoreFolder(user: string, id: string, quotaOk: bool) returns (s: Status)
      requires Valid()
      modifies this
      ensures Valid() && folders == Apply(old(folders), Restore(user, id, quotaOk))
      ensures s == if !Discarded(old(folders), user, id) then NotFound else if quotaOk then Done else QuotaExceeded
      ensures folders == if s.Done? then Flagged(old(folders), Subtree(old(folders), id), false) else old(folders)
      ensures s.Done? ==> MarkedRows(old(folders), folders, id, false)
    {
      ApplyKeepsForest(folders, Restore(user, id, quotaOk));
      if !InTrash(folders, user, id) { return NotFound; }
      var ids := CollectFolderTree(folders, user, id);
      if !quotaOk { return QuotaExceeded; }
      folders := Flagged(folders, ids, false);
      s := Done;
    }

    method PurgeFolder(user: string, id: string) returns (s: Status)
      requires Valid()
      modifies this
      ensures Valid() && folders == Apply(old(folders), Purge(user, id))
      ensures s == if Discarded(old(folders), user, id) then Done else NotFound
    {
      ApplyKeepsForest(folders, Purge(user, id));
      if !InTrash(folders, user, id) { return NotFound; }
      var ids := CollectFolderTree(folders, user, id);
      folders := DeleteRows(folders, ids);
      s := Done;
    }

    method DeleteUserFolders(user: string)
      requires Valid()
      modifies this
      ensures Valid() && folders == Apply(old(folders), DeleteUser(user))
      ensures folders == DeleteRows(old(folders), FoldersOf(old(folders), user))
      ensures folders == map x | x in old(folders) && old(folders)[x].owner != user :: old(folders)[x]
    {
      DeleteUserOrphansNobody(folders, user);
      ApplyKeepsForest(folders, DeleteUser(user));
      folders := DeleteRows(folders, FoldersOf(folders, user));
    }
  }

  lemma SameOwnerMove(t: Table, id: string, dest: Option<string>)
    requires Owned(t) && id in t
    ensures Regrafted(t, Subtree(t, id), id, dest, t[id].owner) == t[id := t[id].(parent := dest)]
  {
    forall x | x in Subtree(t, id) ensures t[x].owner == t[id].owner {
      SubtreeOwner(t, id, x);
    }
  }
}
