/** Recursive folder copy: the breadth-first rebuild of a subtree under another folder. */
module FolderCopy {
  import opened FolderForest
  import opened Lists
  import opened Options
  import opened Rows

  // The rows a copy looks at: trashed folders are invisible to it.
  function LiveRows(t: Table): Table {
    map x | x in t && !t[x].deleted :: t[x]
  }

  // The live folders linked to src through live folders.
  ghost function LiveTree(t: Table, src: string): set<string> {
    Subtree(LiveRows(t), src)
  }

  // ---- children lists ----

  predicate IsChild(nodes: Table, src: string, x: string, p: string) {
    x in nodes && x != src && nodes[x].parent == Some(p)
  }

  type Children = map<string, seq<string>>

  function Listed(c: Children, p: string): seq<string> {
    if p in c then c[p] else []
  }

  ghost predicate ListsChildren(c: Children, nodes: Table, src: string, seen: set<string>) {
    forall p :: Distinct(Listed(c, p)) && forall x :: x in Listed(c, p) <==> x in seen && IsChild(nodes, src, x, p)
  }

  lemma ListOneMore(c: Children, nodes: Table, src: string, seen: set<string>, x: string)
    requires ListsChildren(c, nodes, src, seen) && x in nodes && x !in seen
    ensures ListsChildren(if x != src && nodes[x].parent.Some?
                          then c[nodes[x].parent.value := Listed(c, nodes[x].parent.value) + [x]] else c, nodes, src,
                            seen + {x})
  {
    if x != src && nodes[x].parent.Some? {
      var p := nodes[x].parent.value;
      var c' := c[p := Listed(c, p) + [x]];
      forall q
        ensures Distinct(Listed(c', q)) && forall y :: y in Listed(c', q) <==>
                y in seen + {x} && IsChild(nodes, src, y, q)
      {
        assert forall y :: y in Listed(c, q) <==> y in seen && IsChild(nodes, src, y, q);
        if q != p { assert Listed(c', q) == Listed(c, q); }
      }
    } else {
      forall q, y ensures y in Listed(c, q) <==> y in seen + {x} && IsChild(nodes, src, y, q) {
        assert y in Listed(c, q) <==> y in seen && IsChild(nodes, src, y, q);
      }
    }
  }

  // The map is iterated in no particular order.
  method BuildChildren(nodes: Table, src: string) returns (c: Children)
    ensures ListsChildren(c, nodes, src, nodes.Keys)
  {
    c := map[];
    var todo := nodes.Keys;
    ghost var seen: set<string> := {};
    while todo != {}
      invariant seen + todo == nodes.Keys && seen !! todo
      invariant ListsChildren(c, nodes, src, seen)
      decreases todo
    {
      var x :| x in todo;
      ListOneMore(c, nodes, src, seen, x);
      if x != src && nodes[x].parent.Some? {
        var p := nodes[x].parent.value;
        c := c[p := Listed(c, p) + [x]];
      }
      todo := todo - {x};
      seen := seen + {x};
    }
  }

  // ---- breadth first ----

  // What the queue loop has inserted and what it still has to.
  ghost predicate Walk(nodes: Table, src: string, done: seq<string>, queue: seq<string>) {
    && Distinct(done + queue) && src in done + queue
    && (forall x :: x in done + queue ==> x in nodes)
    && (forall x :: x in done + queue && x != src ==> nodes[x].parent.Some? && nodes[x].parent.value in done)
    && (forall x, p :: p in done && IsChild(nodes, src, x, p) ==> x in done + queue)
  }

  // Every folder after the root has its parent before it.
  ghost predicate ParentsFirst(nodes: Table, src: string, order: seq<string>) {
    forall i :: 0 <= i < |order| && order[i] != src ==>
      order[i] in nodes && nodes[order[i]].parent.Some? && nodes[order[i]].parent.value in order[..i]
  }

  lemma WalkStep(nodes: Table, src: string, done: seq<string>, queue: seq<string>, kids: seq<string>)
    requires Walk(nodes, src, done, queue) && queue != []
    requires Distinct(kids) && forall x :: x in kids <==> IsChild(nodes, src, x, queue[0])
    ensures Walk(nodes, src, done + [queue[0]], queue[1..] + kids)
  {
    var h := queue[0];
    var all, all' := done + queue, (done + [h]) + (queue[1..] + kids);
    assert queue == [h] + queue[1..];
    assert all' == all + kids;
    assert all[|done|] == h && forall i :: 0 <= i < |done| ==> all[i] == done[i];
    assert h !in done;
    assert forall x :: x in all' <==> x in all || x in kids;
    forall i, j | 0 <= i < j < |all'| ensures all'[i] != all'[j] {
      if j >= |all| {
        assert all'[j] in kids;
        if i < |all| { assert all'[i] in all; }
      }
    }
    forall x, p | p in done + [h] && IsChild(nodes, src, x, p) ensures x in all' {
      if p == h { assert x in kids; } else { assert p in done; }
    }
  }

  lemma {:induction false} WalkReaches(nodes: Table, src: string, done: seq<string>, x: string, n: nat)
    requires Walk(nodes, src, done, []) && Ancestor(nodes, x, n) == Some(src)
    ensures x in done
    decreases n
  {
    assert done + [] == done;
    if x != src {
      WalkReaches(nodes, src, done, nodes[x].parent.value, n - 1);
      assert IsChild(nodes, src, x, nodes[x].parent.value);
    }
  }

  lemma {:induction false} OrderIsWithin(nodes: Table, src: string, order: seq<string>, i: nat)
    requires ParentsFirst(nodes, src, order) && i < |order| && src in nodes
    ensures Within(nodes, order[i], src)
    decreases i
  {
    var x := order[i];
    WithinUnfolds(nodes, x, src);
    if x != src {
      var p := nodes[x].parent.value;
      var j :| 0 <= j < i && order[j] == p;
      OrderIsWithin(nodes, src, order, j);
    }
  }

  lemma WalkIsSubtree(nodes: Table, src: string, done: seq<string>)
    requires Walk(nodes, src, done, []) && ParentsFirst(nodes, src, done) && src in nodes
    ensures Distinct(done) && Elements(done) == Subtree(nodes, src)
  {
    assert done + [] == done;
    forall x ensures x in done <==> x in Subtree(nodes, src) {
      if x in done {
        var i :| 0 <= i < |done| && done[i] == x;
        OrderIsWithin(nodes, src, done, i);
      }
      if x in Subtree(nodes, src) {
        var n: nat :| Ancestor(nodes, x, n) == Some(src);
        WalkReaches(nodes, src, done, x, n);
      }
    }
  }

  // The row that replaces folder x in the copy.
  function CopiedFolder(nodes: Table, src: string, x: string, newID: map<string, string>, owner: string,
                        dest: Option<string>, rootName: string): Folder
    requires x in nodes
  {
    Folder(if x == src then rootName else nodes[x].name, owner,
           if x == src then dest
           else if nodes[x].parent.Some? && nodes[x].parent.value in newID then Some(newID[nodes[x].parent.value])
             else None,
           false)
  }

  ghost predicate Injective(m: map<string, string>) {
    forall x, y :: x in m && y in m && m[x] == m[y] ==> x == y
  }

  // Everything one copy is about: the live rows it read, the ids it drew, and where it goes.
  datatype Plan = Plan(nodes: Table, src: string, newID: map<string, string>, owner: string, dest: Option<string>,
    rootName: string)

  ghost predicate GoodPlan(t: Table, p: Plan) {
    && p.src in p.nodes && p.newID.Keys == p.nodes.Keys && Injective(p.newID)
    && (forall x :: x in p.newID ==> p.newID[x] !in t)
    && (p.dest.Some? ==> p.dest.value in t)
  }

  function Row(p: Plan, x: string): Folder
    requires x in p.nodes
  {
    CopiedFolder(p.nodes, p.src, x, p.newID, p.owner, p.dest, p.rootName)
  }

  // The table with the copies of the folders in `done` added.
  ghost function WithCopies(t: Table, p: Plan, done: set<string>): Table
    requires GoodPlan(t, p) && done <= p.nodes.Keys
  {
    t + map x | x in done :: p.newID[x] := Row(p, x)
  }

  lemma CopyOneMore(t: Table, p: Plan, done: set<string>, x: string)
    requires GoodPlan(t, p) && done <= p.nodes.Keys && x in p.nodes && x !in done
    ensures WithCopies(t, p, done)[p.newID[x] := Row(p, x)] == WithCopies(t, p, done + {x})
  {
  }

  // The parent foreign key: the row's parent has to be there already.
  predicate ParentExists(t: Table, f: Folder) {
    f.parent.Some? ==> f.parent.value in t
  }

  lemma ParentWasCopied(t: Table, p: Plan, done: seq<string>, queue: seq<string>)
    requires GoodPlan(t, p) && Walk(p.nodes, p.src, done, queue) && queue != []
    ensures queue[0] in p.nodes && queue[0] !in done && Elements(done) <= p.nodes.Keys
    ensures ParentExists(WithCopies(t, p, Elements(done)), Row(p, queue[0]))
  {
    var all := done + queue;
    assert all[|done|] == queue[0];
    forall x | x in done ensures x in p.nodes && x != queue[0] {
      var i :| 0 <= i < |done| && done[i] == x;
      assert all[i] == x;
    }
    assert queue[0] in all;
  }

  // Inserts the folders breadth first, so that the foreign key never fails.
  method CopyFolders(t: Table, p: Plan) returns (t': Table, ghost order: seq<string>)
    requires GoodPlan(t, p)
    ensures Distinct(order) && ParentsFirst(p.nodes, p.src, order)
    ensures Elements(order) == Subtree(p.nodes, p.src) <= p.nodes.Keys
    ensures t' == WithCopies(t, p, Subtree(p.nodes, p.src))
  {
    var childrenOf := BuildChildren(p.nodes, p.src);
    t' := t;
    order := [];
    var queue := [p.src];
    assert order + queue == [p.src];
    while queue != []
      invariant Walk(p.nodes, p.src, order, queue) && ParentsFirst(p.nodes, p.src, order)
      invariant Elements(order) <= p.nodes.Keys && t' == WithCopies(t, p, Elements(order))
      decreases p.nodes.Keys - Elements(order)
    {
      var oldID := queue[0];
      ParentWasCopied(t, p, order, queue);
      assert ParentExists(t', Row(p, oldID));
      CopyOneMore(t, p, Elements(order), oldID);
      t' := t'[p.newID[oldID] := Row(p, oldID)];
      WalkStep(p.nodes, p.src, order, queue, Listed(childrenOf, oldID));
      OrderOneMore(p.nodes, p.src, order, queue);
      order := order + [oldID];
      queue := queue[1..] + Listed(childrenOf, oldID);
    }
    WalkIsSubtree(p.nodes, p.src, order);
  }

  lemma OrderOneMore(nodes: Table, src: string, done: seq<string>, queue: seq<string>)
    requires Walk(nodes, src, done, queue) && queue != [] && ParentsFirst(nodes, src, done)
    ensures ParentsFirst(nodes, src, done + [queue[0]]) && Elements(done + [queue[0]]) == Elements(done) + {queue[0]}
  {
    var x, order := queue[0], done + [queue[0]];
    assert x in done + queue;
    forall i | 0 <= i < |order| && order[i] != src
      ensures order[i] in nodes && nodes[order[i]].parent.Some? && nodes[order[i]].parent.value in order[..i]
    {
      if i < |done| { assert order[..i] == done[..i]; } else { assert order[..i] == done; }
    }
  }

  // ---- the whole copy ----

  // The live rows of the source subtree, as the copy reads them.
  function Nodes(t: Table, ids: set<string>): Table {
    map x | x in t && x in ids && !t[x].deleted :: t[x]
  }

  lemma {:induction false} NodesChain(t: Table, src: string, x: string, n: nat)
    requires Ancestor(LiveRows(t), x, n) == Some(src)
    ensures Within(t, x, src) && Ancestor(Nodes(t, Subtree(t, src)), x, n) == Some(src)
    decreases n
  {
    if n > 0 { NodesChain(t, src, t[x].parent.value, n - 1); }
    WithinUnfolds(t, x, src);
  }

  lemma {:induction false} LiveChain(t: Table, src: string, x: string, n: nat)
    requires Ancestor(Nodes(t, Subtree(t, src)), x, n) == Some(src)
    ensures Ancestor(LiveRows(t), x, n) == Some(src)
    decreases n
  {
    if n > 0 { LiveChain(t, src, t[x].parent.value, n - 1); }
  }

  lemma NodesSubtree(t: Table, src: string)
    ensures Subtree(Nodes(t, Subtree(t, src)), src) == LiveTree(t, src)
  {
    var nodes := Nodes(t, Subtree(t, src));
    forall x ensures x in Subtree(nodes, src) <==> x in LiveTree(t, src) {
      if x in Subtree(nodes, src) {
        var n: nat :| Ancestor(nodes, x, n) == Some(src);
        LiveChain(t, src, x, n);
      }
      if x in LiveTree(t, src) {
        var n: nat :| Ancestor(LiveRows(t), x, n) == Some(src);
        NodesChain(t, src, x, n);
      }
    }
  }

  // copyFolderName: a root that would sit beside a live folder of its name is renamed.
  function CopyFolderName(t: Table, owner: string, parent: Option<string>, name: string): string {
    if FolderNameTaken(t, owner, parent, name) then name + " (copy)" else name
  }

  predicate FolderNameTaken(t: Table, owner: string, parent: Option<string>, name: string) {
    exists x :: x in t && t[x].owner == owner && t[x].name == name && t[x].parent == parent && !t[x].deleted
  }

  function FilesIn(files: Files, ids: set<string>): set<string> {
    set f | f in files && !files[f].deleted && files[f].folder.Some? && files[f].folder.value in ids
  }

  function CopiedFile(f: File, p: Plan): File {
    f.(owner := p.owner,
       folder := Some(if f.folder.Some? && f.folder.value in p.newID then p.newID[f.folder.value] else ""))
  }

  ghost predicate FreshFileIds(files: Files, sources: set<string>, fileIDs: map<string, string>) {
    sources == fileIDs.Keys && Injective(fileIDs) && forall f :: f in fileIDs ==> fileIDs[f] !in files
  }

  ghost function WithFileCopies(files: Files, p: Plan, done: set<string>, fileIDs: map<string, string>): Files
    requires done <= fileIDs.Keys && done <= files.Keys && Injective(fileIDs)
  {
    files + FileCopies(files, p, done, fileIDs)
  }

  ghost function FileCopies(files: Files, p: Plan, done: set<string>, fileIDs: map<string, string>): Files
    requires done <= fileIDs.Keys && done <= files.Keys && Injective(fileIDs)
  {
    map f | f in done :: fileIDs[f] := CopiedFile(files[f], p)
  }

  // Inserts the file rows in the order read; a row whose folder was not inserted breaks the folder
  // foreign key and with it the whole transaction.
  method CopyFiles(t': Table, files: Files, p: Plan, sources: set<string>, fileIDs: map<string, string>)
    returns (r: Option<Files>)
    requires sources <= files.Keys && FreshFileIds(files, sources, fileIDs)
    ensures r.Some? <==> forall f :: f in sources ==> CopiedFile(files[f], p).folder.value in t'
    ensures r.Some? ==> r.value == WithFileCopies(files, p, sources, fileIDs)
  {
    var todo := sources;
    var out := files;
    ghost var done: set<string> := {};
    assert WithFileCopies(files, p, {}, fileIDs) == files;
    while todo != {}
      invariant done + todo == sources && done !! todo
      invariant out == WithFileCopies(files, p, done, fileIDs)
      invariant forall f :: f in done ==> CopiedFile(files[f], p).folder.value in t'
      decreases todo
    {
      var f :| f in todo;
      var row := CopiedFile(files[f], p);
      if row.folder.value !in t' {
        return None;
      }
      FileOneMore(files, p, done, fileIDs, f);
      out := out[fileIDs[f] := row];
      todo := todo - {f};
      done := done + {f};
    }
    r := Some(out);
  }

  lemma FileOneMore(files: Files, p: Plan, done: set<string>, fileIDs: map<string, string>, f: string)
    requires done <= fileIDs.Keys && done <= files.Keys && Injective(fileIDs) && f in fileIDs && f in files
             && f !in done
    ensures WithFileCopies(files, p, done, fileIDs)[fileIDs[f] := CopiedFile(files[f], p)]
            == WithFileCopies(files, p, done + {f}, fileIDs)
  {
    var rows := FileCopies(files, p, done, fileIDs);
    assert FileCopies(files, p, done + {f}, fileIDs) == rows[fileIDs[f] := CopiedFile(files[f], p)];
    assert (files + rows)[fileIDs[f] := CopiedFile(files[f], p)] == files + rows[fileIDs[f] := CopiedFile(files[f], p)];
  }

  // Live files of the subtree all sit in folders the copy reaches.
  ghost predicate FilesLinked(t: Table, files: Files, src: string) {
    forall f :: f in FilesIn(files, Subtree(t, src)) ==> files[f].folder.value in LiveTree(t, src)
  }

  lemma FileFoldersInserted(t: Table, p: Plan, files: Files, sources: set<string>)
    requires GoodPlan(t, p) && "" !in t && "" !in p.newID.Values && p.nodes == Nodes(t, Subtree(t, p.src))
    requires sources == FilesIn(files, Subtree(t, p.src)) && LiveTree(t, p.src) <= p.nodes.Keys
    ensures FilesLinked(t, files, p.src) <==>
              forall f :: f in sources ==> CopiedFile(files[f], p).folder.value in WithCopies(t, p, LiveTree(t, p.src))
  {
    var t' := WithCopies(t, p, LiveTree(t, p.src));
    assert LiveTree(t, p.src) <= p.newID.Keys;
    forall f | f in sources
      ensures CopiedFile(files[f], p).folder.value in t' <==> files[f].folder.value in LiveTree(t, p.src)
    {
      var home := files[f].folder.value;
      if home in p.newID {
        assert p.newID[home] !in t;
        if p.newID[home] in t' {
          var x :| x in LiveTree(t, p.src) && p.newID[x] == p.newID[home];
        }
      } else {
        assert "" !in t' by {
          assert forall x :: x in LiveTree(t, p.src) ==> p.newID[x] in p.newID.Values;
        }
      }
    }
  }

  // The transaction's inserts: folders first, then files.
  method InsertCopies(t: Table, files: Files, p: Plan, sources: set<string>, fileIDs: map<string, string>)
    returns (r: Option<(Table, Files)>)
    requires GoodPlan(t, p) && "" !in t && "" !in p.newID.Values && p.nodes == Nodes(t, Subtree(t, p.src))
    requires sources == FilesIn(files, Subtree(t, p.src)) && FreshFileIds(files, sources, fileIDs)
    ensures r.Some? <==> FilesLinked(t, files, p.src)
    ensures LiveTree(t, p.src) <= p.nodes.Keys
    ensures r.Some? ==> r.value == (WithCopies(t, p, LiveTree(t, p.src)), WithFileCopies(files, p, sources, fileIDs))
  {
    NodesSubtree(t, p.src);
    var t', order := CopyFolders(t, p);
    var copied := CopyFiles(t', files, p, sources, fileIDs);
    FileFoldersInserted(t, p, files, sources);
    r := if copied.Some? then Some((t', copied.value)) else None;
  }

  ghost predicate Copyable(t: Table, files: Files, user: string, src: string, dest: Option<string>,
                           viewGrants: set<string>, editGrants: set<string>, quotaOk: bool)
  {
    Accessible(t, user, src, dest, viewGrants, editGrants) && quotaOk && FilesLinked(t, files, src)
  }

  // The caller may see the source and write at the destination.
  predicate Accessible(t: Table, user: string, src: string, dest: Option<string>, viewGrants: set<string>,
                       editGrants: set<string>)
  {
    Access(t, user, src, viewGrants).Some? && (dest.Some? ==> Access(t, user, dest.value, editGrants).Some?)
  }

  ghost function PlanOf(t: Table, user: string, src: string, dest: Option<string>, newID: map<string, string>): Plan
    requires src in t
  {
    var owner := if dest.Some? && dest.value in t then t[dest.value].owner else user;
    Plan(Nodes(t, Subtree(t, src)), src, newID, owner, dest, CopyFolderName(t, owner, dest, t[src].name))
  }

  // The checks, and what is to be copied under which new ids.
  method PlanCopy(t: Table, user: string, src: string, dest: Option<string>, viewGrants: set<string>,
                  editGrants: set<string>, newID: map<string, string>)
    returns (ids: set<string>, p: Option<Plan>)
    requires Forest(t) && newID.Keys == Nodes(t, Subtree(t, src)).Keys && Injective(newID)
    requires forall x :: x in newID ==> newID[x] !in t
    ensures p.Some? <==> Accessible(t, user, src, dest, viewGrants, editGrants)
    ensures p.Some? ==> ids == Subtree(t, src) && p == Some(PlanOf(t, user, src, dest, newID)) && GoodPlan(t, p.value)
  {
    var access := Access(t, user, src, viewGrants);
    if access.None? { return {}, None; }
    var destOwner := user;
    if dest.Some? {
      var destAccess := Access(t, user, dest.value, editGrants);
      if destAccess.None? { return {}, None; }
      destOwner := destAccess.value;
    }
    ids := CollectFolderTree(t, access.value, src);
    WithinUnfolds(t, src, src);
    p := Some(Plan(Nodes(t, ids), src, newID, destOwner, dest, CopyFolderName(t, destOwner, dest, t[src].name)));
  }

  ghost predicate FreshIds(t: Table, files: Files, src: string, newID: map<string, string>,
                           fileIDs: map<string, string>)
  {
    && "" !in t && "" !in newID.Values && newID.Keys == Nodes(t, Subtree(t, src)).Keys && Injective(newID)
    && (forall x :: x in newID ==> newID[x] !in t) && FreshFileIds(files, FilesIn(files, Subtree(t, src)), fileIDs)
  }

  method CopyTree(t: Table, files: Files, user: string, src: string, dest: Option<string>, viewGrants: set<string>,
                  editGrants: set<string>, quotaOk: bool, newID: map<string, string>, fileIDs: map<string, string>)
    returns (r: Option<(Table, Files)>)
    requires Forest(t) && FreshIds(t, files, src, newID, fileIDs)
    ensures r.Some? <==> Copyable(t, files, user, src, dest, viewGrants, editGrants, quotaOk)
    ensures r.Some? ==>
              var p := PlanOf(t, user, src, dest, newID);
              && GoodPlan(t, p) && LiveTree(t, src) <= p.nodes.Keys
              && r.value
                == (WithCopies(t, p, LiveTree(t, src)),
                WithFileCopies(files, p, FilesIn(files, Subtree(t, src)), fileIDs))
  {
    var ids, planned := PlanCopy(t, user, src, dest, viewGrants, editGrants, newID);
    if planned.None? { return None; }
    var sources := FilesIn(files, ids);
    if !quotaOk { return None; }
    r := InsertCopies(t, files, planned.value, sources, fileIDs); // None: rolled back
  }

  class Drive {
    var folders: Table
    var files: Files

    constructor (folders: Table, files: Files)
      ensures this.folders == folders && this.files == files
    {
      this.folders, this.files := folders, files;
    }

    // Identifiers are drawn at random: newID and fileIDs give the new ids of what is copied.
    method CopyFolderInto(user: string, src: string, dest: Option<string>, viewGrants: set<string>,
                          editGrants: set<string>, quotaOk: bool, newID: map<string, string>,
                          fileIDs: map<string, string>)
      returns (r: Option<string>)
      requires Forest(folders) && FreshIds(folders, files, src, newID, fileIDs)
      modifies this
      ensures r.Some? <==> Copyable(old(folders), old(files), user, src, dest, viewGrants, editGrants, quotaOk)
      ensures r.None? ==> folders == old(folders) && files == old(files)
      ensures r.Some? ==>
                var p := PlanOf(old(folders), user, src, dest, newID);
                && GoodPlan(old(folders), p) && LiveTree(old(folders), src) <= p.nodes.Keys && r == Some(newID[src])
                && folders == WithCopies(old(folders), p, LiveTree(old(folders), src))
                && files == WithFileCopies(old(files), p, FilesIn(old(files), Subtree(old(folders), src)), fileIDs)
    {
      var copied := CopyTree(folders, files, user, src, dest, viewGrants, editGrants, quotaOk, newID, fileIDs);
      if copied.None? { return None; }
      folders, files := copied.value.0, copied.value.1;
      r := Some(newID[src]);
    }
  }

  // ---- the copy is the live tree again ----

  // What a plan made from t satisfies.
  ghost predicate PlanFor(t: Table, p: Plan) {
    && GoodPlan(t, p) && p.nodes == Nodes(t, Subtree(t, p.src)) && LiveTree(t, p.src) <= p.nodes.Keys
    && (p.dest.Some? ==> t[p.dest.value].owner == p.owner)
  }

  ghost function Copy(t: Table, p: Plan): Table
    requires PlanFor(t, p)
  {
    WithCopies(t, p, LiveTree(t, p.src))
  }

  ghost function Images(t: Table, p: Plan): set<string>
    requires PlanFor(t, p)
  {
    set x | x in LiveTree(t, p.src) :: p.newID[x]
  }

  lemma CopiedRow(t: Table, p: Plan, x: string)
    requires PlanFor(t, p) && x in LiveTree(t, p.src)
    ensures p.newID[x] in Copy(t, p) && Copy(t, p)[p.newID[x]] == Row(p, x)
    ensures x != p.src ==> t[x].parent.Some? && t[x].parent.value in LiveTree(t, p.src)
                           && Row(p, x) == Folder(t[x].name, p.owner, Some(p.newID[t[x].parent.value]), false)
  {
    WithinUnfolds(LiveRows(t), x, p.src);
    if x != p.src {
      assert t[x].parent.value in p.nodes by { WithinUnfolds(LiveRows(t), t[x].parent.value, p.src); }
    }
  }

  // No other live folder beside it has its name.
  ghost predicate RootAlone(t: Table, id: string)
    requires id in t
  {
    forall x :: x in t && x != id && !t[x].deleted && t[x].owner == t[id].owner && t[x].parent == t[id].parent ==>
      t[x].name != t[id].name
  }

  // The copied root ends up without a namesake if and only if its plain name or its suffixed one was free.
  lemma RootIsAloneExactly(t: Table, p: Plan)
    requires PlanFor(t, p) && p.src in LiveTree(t, p.src)
    requires p.rootName == CopyFolderName(t, p.owner, p.dest, t[p.src].name)
    ensures p.newID[p.src] in Copy(t, p)
    ensures RootAlone(Copy(t, p), p.newID[p.src]) <==>
              !FolderNameTaken(t, p.owner, p.dest, t[p.src].name)
              || !FolderNameTaken(t, p.owner, p.dest, t[p.src].name + " (copy)")
  {
    var t', root := Copy(t, p), p.newID[p.src];
    CopiedRow(t, p, p.src);
    forall y | y in t' && y != root && y !in t ensures t'[y].parent != p.dest {
      var x :| x in LiveTree(t, p.src) && p.newID[x] == y;
      CopiedRow(t, p, x);
    }
    assert forall y :: y in t ==> y in t' && t'[y] == t[y];
    assert RootAlone(t', root) <==> !FolderNameTaken(t, p.owner, p.dest, p.rootName);
  }

  // Beside "a" and "a (copy)", a copy of the folder "a" is called "a (copy)" too.
  lemma CopyBesideCopy(user: string)
    ensures var t := map["x" := Folder("a", user, None, false), "y" := Folder("a (copy)", user, None, false)];
            CopyFolderName(t, user, None, "a") == "a (copy)" && FolderNameTaken(t, user, None, "a (copy)")
  {
    var t := map["x" := Folder("a", user, None, false), "y" := Folder("a (copy)", user, None, false)];
    assert t["x"].name == "a" && t["y"].name == "a (copy)";
  }

  lemma CopyOwned(t: Table, p: Plan)
    requires Owned(t) && PlanFor(t, p)
    ensures Owned(Copy(t, p))
  {
    var t' := Copy(t, p);
    forall y | y in t' && t'[y].parent.Some?
      ensures t'[y].parent.value in t' && t'[t'[y].parent.value].owner == t'[y].owner
    {
      if y !in t {
        var x :| x in LiveTree(t, p.src) && p.newID[x] == y;
        CopiedRow(t, p, x);
        if x != p.src { CopiedRow(t, p, t[x].parent.value); }
      }
    }
  }

  // Rank the copy of x above the destination, in the order of the source.
  ghost function CopyRank(t: Table, p: Plan, rank: map<string, nat>): map<string, nat>
    requires PlanFor(t, p) && t.Keys <= rank.Keys
  {
    rank + map x | x in LiveTree(t, p.src) ::
      p.newID[x] := (if p.dest.Some? then rank[p.dest.value] + 1 else 0) + rank[x]
  }

  lemma CopyRankOfImage(t: Table, p: Plan, rank: map<string, nat>, x: string)
    requires PlanFor(t, p) && t.Keys <= rank.Keys && x in LiveTree(t, p.src)
    ensures CopyRank(t, p, rank)[p.newID[x]] == (if p.dest.Some? then rank[p.dest.value] + 1 else 0) + rank[x]
  {
  }

  lemma CopyRankOfOld(t: Table, p: Plan, rank: map<string, nat>, y: string)
    requires PlanFor(t, p) && t.Keys <= rank.Keys && y in t
    ensures CopyRank(t, p, rank)[y] == rank[y]
  {
  }

  lemma ImageRanks(t: Table, p: Plan, rank: map<string, nat>, x: string)
    requires Owned(t) && PlanFor(t, p) && Ranks(t, rank) && x in LiveTree(t, p.src) && Row(p, x).parent.Some?
    ensures Row(p, x).parent.value in CopyRank(t, p, rank)
    ensures CopyRank(t, p, rank)[Row(p, x).parent.value] < CopyRank(t, p, rank)[p.newID[x]]
  {
    CopiedRow(t, p, x);
    CopyRankOfImage(t, p, rank, x);
    if x == p.src {
      CopyRankOfOld(t, p, rank, p.dest.value);
    } else {
      CopyRankOfImage(t, p, rank, t[x].parent.value);
    }
  }

  lemma CopyRanks(t: Table, p: Plan, rank: map<string, nat>)
    requires Owned(t) && PlanFor(t, p) && Ranks(t, rank)
    ensures Ranks(Copy(t, p), CopyRank(t, p, rank))
  {
    var t', rank' := Copy(t, p), CopyRank(t, p, rank);
    forall y | y in t' && t'[y].parent.Some? ensures t'[y].parent.value in rank' && rank'[t'[y].parent.value] < rank'[y]
    {
      if y in t {
        CopyRankOfOld(t, p, rank, y);
        CopyRankOfOld(t, p, rank, t[y].parent.value);
      } else {
        var x :| x in LiveTree(t, p.src) && p.newID[x] == y;
        CopiedRow(t, p, x);
        ImageRanks(t, p, rank, x);
      }
    }
  }

  // Copying into any folder, even one inside the source, keeps the forest.
  lemma CopyKeepsForest(t: Table, p: Plan)
    requires Forest(t) && PlanFor(t, p)
    ensures Forest(Copy(t, p))
  {
    var rank :| Ranks(t, rank);
    CopyOwned(t, p);
    CopyRanks(t, p, rank);
  }

  // No folder of the old table lies below the copy.
  lemma {:induction false} OldIsNotBelow(t: Table, p: Plan, y: string, n: nat)
    requires Owned(t) && PlanFor(t, p) && p.src in LiveTree(t, p.src) && y in t
    ensures Ancestor(Copy(t, p), y, n) != Some(p.newID[p.src])
    decreases n
  {
    if n > 0 && t[y].parent.Some? {
      OldIsNotBelow(t, p, t[y].parent.value, n - 1);
    }
  }

  lemma {:induction false} ImageIsBelow(t: Table, p: Plan, x: string, n: nat)
    requires PlanFor(t, p) && Ancestor(LiveRows(t), x, n) == Some(p.src)
    ensures x in LiveTree(t, p.src) && Within(Copy(t, p), p.newID[x], p.newID[p.src])
    decreases n
  {
    assert x in LiveTree(t, p.src);
    CopiedRow(t, p, x);
    WithinUnfolds(Copy(t, p), p.newID[x], p.newID[p.src]);
    if x != p.src {
      ImageIsBelow(t, p, t[x].parent.value, n - 1);
    }
  }

  // The folders below the new root are exactly the images of the live tree, whatever the destination;
  // CopiedRow gives their rows, and every old row is as it was.
  lemma SubtreeOfCopy(t: Table, p: Plan)
    requires Owned(t) && PlanFor(t, p) && p.src in LiveTree(t, p.src)
    ensures Subtree(Copy(t, p), p.newID[p.src]) == Images(t, p)
    ensures Copy(t, p).Keys == t.Keys + Images(t, p) && forall y :: y in t ==> Copy(t, p)[y] == t[y]
  {
    var t', root := Copy(t, p), p.newID[p.src];
    forall y ensures y in Subtree(t', root) <==> y in Images(t, p) {
      if y in Subtree(t', root) {
        var n: nat :| Ancestor(t', y, n) == Some(root);
        if y in t { OldIsNotBelow(t, p, y, n); }
      }
      if y in Images(t, p) {
        var x :| x in LiveTree(t, p.src) && p.newID[x] == y;
        var n: nat :| Ancestor(LiveRows(t), x, n) == Some(p.src);
        ImageIsBelow(t, p, x, n);
      }
    }
  }

  // No live folder below src hangs off a trashed one.
  ghost predicate LiveLinked(t: Table, src: string)
    requires Owned(t)
  {
    forall x :: x in Subtree(t, src) && x != src && !t[x].deleted ==> !t[t[x].parent.value].deleted
  }

  lemma {:induction false} LinkedIsLive(t: Table, src: string, x: string, n: nat)
    requires Owned(t) && LiveLinked(t, src) && Ancestor(t, x, n) == Some(src) && !t[x].deleted
    ensures Within(LiveRows(t), x, src)
    decreases n
  {
    assert Within(t, x, src);
    WithinUnfolds(LiveRows(t), x, src);
    if x != src { LinkedIsLive(t, src, t[x].parent.value, n - 1); }
  }

  // The copy reaches every live folder of the subtree exactly when none of them hangs off a trashed one.
  lemma CopyIsComplete(t: Table, src: string)
    requires Owned(t) && src in t && !t[src].deleted
    ensures LiveTree(t, src) == Nodes(t, Subtree(t, src)).Keys <==> LiveLinked(t, src)
  {
    forall x | x in LiveTree(t, src) ensures x in Nodes(t, Subtree(t, src)) {
      var n: nat :| Ancestor(LiveRows(t), x, n) == Some(src);
      NodesChain(t, src, x, n);
    }
    if LiveLinked(t, src) {
      forall x | x in Nodes(t, Subtree(t, src)) ensures x in LiveTree(t, src) {
        var n: nat :| Ancestor(t, x, n) == Some(src);
        LinkedIsLive(t, src, x, n);
      }
    }
    if LiveTree(t, src) == Nodes(t, Subtree(t, src)).Keys {
      forall x | x in Subtree(t, src) && x != src && !t[x].deleted ensures !t[t[x].parent.value].deleted {
        assert x in Nodes(t, Subtree(t, src));
        WithinUnfolds(LiveRows(t), x, src);
        WithinUnfolds(LiveRows(t), t[x].parent.value, src);
      }
    }
  }

  // A folder restored on its own stays under its trashed parent, and a copy of the top misses it.
  lemma StrandedFolder()
    ensures var t :=
            map["q" := Folder("q", "u", None, false), "p" := Folder("p", "u", Some("q"), true),
            "c" := Folder("c", "u", Some("p"), false)];
            Forest(t) && "c" in Subtree(t, "q") && !t["c"].deleted && "c" !in LiveTree(t, "q")
  {
    var t :=
      map["q" := Folder("q", "u", None, false), "p" := Folder("p", "u", Some("q"), true),
      "c" := Folder("c", "u", Some("p"), false)];
    assert Ranks(t, map["q" := 0, "p" := 1, "c" := 2]);
    WithinUnfolds(t, "q", "q");
    WithinUnfolds(t, "p", "q");
    WithinUnfolds(t, "c", "q");
    WithinUnfolds(LiveRows(t), "p", "q");
    WithinUnfolds(LiveRows(t), "c", "q");
  }

  // The file rows after the copy of the folders of p.
  ghost function CopyOfFiles(t: Table, p: Plan, files: Files, fileIDs: map<string, string>): Files
    requires FreshFileIds(files, FilesIn(files, Subtree(t, p.src)), fileIDs)
  {
    WithFileCopies(files, p, FilesIn(files, Subtree(t, p.src)), fileIDs)
  }

  lemma CopiedFileRow(t: Table, p: Plan, files: Files, fileIDs: map<string, string>, f: string)
    requires PlanFor(t, p) && FilesLinked(t, files, p.src) && f in fileIDs
    requires FreshFileIds(files, FilesIn(files, Subtree(t, p.src)), fileIDs)
    ensures files[f].folder.value in LiveTree(t, p.src) && fileIDs[f] in CopyOfFiles(t, p, files, fileIDs)
    ensures CopyOfFiles(t, p, files, fileIDs)[fileIDs[f]]
         == files[f].(owner := p.owner, folder := Some(p.newID[files[f].folder.value]))
  {
  }

  lemma OldFile(t: Table, p: Plan, files: Files, fileIDs: map<string, string>, g: string)
    requires PlanFor(t, p) && FreshFileIds(files, FilesIn(files, Subtree(t, p.src)), fileIDs)
    ensures g in CopyOfFiles(t, p, files, fileIDs) <==> g in files || g in fileIDs.Values
    ensures g in files ==> CopyOfFiles(t, p, files, fileIDs)[g] == files[g]
  {
  }

  // Files sit in folders that exist.
  ghost predicate Housed(t: Table, files: Files) {
    forall f :: f in files && files[f].folder.Some? ==> files[f].folder.value in t
  }

  lemma CopiedFileIsBelow(t: Table, p: Plan, files: Files, fileIDs: map<string, string>, f: string)
    requires PlanFor(t, p) && FilesLinked(t, files, p.src) && f in fileIDs
    requires FreshFileIds(files, FilesIn(files, Subtree(t, p.src)), fileIDs)
    ensures fileIDs[f] in FilesIn(CopyOfFiles(t, p, files, fileIDs), Images(t, p))
  {
    CopiedFileRow(t, p, files, fileIDs, f);
  }

  lemma OnlyCopiesBelow(t: Table, p: Plan, files: Files, fileIDs: map<string, string>, g: string)
    requires PlanFor(t, p) && Housed(t, files) && FreshFileIds(files, FilesIn(files, Subtree(t, p.src)), fileIDs)
    requires g in FilesIn(CopyOfFiles(t, p, files, fileIDs), Images(t, p))
    ensures g in fileIDs.Values
  {
    OldFile(t, p, files, fileIDs, g);
  }

  // The files below the new root are the copies of the live files below the old one: CopiedFileRow says
  // where each one sits, with the same name and the same bytes, and OldFile that every old row is as it was.
  lemma FilesOfCopy(t: Table, p: Plan, files: Files, fileIDs: map<string, string>)
    requires Owned(t) && PlanFor(t, p) && p.src in LiveTree(t, p.src) && FilesLinked(t, files, p.src)
             && Housed(t, files)
    requires FreshFileIds(files, FilesIn(files, Subtree(t, p.src)), fileIDs)
    ensures FilesIn(CopyOfFiles(t, p, files, fileIDs), Subtree(Copy(t, p), p.newID[p.src])) == fileIDs.Values
  {
    SubtreeOfCopy(t, p);
    var below := FilesIn(CopyOfFiles(t, p, files, fileIDs), Images(t, p));
    forall g ensures g in below <==> g in fileIDs.Values { BelowIsCopied(t, p, files, fileIDs, g); }
  }

  lemma BelowIsCopied(t: Table, p: Plan, files: Files, fileIDs: map<string, string>, g: string)
    requires Owned(t) && PlanFor(t, p) && p.src in LiveTree(t, p.src) && FilesLinked(t, files, p.src)
             && Housed(t, files)
    requires FreshFileIds(files, FilesIn(files, Subtree(t, p.src)), fileIDs)
    ensures g in FilesIn(CopyOfFiles(t, p, files, fileIDs), Images(t, p)) <==> g in fileIDs.Values
  {
    if g in fileIDs.Values {
      var f :| f in fileIDs && fileIDs[f] == g;
      CopiedFileIsBelow(t, p, files, fileIDs, f);
    } else if g in FilesIn(CopyOfFiles(t, p, files, fileIDs), Images(t, p)) {
      OnlyCopiesBelow(t, p, files, fileIDs, g);
    }
  }

  // ---- runs ----

  // A folder copy commits unless access, quota or a foreign key stops it.
  datatype Op =
    | Handle(request: Request)
    | CopyInto(user: string, src: string, dest: Option<string>, viewGrants: set<string>, editGrants: set<string>,
               commits: bool, newID: map<string, string>)

  ghost predicate Draws(t: Table, op: Op)
    requires op.CopyInto?
  {
    && op.newID.Keys == Nodes(t, Subtree(t, op.src)).Keys && Injective(op.newID)
    && forall x :: x in op.newID ==> op.newID[x] !in t
  }

  ghost predicate CopyCommits(t: Table, op: Op)
    requires op.CopyInto?
  {
    && op.commits && Draws(t, op) && Access(t, op.user, op.src, op.viewGrants).Some?
    && (op.dest.Some? ==> Access(t, op.user, op.dest.value, op.editGrants).Some?)
  }

  lemma CommittedPlan(t: Table, op: Op)
    requires op.CopyInto? && CopyCommits(t, op)
    ensures PlanFor(t, PlanOf(t, op.user, op.src, op.dest, op.newID))
  {
    WithinUnfolds(t, op.src, op.src);
    forall x | x in LiveTree(t, op.src) ensures x in Nodes(t, Subtree(t, op.src)) {
      var n: nat :| Ancestor(LiveRows(t), x, n) == Some(op.src);
      NodesChain(t, op.src, x, n);
    }
  }

  // An id that is already taken breaks the primary key, and the request changes nothing.
  ghost function Next(t: Table, op: Op): (t': Table)
    requires Forest(t)
    ensures Forest(t')
  {
    match op
    case Handle(r) =>
      if Fresh(t, r) then (ApplyKeepsForest(t, r); Apply(t, r)) else t
    case CopyInto(user, src, dest, _, _, _, newID) =>
      if CopyCommits(t, op) then
        CommittedPlan(t, op);
        CopyKeepsForest(t, PlanOf(t, user, src, dest, newID));
        Copy(t, PlanOf(t, user, src, dest, newID))
      else t
  }

  ghost function Run(ops: seq<Op>): (t: Table)
    ensures Forest(t)
  {
    if ops == [] then
      assert Ranks(map[], map[]);
      map[]
    else
      Next(Run(ops[..|ops| - 1]), ops[|ops| - 1])
  }

  // After any run: every walk towards the root ends, and everything below a folder belongs to its owner.
  lemma EveryRun(ops: seq<Op>, root: string, x: string)
    ensures exists n: nat :: Ancestor(Run(ops), x, n) == None
    ensures x in Subtree(Run(ops), root) ==> root in Run(ops) && Run(ops)[x].owner == Run(ops)[root].owner
  {
    AncestorWalkEnds(Run(ops), x);
    if x in Subtree(Run(ops), root) { SubtreeOwner(Run(ops), root, x); }
  }
}
