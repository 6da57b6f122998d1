/**
 Copying trees on a remote file system: a shared budget of visits, recursive copies into places that must
 not exist yet, and the removal of a partial copy. Paths are sequences of names; any request to the server
 may fail.
 */
module RemoteCopy {
  import opened Common

  type Path = seq<string>

  const ENTRY_LIMIT := 20_000

  datatype Node = File(content: string, mode: nat) | Dir | Link | Special

  type Nodes = map<Path, Node>

  /** Every entry lies in a directory. */
  ghost predicate WellFormed(nodes: Nodes) {
    forall p :: p in nodes && p != [] ==> InDirectory(nodes, p)
  }

  predicate InDirectory(nodes: Nodes, p: Path)
    requires p != []
  {
    p[..|p| - 1] in nodes && nodes[p[..|p| - 1]].Dir?
  }

  predicate Below(root: Path, p: Path) {
    root <= p
  }

  /** The entries at and below a path. */
  function Subtree(nodes: Nodes, root: Path): set<Path> {
    set p | p in nodes && Below(root, p)
  }

  /** What a copy takes along: files and directories, no links and no special files. */
  predicate Copyable(node: Node) {
    node.File? || node.Dir?
  }

  function Permissions(mode: nat): nat {
    mode % 0x1000
  }

  function CopyOf(node: Node): Node {
    if node.File? then File(node.content, Permissions(node.mode)) else node
  }

  /** The paths of the copy of a tree, as far as its entries are among the names. */
  function GraftPaths(nodes: Nodes, source: Path, target: Path, names: set<string>): set<Path> {
    set p | p in nodes && Below(source, p) && Copyable(nodes[p]) && (|p| == |source| || p[|source|] in names)
      :: target + p[|source|..]
  }

  /** The copy of the tree at source, placed at target. */
  function GraftOf(nodes: Nodes, source: Path, target: Path, names: set<string>): Nodes {
    map q | q in GraftPaths(nodes, source, target, names) && Below(target, q) && source + q[|target|..] in nodes
      :: CopyOf(nodes[source + q[|target|..]])
  }

  function ChildNames(nodes: Nodes, root: Path): set<string> {
    set p | p in nodes && |p| == |root| + 1 && Below(root, p) :: p[|root|]
  }

  function Graft(nodes: Nodes, source: Path, target: Path): Nodes {
    GraftOf(nodes, source, target, ChildNames(nodes, source))
  }

  /** Neither path lies within the other. */
  predicate Apart(a: Path, b: Path) {
    !Below(a, b) && !Below(b, a)
  }

  /** A source that is still there and the free place for its copy lie apart, and differ in any case. */
  predicate Placeable(nodes: Nodes, source: Path, target: Path) {
    target !in nodes ==> source != target && (source in nodes ==> Apart(source, target))
  }

  /** Nothing changed outside the tree at root. */
  ghost predicate SameOutside(before: Nodes, after: Nodes, root: Path) {
    forall p :: !Below(root, p) ==> (p in before <==> p in after) && (p in before ==> before[p] == after[p])
  }

  /** How the server answers the requests of one file copy; written is what a write leaves that breaks off. */
  datatype Answers = Answers(opens: bool, completes: bool, written: string, chmods: bool, unlinks: bool)

  /** A file can be created: the name is free, and its directory is there. */
  predicate CanCreate(nodes: Nodes, path: Path) {
    path != [] && path !in nodes && InDirectory(nodes, path)
  }

  predicate FileCopied(nodes: Nodes, source: Path, target: Path, a: Answers) {
    CanCreate(nodes, target) && a.opens && a.completes && source in nodes && a.chmods
  }

  /** What a file copy leaves behind, by the answers it gets. */
  function FileOutcome(nodes: Nodes, source: Path, target: Path, metadata: Node, a: Answers): Nodes
    requires metadata.File?
  {
    var content := if a.completes then metadata.content else a.written;
    var written :=
      if CanCreate(nodes, target) && a.opens
      then nodes[target := File(content, Permissions(metadata.mode))] else nodes;
    if FileCopied(nodes, source, target, a) || !a.unlinks || target !in written || written[target].Dir?
    then written else written - {target}
  }

  /** Only the entry itself may go, and only if it is no directory. */
  predicate AtMostUnlinked(before: Nodes, after: Nodes, path: Path)
    requires path in before
  {
    after == before || (!before[path].Dir? && after == before - {path})
  }

  /**
   A copy onto an existing file fails, and its cleanup unlinks that file: this is what happens when the look
   at the target has failed before.
   */
  lemma ExistingFileLost(nodes: Nodes, source: Path, target: Path, metadata: Node, a: Answers)
    requires metadata.File? && target in nodes && !nodes[target].Dir?
    ensures !FileCopied(nodes, source, target, a)
    ensures FileOutcome(nodes, source, target, metadata, a) == if a.unlinks then nodes - {target} else nodes
    ensures a.unlinks ==> target !in FileOutcome(nodes, source, target, metadata, a)
  {
  }

  /** What a copy visits: the files, directories and special files of a tree; links are passed over. */
  function Visited(nodes: Nodes, root: Path): set<Path> {
    set p | p in nodes && Below(root, p) && !nodes[p].Link?
  }

  /** The part of that below the root and among the names. */
  function VisitedAmong(nodes: Nodes, root: Path, names: set<string>): set<Path> {
    set p | p in nodes && Below(root, p) && !nodes[p].Link? && |p| > |root| && p[|root|] in names
  }

  datatype Removal = Removed | RequestFailed | LimitExceeded

  // ----- renaming -----

  /** Where the entry at p is once the tree at source has become the tree at target. */
  function Follow(source: Path, target: Path, p: Path): Path {
    if Below(source, p) then target + p[|source|..] else p
  }

  /** Where the entry at q was before. */
  function Origin(source: Path, target: Path, q: Path): Path {
    if Below(target, q) then source + q[|target|..] else q
  }

  function FollowPaths(nodes: Nodes, source: Path, target: Path): set<Path> {
    set p | p in nodes :: Follow(source, target, p)
  }

  function Relocated(nodes: Nodes, source: Path, target: Path): Nodes {
    map q | q in FollowPaths(nodes, source, target) && Origin(source, target, q) in nodes
      :: nodes[Origin(source, target, q)]
  }

  class Sftp {
    var nodes: Nodes
    /** Some request has failed, or broken off, that could have been answered. */
    ghost var failed: bool

    constructor (nodes: Nodes)
      ensures this.nodes == nodes && !failed
    {
      this.nodes, this.failed := nodes, false;
    }

    /** None when there is no entry, or the request fails. */
    method Lstat(path: Path) returns (node: Option<Node>)
      modifies `failed
      ensures node.Some? ==> path in nodes && node.value == nodes[path]
      ensures (old(failed) ==> failed) && (!failed && path in nodes ==> node.Some?)
    {
      var fails: bool := *;
      failed := failed || fails;
      node := if path in nodes && !fails then Some(nodes[path]) else None;
    }

    method List(path: Path) returns (names: Option<seq<string>>)
      modifies `failed
      ensures (old(failed) ==> failed) && (!failed && path in nodes && nodes[path].Dir? ==> names.Some?)
      ensures names.Some? ==>
                && path in nodes && nodes[path].Dir?
                && (forall n :: n in names.value <==> path + [n] in nodes)
                && (forall i, j :: 0 <= i < j < |names.value| ==> names.value[i] != names.value[j])
    {
      var fails: bool := *;
      failed := failed || fails;
      if fails || path !in nodes || !nodes[path].Dir? { return None; }
      var remaining := ChildNames(nodes, path);
      ghost var all := remaining;
      var listed: seq<string> := [];
      while remaining != {}
        invariant forall n :: n in all <==> n in remaining || n in listed
        invariant forall n :: n in listed ==> n !in remaining
        invariant forall i, j :: 0 <= i < j < |listed| ==> listed[i] != listed[j]
      {
        var n :| n in remaining;
        remaining := remaining - {n};
        listed := listed + [n];
      }
      forall n ensures n in all <==> path + [n] in nodes {
        ChildName(nodes, path, n);
      }
      names := Some(listed);
    }

    method Mkdir(path: Path) returns (ok: bool)
      modifies this
      ensures ok ==> CanCreate(old(nodes), path) && nodes == old(nodes)[path := Dir]
      ensures !ok ==> nodes == old(nodes)
      ensures (old(failed) ==> failed) && (!failed && CanCreate(old(nodes), path) ==> ok)
    {
      var fails: bool := *;
      failed := failed || fails;
      ok := !fails && path != [] && path !in nodes && InDirectory(nodes, path);
      if ok { nodes := nodes[path := Dir]; }
    }

    /** Writes a file that must not exist; a failed write may leave a part of it. */
    method WriteNew(path: Path, content: string, mode: nat) returns (ok: bool)
      modifies this
      ensures ok ==>
                && path != [] && path !in old(nodes) && InDirectory(old(nodes), path)
                && nodes == old(nodes)[path := File(content, mode)]
      ensures !ok ==>
                || nodes == old(nodes)
                || (path != [] && path !in old(nodes) && InDirectory(old(nodes), path)
                    && path in nodes && nodes[path].File? && nodes[path].mode == mode
                    && nodes == old(nodes)[path := nodes[path]])
      ensures (old(failed) ==> failed) && (!failed && CanCreate(old(nodes), path) ==> ok)
      ensures !failed && !ok ==> nodes == old(nodes)
    {
      var opens: bool := *;
      var completes: bool := *;
      var written: string := *;
      failed := failed || !opens || !completes;
      if !opens || path == [] || path in nodes || !InDirectory(nodes, path) { return false; }
      nodes := nodes[path := File(if completes then content else written, mode)];
      ok := completes;
    }

    method Chmod(path: Path, mode: nat) returns (ok: bool)
      modifies this
      ensures ok ==> path in old(nodes) && nodes == old(nodes)[path :=
                       if old(nodes)[path].File? then old(nodes)[path].(mode := mode) else old(nodes)[path]]
      ensures !ok ==> nodes == old(nodes)
      ensures (old(failed) ==> failed) && (!failed && path in old(nodes) ==> ok)
    {
      var fails: bool := *;
      failed := failed || fails;
      ok := !fails && path in nodes;
      if ok && nodes[path].File? { nodes := nodes[path := nodes[path].(mode := mode)]; }
      if ok { assert nodes == old(nodes)[path := nodes[path]]; }
    }

    method Unlink(path: Path) returns (ok: bool)
      modifies this
      ensures ok ==> path in old(nodes) && !old(nodes)[path].Dir? && nodes == old(nodes) - {path}
      ensures !ok ==> nodes == old(nodes)
      ensures (old(failed) ==> failed) && (!failed && path in old(nodes) && !old(nodes)[path].Dir? ==> ok)
    {
      var fails: bool := *;
      failed := failed || fails;
      ok := !fails && path in nodes && !nodes[path].Dir?;
      if ok { nodes := nodes - {path}; }
    }

    /** Only an empty directory can be removed. */
    method Rmdir(path: Path) returns (ok: bool)
      modifies this
      ensures ok ==> path in old(nodes) && Subtree(old(nodes), path) == {path} && nodes == old(nodes) - {path}
      ensures !ok ==> nodes == old(nodes)
      ensures old(failed) ==> failed
      ensures !failed && path in old(nodes) && old(nodes)[path].Dir? && Subtree(old(nodes), path) == {path} ==> ok
    {
      var fails: bool := *;
      failed := failed || fails;
      ok := !fails && path in nodes && nodes[path].Dir? && Subtree(nodes, path) == {path};
      if ok { nodes := nodes - {path}; }
    }

    /** The standard rename: it refuses an existing name and a place inside what is renamed. */
    method Rename(source: Path, target: Path) returns (ok: bool)
      modifies this
      ensures ok ==>
                && source in old(nodes) && source != [] && CanCreate(old(nodes), target)
                && !Below(source, target) && nodes == Relocated(old(nodes), source, target)
      ensures !ok ==> nodes == old(nodes)
      ensures old(failed) ==> failed
      ensures !failed && source in old(nodes) && source != [] && !Below(source, target) ==>
                CanCreate(old(nodes), target) ==> ok
    {
      var fails: bool := *;
      failed := failed || fails;
      ok := !fails && source in nodes && source != [] && CanCreate(nodes, target) && !Below(source, target);
      if ok { nodes := Relocated(nodes, source, target); }
    }

    // ----- removing a tree -----

    /** Removes a tree, one visit per entry; the limit is only exceeded by a tree with more entries. */
    method RemoveTree(path: Path, budget: int) returns (result: Removal, left: int)
      requires WellFormed(nodes) && path in nodes
      modifies this
      ensures WellFormed(nodes) && SameOutside(old(nodes), nodes, path)
      ensures Subtree(nodes, path) <= Subtree(old(nodes), path) && left < budget
      ensures result == Removed ==>
                Subtree(nodes, path) == {} && budget - left == |Subtree(old(nodes), path)| && left >= 0
      ensures result == LimitExceeded ==> |Subtree(old(nodes), path)| > budget
      ensures (old(failed) ==> failed) && (result == RequestFailed ==> failed)
      decreases if budget < 0 then 0 else budget, 0
    {
      left := budget - 1;
      if left < 0 {
        RootCounted(nodes, path);
        return LimitExceeded, left;
      }
      var metadata := Lstat(path);
      if metadata.None? { return RequestFailed, left; }
      if !metadata.value.Dir? {
        LeafAlone(nodes, path);
        var ok := Unlink(path);
        return if ok then Removed else RequestFailed, left;
      }
      var names := List(path);
      if names.None? { return RequestFailed, left; }
      result, left := RemoveChildren(path, names.value, left);
      if result == Removed {
        var ok := Rmdir(path);
        if !ok { result := RequestFailed; }
      }
    }

    /** Removes the listed entries of a directory one after the other. */
    method RemoveChildren(path: Path, names: seq<string>, budget: int) returns (result: Removal, left: int)
      requires WellFormed(nodes) && path in nodes && budget >= 0
      requires forall n :: n in names <==> path + [n] in nodes
      requires forall i, j :: 0 <= i < j < |names| ==> names[i] != names[j]
      modifies this
      ensures WellFormed(nodes) && SameOutside(old(nodes), nodes, path)
      ensures path in nodes && nodes[path] == old(nodes)[path]
      ensures Subtree(nodes, path) <= Subtree(old(nodes), path) && left <= budget
      ensures result == Removed ==>
                Subtree(nodes, path) == {path} && budget - left + 1 == |Subtree(old(nodes), path)| && left >= 0
      ensures result == LimitExceeded ==> |Subtree(old(nodes), path)| > budget + 1
      ensures (old(failed) ==> failed) && (result == RequestFailed ==> failed)
      decreases budget, 1
    {
      left := budget;
      result := Removed;
      for i := 0 to |names|
        invariant WellFormed(nodes) && SameOutside(old(nodes), nodes, path)
        invariant path in nodes && nodes[path] == old(nodes)[path] && (old(failed) ==> failed)
        invariant Subtree(nodes, path) <= Subtree(old(nodes), path) && 0 <= left <= budget
        invariant |Subtree(nodes, path)| + (budget - left) == |Subtree(old(nodes), path)|
        invariant forall k :: 0 <= k < i ==> Subtree(nodes, path + [names[k]]) == {}
        invariant forall k :: i <= k < |names| ==> path + [names[k]] in nodes
        invariant result == Removed
      {
        ghost var before := nodes;
        ghost var had := left;
        var child := path + [names[i]];
        result, left := RemoveTree(child, left);
        WithinParent(before, nodes, path, names[i]);
        if result != Removed {
          if result == LimitExceeded { ParentLarger(before, path, names[i]); }
          return;
        }
        ChildRemoved(before, nodes, path, names[i]);
        forall k | 0 <= k < |names| && k != i
          ensures k < i ==> Subtree(nodes, path + [names[k]]) == {}
          ensures i < k ==> path + [names[k]] in nodes
        {
          SiblingKept(before, nodes, path, names[i], names[k]);
        }
      }
      OnlyRoot(old(nodes), nodes, path, names);
    }

    // ----- copying a tree -----

    /** A file is written anew; what a failed write leaves is unlinked, and so is what was there before it. */
    method CopyFile(source: Path, target: Path, metadata: Node)
      returns (ok: bool, ghost undone: bool, ghost answers: Answers)
      requires WellFormed(nodes) && metadata.File?
      modifies this
      ensures WellFormed(nodes) && SameOutside(old(nodes), nodes, target)
      ensures ok ==> source in old(nodes) && target !in old(nodes) && nodes == old(nodes)[target := CopyOf(metadata)]
      ensures nodes == FileOutcome(old(nodes), source, target, metadata, answers)
      ensures ok <==> FileCopied(old(nodes), source, target, answers)
      ensures target in old(nodes) ==> AtMostUnlinked(old(nodes), nodes, target)
      ensures !ok && target !in old(nodes) ==> (undone ==> nodes == old(nodes)) && |Subtree(nodes, target)| <= 1
      ensures (old(failed) ==> failed) && (!failed && !ok && target !in old(nodes) ==> undone)
      ensures !failed && source in old(nodes) && CanCreate(old(nodes), target) ==> ok
    {
      hide WellFormed, SameOutside, Subtree;
      undone := false;
      var readable := source in nodes;
      ok := WriteNew(target, metadata.content, Permissions(metadata.mode));
      WrittenAtMost(old(nodes), nodes, target);
      ghost var created := nodes != old(nodes) || ok;
      answers := Answers(
        created, ok, if created && nodes[target].File? then nodes[target].content else "", false, false);
      ok := ok && readable;
      if ok {
        ok := Chmod(target, Permissions(metadata.mode));
        assert nodes == old(nodes)[target := nodes[target]];
        answers := answers.(chmods := ok);
      }
      if !ok {
        ghost var left := nodes;
        WrittenAtMost(old(nodes), nodes, target);
        var unlinked := Unlink(target);
        answers := answers.(unlinks := unlinked);
        undone := unlinked || target !in nodes;
        if unlinked {
          LeafGone(left, nodes, target);
          OutsideTwice(old(nodes), left, nodes, target);
        }
      }
    }

    /**
     Copies a file, a directory or nothing. A failed copy of a directory is taken back with a budget of its
     own; undone says that no request of the removal failed, exceeded that its budget ran out.
     */
    method CopyTree(source: Path, target: Path, metadata: Node, budget: int)
      returns (ok: bool, left: int, ghost undone: bool, ghost exceeded: bool)
      requires WellFormed(nodes) && Placeable(nodes, source, target) && budget <= ENTRY_LIMIT
      requires source in nodes ==> nodes[source] == metadata
      modifies this
      ensures WellFormed(nodes) && SameOutside(old(nodes), nodes, target) && left < budget
      ensures ok ==> left >= 0 && nodes == old(nodes) + Graft(old(nodes), source, target)
      ensures ok && Copyable(metadata) ==> source in old(nodes) && target !in old(nodes)
      ensures target in old(nodes) ==> AtMostUnlinked(old(nodes), nodes, target)
      ensures !ok && undone && target !in old(nodes) ==> nodes == old(nodes)
      ensures target !in old(nodes) ==> |Subtree(nodes, target)| <= Used(budget, left)
      ensures !exceeded && (old(failed) ==> failed)
      ensures !failed && !ok && target !in old(nodes) ==> undone
      ensures ok && source in old(nodes) && !metadata.Link? ==> left == budget - |Visited(old(nodes), source)|
      ensures !failed && source in old(nodes) && CanCreate(old(nodes), target) && !metadata.Link? ==>
                (ok <==> |Visited(old(nodes), source)| <= budget)
      ensures !Copyable(metadata) ==> nodes == old(nodes) && left == budget - 1 && (ok <==> budget > 0)
      decreases if budget < 0 then 0 else budget, 0
    {
      hide Graft, GraftOf, WellFormed, SameOutside, Subtree, Visited;
      ok, undone, exceeded := false, true, false;
      left := budget - 1;
      Unchanged(nodes, target);
      if source in nodes { RootVisited(nodes, source); }
      if left < 0 { return; }
      if metadata.File? {
        ghost var answers;
        ok, undone, answers := CopyFile(source, target, metadata);
        if source in old(nodes) { FileGraft(old(nodes), source, target); }
        FileCounted(old(nodes), nodes, target, ok, metadata);
        return;
      }
      if !metadata.Dir? {
        NoGraft(nodes, source, target);
        ok := true;
        return;
      }
      var made := Mkdir(target);
      if !made { return; }
      DirectoryAdded(old(nodes), nodes, target);
      ok, left := CopyEntries(source, target, left, old(nodes));
      if !ok {
        ghost var partial := nodes;
        var removal, _ := RemoveTree(target, ENTRY_LIMIT);
        undone, exceeded := removal == Removed, removal == LimitExceeded;
        Undone(old(nodes), partial, nodes, target, undone);
      }
    }

    /** Copies the entries of a directory into the directory just made for them. */
    method CopyEntries(source: Path, target: Path, budget: int, ghost orig: Nodes) returns (ok: bool, left: int)
      requires WellFormed(orig) && target !in orig && Placeable(orig, source, target)
      requires source in orig ==> orig[source].Dir?
      requires WellFormed(nodes) && nodes == orig[target := Dir] && 0 <= budget < ENTRY_LIMIT
      requires SameOutside(orig, nodes, target) && |Subtree(nodes, target)| == 1
      modifies this
      ensures WellFormed(nodes) && SameOutside(orig, nodes, target) && target in nodes && left <= budget
      ensures ok ==> source in orig && left >= 0 && nodes == orig + Graft(orig, source, target)
      ensures |Subtree(nodes, target)| <= 1 + Used(budget, left) && (old(failed) ==> failed)
      ensures ok ==> left == budget + 1 - |Visited(orig, source)|
      ensures !failed && source in orig ==> (ok <==> |Visited(orig, source)| <= budget + 1)
      decreases budget, 1
    {
      hide Graft, GraftOf, WellFormed, SameOutside, Subtree, ChildNames, Visited, VisitedAmong;
      ok, left := false, budget;
      ghost var done: set<string> := {};
      var names := List(source);
      if names.None? { return; }
      EmptyGraft(orig, source, target);
      NoneVisited(orig, source);
      for i := 0 to |names.value|
        invariant WellFormed(nodes) && nodes == orig + GraftOf(orig, source, target, done) && target in nodes
        invariant done == (set n | n in names.value[..i]) && 0 <= left <= budget
        invariant |Subtree(nodes, target)| <= 1 + budget - left && (old(failed) ==> failed)
        invariant left == budget - |VisitedAmong(orig, source, done)|
      {
        var name := names.value[i];
        var child := source + [name];
        NextEntry(orig, nodes, source, target, done, name);
        OneMoreVisited(orig, source, done, name);
        if nodes[child].Link? {
          LinkSkipped(orig, source, target, done, name);
        } else {
          ghost var before := nodes;
          ghost var had := left;
          var copied;
          ghost var undone, exceeded;
          SameVisited(orig, nodes, source, target, done, name);
          copied, left, undone, exceeded := CopyTree(child, target + [name], nodes[child], left);
          EntryCounted(before, nodes, target, name);
          if !copied {
            PartialOutside(orig, before, nodes, source, target, done, name);
            SomeVisited(orig, source, done + {name});
            return;
          }
          EntryGrafted(orig, before, source, target, done, name);
        }
        done := done + {name};
      }
      assert names.value[..|names.value|] == names.value;
      AllGrafted(orig, nodes, source, target, done, names.value);
      AllVisited(orig, source, target, done, names.value);
      ok := true;
    }
  }

  /** Visits a budget has been charged with; an exhausted one has been charged in full. */
  function Used(budget: int, left: int): int {
    if budget < 0 then 0 else if left < 0 then budget else budget - left
  }

  lemma BelowChild(path: Path, name: string, p: Path)
    ensures Below(path + [name], p) <==> Below(path, p) && |p| > |path| && p[|path|] == name
  {
    if Below(path + [name], p) {
      assert p[..|path| + 1] == path + [name];
      assert p[..|path|] == p[..|path| + 1][..|path|] == path;
      assert p[|path|] == p[..|path| + 1][|path|];
    }
    if Below(path, p) && |p| > |path| && p[|path|] == name {
      assert p[..|path| + 1] == p[..|path|] + [p[|path|]] == path + [name];
    }
  }

  // ----- facts about grafts -----

  predicate Grafted(nodes: Nodes, source: Path, target: Path, names: set<string>, q: Path) {
    Below(target, q) &&
    var p := source + q[|target|..];
    p in nodes && Copyable(nodes[p]) && (|p| == |source| || p[|source|] in names)
  }

  /** A path is part of the copy exactly when its counterpart is part of the tree. */
  lemma GraftIs(nodes: Nodes, source: Path, target: Path, names: set<string>)
    ensures forall q :: q in GraftOf(nodes, source, target, names) <==> Grafted(nodes, source, target, names, q)
    ensures forall q :: q in GraftOf(nodes, source, target, names) ==>
                          GraftOf(nodes, source, target, names)[q] == CopyOf(nodes[source + q[|target|..]])
  {
    forall q | Grafted(nodes, source, target, names, q) ensures q in GraftPaths(nodes, source, target, names) {
      var p := source + q[|target|..];
      assert Below(source, p) && q == target + p[|source|..];
    }
    forall q | q in GraftPaths(nodes, source, target, names) ensures Grafted(nodes, source, target, names, q) {
      var p :| p in nodes && Below(source, p) && Copyable(nodes[p]) && (|p| == |source| || p[|source|] in names)
                && q == target + p[|source|..];
      assert q[|target|..] == p[|source|..] && source + p[|source|..] == p;
    }
  }

  lemma Unchanged(nodes: Nodes, target: Path)
    requires WellFormed(nodes)
    ensures SameOutside(nodes, nodes, target) && (target !in nodes ==> Subtree(nodes, target) == {})
  {
    forall p | p in Subtree(nodes, target) ensures target in nodes {
      PrefixIn(nodes, p, |target|);
      assert p[..|target|] == target;
    }
  }

  lemma LeafAdded(before: Nodes, after: Nodes, target: Path)
    requires WellFormed(before) && target != [] && target !in before && InDirectory(before, target)
    requires target in after && after == before[target := after[target]]
    ensures WellFormed(after) && SameOutside(before, after, target) && Subtree(after, target) == {target}
  {
    Unchanged(before, target);
    assert Below(target, target);
    forall p | p in after && p != [] ensures InDirectory(after, p) {
      assert p != target ==> InDirectory(before, p);
    }
    forall p | p in Subtree(after, target) ensures p == target {
      assert p !in Subtree(before, target);
    }
  }

  lemma WrittenAtMost(before: Nodes, after: Nodes, target: Path)
    requires WellFormed(before)
    requires after == before || (target != [] && target !in before && InDirectory(before, target)
                                 && target in after && after == before[target := after[target]])
    ensures WellFormed(after) && SameOutside(before, after, target)
    ensures target !in before ==> |Subtree(after, target)| <= 1
  {
    Unchanged(before, target);
    if after != before {
      LeafAdded(before, after, target);
    }
  }

  lemma OutsideTwice(first: Nodes, second: Nodes, third: Nodes, root: Path)
    requires SameOutside(first, second, root) && SameOutside(second, third, root)
    ensures SameOutside(first, third, root)
  {
  }

  lemma LeafGone(before: Nodes, after: Nodes, target: Path)
    requires WellFormed(before) && target in before && !before[target].Dir? && after == before - {target}
    ensures WellFormed(after) && SameOutside(before, after, target)
    ensures |Subtree(after, target)| <= 1
  {
    assert Below(target, target);
    forall p | p in after && p != [] ensures InDirectory(after, p) {
      assert InDirectory(before, p);
    }
    LeafAlone(before, target);
    assert Subtree(after, target) == {} by {
      forall p ensures p !in Subtree(after, target) {
        assert p in Subtree(before, target) ==> p == target;
      }
    }
  }

  lemma FileGraft(nodes: Nodes, source: Path, target: Path)
    requires WellFormed(nodes) && source in nodes && nodes[source].File?
    ensures nodes + Graft(nodes, source, target) == nodes[target := CopyOf(nodes[source])]
  {
    LeafAlone(nodes, source);
    LeafGraft(nodes, source, target);
  }

  lemma LeafGraft(nodes: Nodes, source: Path, target: Path)
    requires source in nodes && Subtree(nodes, source) == {source}
    ensures Graft(nodes, source, target) ==
            if Copyable(nodes[source]) then map[target := CopyOf(nodes[source])] else map[]
  {
    GraftIs(nodes, source, target, ChildNames(nodes, source));
    forall q ensures q in Graft(nodes, source, target) <==> q == target && Copyable(nodes[source]) {
      var p := if Below(target, q) then source + q[|target|..] else source;
      assert Below(source, p);
      assert p in nodes ==> p in Subtree(nodes, source);
      assert Below(target, q) && p == source ==> q == target;
      assert source + target[|target|..] == source && Below(target, target);
    }
    assert target[|target|..] == [] && source + [] == source;
  }

  lemma NoGraft(nodes: Nodes, source: Path, target: Path)
    requires WellFormed(nodes) && (source in nodes ==> !Copyable(nodes[source]))
    ensures nodes + Graft(nodes, source, target) == nodes
  {
    if source in nodes {
      LeafAlone(nodes, source);
      LeafGraft(nodes, source, target);
    } else {
      NothingThere(nodes, source, target);
    }
  }

  lemma NothingThere(nodes: Nodes, source: Path, target: Path)
    requires WellFormed(nodes) && source !in nodes
    ensures Graft(nodes, source, target) == map[]
  {
    Unchanged(nodes, source);
    forall p ensures !(p in nodes && Below(source, p)) {
      assert p !in Subtree(nodes, source);
    }
    assert GraftPaths(nodes, source, target, ChildNames(nodes, source)) == {};
  }

  lemma FileCounted(before: Nodes, after: Nodes, target: Path, ok: bool, metadata: Node)
    requires WellFormed(before) && WellFormed(after) && metadata.File?
    requires ok ==> target !in before && after == before[target := CopyOf(metadata)]
    requires !ok && target !in before ==> |Subtree(after, target)| <= 1
    ensures target !in before ==> |Subtree(after, target)| <= 1
  {
    if ok {
      LeafAlone(after, target);
    }
  }

  lemma DirectoryAdded(before: Nodes, after: Nodes, target: Path)
    requires WellFormed(before) && target != [] && target !in before && InDirectory(before, target)
    requires after == before[target := Dir]
    ensures WellFormed(after) && SameOutside(before, after, target) && |Subtree(after, target)| == 1
  {
    LeafAdded(before, after, target);
  }

  /** Taking back a partial copy restores what was there before it. */
  lemma Undone(before: Nodes, partial: Nodes, after: Nodes, target: Path, removed: bool)
    requires WellFormed(before) && target !in before
    requires SameOutside(before, partial, target) && SameOutside(partial, after, target)
    requires Subtree(after, target) <= Subtree(partial, target)
    requires removed ==> Subtree(after, target) == {}
    ensures SameOutside(before, after, target) && (removed ==> after == before)
    ensures |Subtree(after, target)| <= |Subtree(partial, target)|
  {
    SubsetSize(Subtree(after, target), Subtree(partial, target));
    Unchanged(before, target);
    if removed {
      forall p ensures p in after <==> p in before {
        assert Below(target, p) ==> p !in Subtree(after, target) && p !in Subtree(before, target);
      }
      forall p | p in after ensures after[p] == before[p] {
        assert Below(target, p) ==> p !in Subtree(after, target);
      }
    }
  }

  /** Two prefixes of one path are prefixes of each other. */
  lemma TwoPrefixes(a: Path, b: Path, p: Path)
    requires Below(a, p) && Below(b, p)
    ensures Below(a, b) || Below(b, a)
  {
    assert p[..|a|] == a && p[..|b|] == b;
    if |a| <= |b| {
      assert b[..|a|] == p[..|a|];
    } else {
      assert a[..|b|] == p[..|b|];
    }
  }

  lemma ApartPaths(source: Path, target: Path, p: Path)
    requires Apart(source, target) && Below(source, p)
    ensures !Below(target, p)
  {
    if Below(target, p) {
      TwoPrefixes(source, target, p);
    }
  }

  lemma EmptyGraft(orig: Nodes, source: Path, target: Path)
    requires WellFormed(orig) && source in orig && orig[source].Dir? && target !in orig
    ensures orig[target := Dir] == orig + GraftOf(orig, source, target, {})
    ensures SameOutside(orig, orig[target := Dir], target)
    ensures |Subtree(orig[target := Dir], target)| == 1
  {
    GraftIs(orig, source, target, {});
    forall q ensures q in GraftOf(orig, source, target, {}) <==> q == target {
      if q == target {
        assert Below(target, q) && q[|target|..] == [] && source + [] == source;
      }
      if Grafted(orig, source, target, {}, q) {
        assert q[..|target|] == target && |q| == |target|;
      }
    }
    assert Below(target, target) && target[|target|..] == [] && source + [] == source;
    Unchanged(orig, target);
    var made := orig[target := Dir];
    forall p | p in Subtree(made, target) ensures p == target {
      assert p !in Subtree(orig, target);
    }
    assert Subtree(made, target) == {target};
  }

  /** The next entry is still as it was, and its place in the copy is still free. */
  lemma NextEntry(orig: Nodes, nodes: Nodes, source: Path, target: Path, done: set<string>, name: string)
    requires WellFormed(orig) && source in orig && orig[source].Dir? && target !in orig && Apart(source, target)
    requires nodes == orig + GraftOf(orig, source, target, done)
    requires source + [name] in orig[target := Dir] && name !in done
    ensures source + [name] in orig && source + [name] in nodes && nodes[source + [name]] == orig[source + [name]]
    ensures Apart(source + [name], target + [name]) && target + [name] !in nodes
  {
    var child := source + [name];
    GraftIs(orig, source, target, done);
    BelowChild(source, name, child);
    BelowChild(target, name, target + [name]);
    ApartPaths(source, target, child);
    Unchanged(orig, target);
    assert target + [name] !in Subtree(orig, target);
    assert (target + [name])[|target|..] == [name] && source + [name] == child && child[|source|] == name;
    assert !Grafted(orig, source, target, done, target + [name]);
    if Below(child, target + [name]) {
      BelowChild(source, name, target + [name]);
      ApartPaths(source, target, target + [name]);
    } else if Below(target + [name], child) {
      BelowChild(target, name, child);
    }
  }

  lemma LinkSkipped(orig: Nodes, source: Path, target: Path, done: set<string>, name: string)
    requires WellFormed(orig) && source + [name] in orig && orig[source + [name]].Link?
    ensures GraftOf(orig, source, target, done) == GraftOf(orig, source, target, done + {name})
  {
    var child := source + [name];
    GraftIs(orig, source, target, done);
    GraftIs(orig, source, target, done + {name});
    LeafAlone(orig, child);
    forall q ensures Grafted(orig, source, target, done, q) <==> Grafted(orig, source, target, done + {name}, q) {
      if Below(target, q) {
        var p := source + q[|target|..];
        assert Below(source, p);
        if |p| > |source| {
          BelowChild(source, p[|source|], p);
          assert p in orig && p[|source|] == name ==> p in Subtree(orig, child);
        }
      }
    }
  }

  lemma EntryCounted(before: Nodes, after: Nodes, target: Path, name: string)
    requires WellFormed(before) && target in before && target + [name] !in before
    requires SameOutside(before, after, target + [name])
    ensures target in after
    ensures |Subtree(after, target)| == |Subtree(before, target)| + |Subtree(after, target + [name])|
  {
    var child := target + [name];
    Unchanged(before, child);
    forall p: Path ensures Below(child, p) ==> Below(target, p) {
      BelowChild(target, name, p);
    }
    forall p ensures p in Subtree(after, target) <==> p in Subtree(before, target) + Subtree(after, child) {
      assert p !in Subtree(before, child);
    }
    assert Subtree(after, target) == Subtree(before, target) + Subtree(after, child);
    assert Subtree(before, target) !! Subtree(after, child) by {
      forall p | p in Subtree(before, target) ensures p !in Subtree(after, child) {
        assert p !in Subtree(before, child);
      }
    }
  }

  lemma PartialOutside(
    orig: Nodes, before: Nodes, after: Nodes, source: Path, target: Path, done: set<string>, name: string)
    requires before == orig + GraftOf(orig, source, target, done) && SameOutside(before, after, target + [name])
    ensures SameOutside(orig, after, target)
  {
    GraftIs(orig, source, target, done);
    forall p: Path ensures Below(target + [name], p) ==> Below(target, p) {
      BelowChild(target, name, p);
    }
  }

  /** Inside the place of an entry, its own copy is what the larger copy asks for. */
  lemma EntryInside(
    orig: Nodes, before: Nodes, source: Path, target: Path, done: set<string>, name: string, q: Path)
    requires WellFormed(orig) && Apart(source, target) && SameOutside(orig, before, target)
    requires Below(target + [name], q)
    ensures Below(target, q) && source + [name] + q[|target| + 1..] == source + q[|target|..]
    ensures Grafted(before, source + [name], target + [name], ChildNames(before, source + [name]), q) <==>
            Grafted(orig, source, target, done + {name}, q)
    ensures var p := source + q[|target|..];
            (p in before <==> p in orig) && (p in before ==> before[p] == orig[p])
  {
    var child := source + [name];
    BelowChild(target, name, q);
    var p := source + q[|target|..];
    assert q[|target|..] == [name] + q[|target| + 1..];
    assert p == child + q[|target| + 1..] && Below(source, p) && Below(child, p);
    assert p[|source|] == name;
    ApartPaths(source, target, p);
    forall k | |child| <= k <= |p| && p[..k] in orig ensures p[..k] in before {
      assert p[..k][..|source|] == source;
      ApartPaths(source, target, p[..k]);
    }
    CountedChild(orig, before, child, p);
  }

  /** Beside that place nothing is added. */
  lemma EntryBeside(orig: Nodes, source: Path, target: Path, done: set<string>, name: string, q: Path)
    requires !Below(target + [name], q)
    ensures Grafted(orig, source, target, done + {name}, q) <==> Grafted(orig, source, target, done, q)
  {
    BelowChild(target, name, q);
    if Below(target, q) && |q| > |target| {
      assert (source + q[|target|..])[|source|] == q[|target|];
    }
  }

  lemma GraftOutside(orig: Nodes, source: Path, target: Path, done: set<string>)
    requires WellFormed(orig) && target !in orig
    ensures SameOutside(orig, orig + GraftOf(orig, source, target, done), target)
    ensures forall q :: Below(target, q) ==>
              (q in orig + GraftOf(orig, source, target, done) <==> Grafted(orig, source, target, done, q))
  {
    GraftIs(orig, source, target, done);
    Unchanged(orig, target);
    forall q | Below(target, q) ensures q !in orig {
      assert q !in Subtree(orig, target);
    }
  }

  /** One path of the copy with one more entry. */
  lemma EntryAt(
    orig: Nodes, before: Nodes, source: Path, target: Path, done: set<string>, name: string, q: Path)
    requires WellFormed(orig) && target !in orig && Apart(source, target) && name !in done
    requires before == orig + GraftOf(orig, source, target, done)
    ensures var left := before + Graft(before, source + [name], target + [name]);
            var right := orig + GraftOf(orig, source, target, done + {name});
            (q in left <==> q in right) && (q in left ==> left[q] == right[q])
  {
    var child, place := source + [name], target + [name];
    GraftOutside(orig, source, target, done);
    GraftIs(orig, source, target, done);
    GraftIs(orig, source, target, done + {name});
    GraftIs(before, child, place, ChildNames(before, child));
    hide GraftOf, ChildNames;
    if Below(place, q) {
      EntryInside(orig, before, source, target, done, name, q);
      BelowChild(target, name, q);
      assert (source + q[|target|..])[|source|] == name;
      assert !Grafted(orig, source, target, done, q);
    } else {
      EntryBeside(orig, source, target, done, name, q);
    }
  }

  /** The copy of one more entry extends the copy of the entries before it. */
  lemma EntryGrafted(orig: Nodes, before: Nodes, source: Path, target: Path, done: set<string>, name: string)
    requires WellFormed(orig) && target !in orig && Apart(source, target) && name !in done
    requires before == orig + GraftOf(orig, source, target, done)
    ensures before + Graft(before, source + [name], target + [name]) ==
            orig + GraftOf(orig, source, target, done + {name})
  {
    hide Graft, GraftOf;
    forall q: Path
      ensures var left := before + Graft(before, source + [name], target + [name]);
              var right := orig + GraftOf(orig, source, target, done + {name});
              (q in left <==> q in right) && (q in left ==> left[q] == right[q])
    {
      EntryAt(orig, before, source, target, done, name, q);
    }
  }

  /** A path below a directory goes through one of its children. */
  lemma CountedChild(orig: Nodes, before: Nodes, child: Path, p: Path)
    requires WellFormed(orig) && Below(child, p)
    requires forall k :: |child| <= k <= |p| && p[..k] in orig ==> p[..k] in before
    ensures p in orig && |p| > |child| ==> p[|child|] in ChildNames(before, child)
  {
    if p in orig && |p| > |child| {
      PrefixIn(orig, p, |child| + 1);
      assert p[..|child| + 1] == child + [p[|child|]];
      ChildName(before, child, p[|child|]);
    }
  }

  lemma AllGrafted(
    orig: Nodes, nodes: Nodes, source: Path, target: Path, done: set<string>, names: seq<string>)
    requires WellFormed(orig) && Apart(source, target) && nodes == orig + GraftOf(orig, source, target, done)
    requires done == (set n | n in names) && forall n :: n in names <==> source + [n] in orig[target := Dir]
    ensures nodes == orig + Graft(orig, source, target) && SameOutside(orig, nodes, target)
  {
    forall n ensures n in done <==> n in ChildNames(orig, source) {
      ChildName(orig, source, n);
      assert Below(source, source + [n]);
      ApartPaths(source, target, source + [n]);
      assert source + [n] != target by { assert Below(target, target); }
    }
    assert done == ChildNames(orig, source);
    GraftIs(orig, source, target, done);
  }

  /** A change inside a child is a change inside its parent. */
  lemma WithinParent(before: Nodes, after: Nodes, path: Path, name: string)
    requires SameOutside(before, after, path + [name])
    requires Subtree(after, path + [name]) <= Subtree(before, path + [name])
    ensures SameOutside(before, after, path) && Subtree(after, path) <= Subtree(before, path)
    ensures path in before <==> path in after
    ensures path in before ==> after[path] == before[path]
  {
    var child := path + [name];
    assert !Below(child, path);
    forall p: Path ensures Below(child, p) ==> Below(path, p) {
      BelowChild(path, name, p);
    }
    forall p | p in Subtree(after, path) ensures p in Subtree(before, path) {
      assert Below(child, p) ==> p in Subtree(after, child);
    }
  }

  lemma ChildRemoved(before: Nodes, after: Nodes, path: Path, name: string)
    requires SameOutside(before, after, path + [name]) && Subtree(after, path + [name]) == {}
    ensures |Subtree(after, path)| + |Subtree(before, path + [name])| == |Subtree(before, path)|
  {
    var child := path + [name];
    var all, gone := Subtree(before, path), Subtree(before, child);
    forall p: Path ensures p in gone ==> p in all {
      BelowChild(path, name, p);
    }
    forall p ensures p in Subtree(after, path) <==> p in all - gone {
      assert p !in Subtree(after, child);
    }
    assert Subtree(after, path) == all - gone;
    assert all == (all - gone) + gone;
  }

  lemma ParentLarger(nodes: Nodes, path: Path, name: string)
    requires path in nodes
    ensures |Subtree(nodes, path)| >= |Subtree(nodes, path + [name])| + 1
  {
    var child := path + [name];
    forall p | p in Subtree(nodes, child) ensures p in Subtree(nodes, path) - {path} {
      BelowChild(path, name, p);
    }
    SubsetSize(Subtree(nodes, child), Subtree(nodes, path) - {path});
    assert path in Subtree(nodes, path);
  }

  lemma SiblingKept(before: Nodes, after: Nodes, path: Path, name: string, other: string)
    requires SameOutside(before, after, path + [name]) && name != other
    ensures Subtree(before, path + [other]) == Subtree(after, path + [other])
    ensures path + [other] in before <==> path + [other] in after
  {
    forall p: Path ensures Below(path + [other], p) ==> !Below(path + [name], p) {
      BelowChild(path, name, p);
      BelowChild(path, other, p);
    }
    assert Below(path + [other], path + [other]);
  }

  lemma {:induction false} PrefixIn(nodes: Nodes, p: Path, k: nat)
    requires WellFormed(nodes) && p in nodes && k <= |p|
    ensures p[..k] in nodes && (k < |p| ==> nodes[p[..k]].Dir?)
    decreases |p| - k
  {
    if k == |p| {
      assert p[..k] == p;
    } else {
      PrefixIn(nodes, p, k + 1);
      assert p[..k + 1][..k] == p[..k];
      assert InDirectory(nodes, p[..k + 1]);
    }
  }

  lemma LeafAlone(nodes: Nodes, path: Path)
    requires WellFormed(nodes) && path in nodes && !nodes[path].Dir?
    ensures Subtree(nodes, path) == {path}
  {
    assert path in Subtree(nodes, path);
    forall p | p in Subtree(nodes, path) ensures p == path {
      assert p[..|path|] == path;
      PrefixIn(nodes, p, |path|);
      assert |p| == |path| ==> p == path;
    }
  }

  lemma SomeChild(nodes: Nodes, path: Path, p: Path)
    requires WellFormed(nodes) && p in Subtree(nodes, path) && p != path
    ensures |p| > |path| && path + [p[|path|]] in Subtree(nodes, path)
    ensures p in Subtree(nodes, path + [p[|path|]])
  {
    assert p[..|path|] == path;
    assert |p| > |path| by {
      assert |p| == |path| ==> p == path;
    }
    BelowChild(path, p[|path|], p);
    PrefixIn(nodes, p, |path| + 1);
    assert p[..|path| + 1] == path + [p[|path|]];
  }

  /** When every listed child is gone, only the directory itself is left. */
  lemma OnlyRoot(before: Nodes, after: Nodes, path: Path, names: seq<string>)
    requires WellFormed(after) && path in after && Subtree(after, path) <= Subtree(before, path)
    requires forall n :: n in names <==> path + [n] in before
    requires forall k :: 0 <= k < |names| ==> Subtree(after, path + [names[k]]) == {}
    ensures Subtree(after, path) == {path}
  {
    forall n | n in names ensures Subtree(after, path + [n]) == {} {
      var k :| 0 <= k < |names| && names[k] == n;
    }
    assert path in Subtree(after, path);
    forall p | p in Subtree(after, path) ensures p == path {
      if p != path {
        SomeChild(after, path, p);
      }
    }
  }

  lemma ChildName(nodes: Nodes, path: Path, n: string)
    ensures n in ChildNames(nodes, path) <==> path + [n] in nodes
  {
    if n in ChildNames(nodes, path) {
      var p :| p in nodes && |p| == |path| + 1 && Below(path, p) && p[|path|] == n;
      assert p == path + [n];
    }
    if path + [n] in nodes {
      assert (path + [n])[|path|] == n;
    }
  }

  lemma RootCounted(nodes: Nodes, path: Path)
    ensures path in nodes ==> |Subtree(nodes, path)| >= 1
  {
    if path in nodes {
      assert path in Subtree(nodes, path);
    }
  }

  // ----- facts about visits -----

  lemma RootVisited(nodes: Nodes, root: Path)
    requires WellFormed(nodes) && root in nodes
    ensures nodes[root].Link? ==> Visited(nodes, root) == {}
    ensures !nodes[root].Link? ==> |Visited(nodes, root)| >= 1
    ensures nodes[root].File? || nodes[root].Special? ==> |Visited(nodes, root)| == 1
  {
    assert Below(root, root);
    if !nodes[root].Dir? {
      LeafAlone(nodes, root);
      forall p | p in Visited(nodes, root) ensures p == root {
        assert p in Subtree(nodes, root);
      }
      assert Visited(nodes, root) == if nodes[root].Link? then {} else {root};
    } else {
      assert root in Visited(nodes, root);
    }
  }

  lemma NoneVisited(nodes: Nodes, root: Path)
    ensures VisitedAmong(nodes, root, {}) == {}
  {
  }

  /** The visits below one more name are those of its tree. */
  lemma OneMoreVisited(nodes: Nodes, root: Path, names: set<string>, name: string)
    requires WellFormed(nodes) && root + [name] in nodes && name !in names
    ensures |VisitedAmong(nodes, root, names + {name})| ==
            |VisitedAmong(nodes, root, names)| + |Visited(nodes, root + [name])|
    ensures nodes[root + [name]].Link? ==> Visited(nodes, root + [name]) == {}
  {
    RootVisited(nodes, root + [name]);
    var more, some, below := VisitedAmong(nodes, root, names + {name}), VisitedAmong(nodes, root, names),
      Visited(nodes, root + [name]);
    forall p
      ensures p in more <==> p in some || p in below
      ensures p in some ==> p !in below
    {
      OneVisited(nodes, root, names, name, p);
    }
    hide VisitedAmong, Visited, WellFormed;
    assert more == some + below && some !! below;
  }

  lemma OneVisited(nodes: Nodes, root: Path, names: set<string>, name: string, p: Path)
    requires name !in names
    ensures p in VisitedAmong(nodes, root, names + {name}) <==>
            p in VisitedAmong(nodes, root, names) || p in Visited(nodes, root + [name])
    ensures p in VisitedAmong(nodes, root, names) ==> p !in Visited(nodes, root + [name])
  {
    BelowChild(root, name, p);
  }

  /** The visits among some names, and that of the root, are visits of the tree. */
  lemma SomeVisited(nodes: Nodes, root: Path, names: set<string>)
    requires root in nodes && nodes[root].Dir?
    ensures |VisitedAmong(nodes, root, names)| + 1 <= |Visited(nodes, root)|
  {
    assert Below(root, root) && root in Visited(nodes, root);
    SubsetSize(VisitedAmong(nodes, root, names), Visited(nodes, root) - {root});
  }

  lemma AllVisited(nodes: Nodes, root: Path, target: Path, done: set<string>, names: seq<string>)
    requires WellFormed(nodes) && root in nodes && nodes[root].Dir? && target !in nodes
    requires done == (set n | n in names) && forall n :: n in names <==> root + [n] in nodes[target := Dir]
    ensures |Visited(nodes, root)| == |VisitedAmong(nodes, root, done)| + 1
  {
    assert Below(root, root) && root in Visited(nodes, root);
    forall p ensures p in Visited(nodes, root) - {root} <==> p in VisitedAmong(nodes, root, done) {
      if p in Visited(nodes, root) && p != root {
        assert p in Subtree(nodes, root);
        SomeChild(nodes, root, p);
      }
    }
    assert Visited(nodes, root) - {root} == VisitedAmong(nodes, root, done);
  }

  /** The next entry can be created, and its tree is visited as it was before the copy began. */
  lemma SameVisited(orig: Nodes, nodes: Nodes, source: Path, target: Path, done: set<string>, name: string)
    requires WellFormed(orig) && source in orig && orig[source].Dir? && target !in orig && Apart(source, target)
    requires nodes == orig + GraftOf(orig, source, target, done) && target + [name] !in nodes && target in nodes
    ensures Visited(nodes, source + [name]) == Visited(orig, source + [name])
    ensures CanCreate(nodes, target + [name])
  {
    GraftOutside(orig, source, target, done);
    GraftIs(orig, source, target, done);
    forall p | Below(source + [name], p) ensures p in nodes <==> p in orig
      ensures p in orig ==> nodes[p] == orig[p]
    {
      BelowChild(source, name, p);
      ApartPaths(source, target, p);
    }
    assert (target + [name])[..|target|] == target;
    assert target[|target|..] == [] && source + [] == source && Below(target, target);
    assert Grafted(orig, source, target, done, target);
  }

  // ----- facts about renaming -----

  lemma FollowOrigin(nodes: Nodes, source: Path, target: Path, p: Path)
    requires WellFormed(nodes) && target !in nodes && p in nodes
    ensures Origin(source, target, Follow(source, target, p)) == p
  {
    if Below(source, p) {
      var q := target + p[|source|..];
      assert Below(target, q) && q[|target|..] == p[|source|..] && source + p[|source|..] == p;
    } else {
      Unchanged(nodes, target);
      assert Below(target, p) ==> p in Subtree(nodes, target);
    }
  }

  /** A rename loses nothing and changes no entry: every entry is found at the place it has gone to. */
  lemma RelocatedKeeps(nodes: Nodes, source: Path, target: Path)
    requires WellFormed(nodes) && target !in nodes
    ensures forall p :: p in nodes ==>
              Follow(source, target, p) in Relocated(nodes, source, target)
              && Relocated(nodes, source, target)[Follow(source, target, p)] == nodes[p]
    ensures forall q :: q in Relocated(nodes, source, target) ==>
              Origin(source, target, q) in nodes && Follow(source, target, Origin(source, target, q)) == q
    ensures forall p, r :: p in nodes && r in nodes && Follow(source, target, p) == Follow(source, target, r) ==> p == r
  {
    forall p | p in nodes ensures Origin(source, target, Follow(source, target, p)) == p {
      FollowOrigin(nodes, source, target, p);
    }
    hide Follow, Origin;
    forall q | q in FollowPaths(nodes, source, target)
      ensures Origin(source, target, q) in nodes && Follow(source, target, Origin(source, target, q)) == q
    {
      var p :| p in nodes && q == Follow(source, target, p);
    }
  }

  /** Entries keep their number. */
  lemma {:induction false} SameCount(paths: set<Path>, source: Path, target: Path)
    requires forall p, r ::
               p in paths && r in paths && Follow(source, target, p) == Follow(source, target, r) ==> p == r
    ensures |set p | p in paths :: Follow(source, target, p)| == |paths|
    decreases |paths|
  {
    hide Follow;
    if paths == {} {
      assert (set p | p in paths :: Follow(source, target, p)) == {};
    } else {
      var x :| x in paths;
      var rest := paths - {x};
      SameCount(rest, source, target);
      assert (set p | p in paths :: Follow(source, target, p)) ==
             (set p | p in rest :: Follow(source, target, p)) + {Follow(source, target, x)};
    }
  }

  lemma RelocatedCount(nodes: Nodes, source: Path, target: Path)
    requires WellFormed(nodes) && target !in nodes
    ensures |Relocated(nodes, source, target)| == |nodes|
  {
    RelocatedKeeps(nodes, source, target);
    SameCount(nodes.Keys, source, target);
    assert (set p | p in nodes.Keys :: Follow(source, target, p)) == FollowPaths(nodes, source, target);
    assert Relocated(nodes, source, target).Keys == FollowPaths(nodes, source, target);
  }

  /** Every entry still lies in a directory. */
  lemma RelocatedWellFormed(nodes: Nodes, source: Path, target: Path)
    requires WellFormed(nodes) && source in nodes && source != [] && CanCreate(nodes, target) && !Below(source, target)
    ensures WellFormed(Relocated(nodes, source, target))
  {
    RelocatedKeeps(nodes, source, target);
    var after := Relocated(nodes, source, target);
    forall q | q in after && q != [] ensures InDirectory(after, q) {
      var p := Origin(source, target, q);
      assert p in nodes && after[q] == nodes[p];
      ParentFollows(nodes, source, target, p);
    }
  }

  lemma BelowParent(root: Path, p: Path)
    requires p != []
    ensures Below(root, p[..|p| - 1]) ==> Below(root, p)
  {
    assert Below(root, p[..|p| - 1]) ==> p[..|root|] == p[..|p| - 1][..|root|];
  }

  lemma ParentFollows(nodes: Nodes, source: Path, target: Path, p: Path)
    requires WellFormed(nodes) && source != [] && CanCreate(nodes, target) && !Below(source, target) && p in nodes
    requires Follow(source, target, p) != []
    ensures var q := Follow(source, target, p);
            exists r :: r in nodes && nodes[r].Dir? && Follow(source, target, r) == q[..|q| - 1]
  {
    var q := Follow(source, target, p);
    if p == source {
      var parent := target[..|target| - 1];
      assert q == target;
      BelowParent(source, target);
      assert Follow(source, target, parent) == parent;
    } else if Below(source, p) {
      assert |p| > |source| by {
        assert |p| == |source| ==> p == source;
      }
      var parent := p[..|p| - 1];
      assert parent[..|source|] == p[..|source|] && Below(source, parent) && InDirectory(nodes, p);
      assert target + parent[|source|..] == q[..|q| - 1];
    } else {
      var parent := p[..|p| - 1];
      assert InDirectory(nodes, p);
      BelowParent(source, p);
      assert Follow(source, target, parent) == parent;
    }
  }
}
