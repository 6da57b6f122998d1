/**
 Copying a list of remote entries into a directory: where each copy goes, what a conflict does, and what the
 whole request has done to the file system when it ends.
 */
module RemoteOperation {
  import opened Common
  import opened RemoteCopy

  const CANDIDATES := 999

  datatype Operation = Copy | Move

  datatype Conflict = Skip | Overwrite | Rename

  datatype Resolution = Place(target: Path) | Cleared(target: Path) | NotCopied | Refused

  /** What a successful request has done for one of its paths. */
  datatype Deed =
    | Stayed(source: Path)
    | Copied(source: Path, target: Path)
    | Replaced(source: Path, target: Path)
    | Moved(source: Path, target: Path)
    | MovedOver(source: Path, target: Path)

  // ----- names -----

  function Decimal(n: nat): string {
    if n < 10 then [DIGITS[n]] else Decimal(n / 10) + [DIGITS[n % 10]]
  }

  const DIGITS := "0123456789"

  function LastDot(name: string, end: nat): (i: int)
    requires end <= |name|
    ensures -1 <= i < end
    ensures i >= 0 ==> name[i] == '.'
    ensures forall k :: i < k < end ==> name[k] != '.'
  {
    if end == 0 then -1 else if name[end - 1] == '.' then end - 1 else LastDot(name, end - 1)
  }

  /** Where the extension of a file name starts; a leading dot starts none. */
  function ExtensionStart(name: string): (i: nat)
    ensures i <= |name|
  {
    var dot := LastDot(name, |name|);
    if dot <= 0 || name == ".." then |name| else dot
  }

  function Sibling(path: Path, name: string): Path
    requires path != []
  {
    path[..|path| - 1] + [name]
  }

  function Candidate(requested: Path, directory: bool, index: nat): Path
    requires requested != []
  {
    var name := requested[|requested| - 1];
    var start := if directory then |name| else ExtensionStart(name);
    Sibling(requested, name[..start] + "(copy-" + Decimal(index) + ")" + name[start..])
  }

  /** The entry of the destination that a source asks for. */
  function Requested(source: Path, destination: Path): Path {
    if source == [] then destination else destination + [source[|source| - 1]]
  }

  // ----- the meaning of a request -----

  function Without(nodes: Nodes, root: Path): Nodes {
    nodes - Subtree(nodes, root)
  }

  ghost predicate Numbered(nodes: Nodes, requested: Path, directory: bool, target: Path, index: nat)
    requires requested != []
  {
    && 1 <= index <= CANDIDATES && target == Candidate(requested, directory, index)
    && forall j :: 1 <= j < index ==> Candidate(requested, directory, j) in nodes
  }

  /** The requested name, or when renaming the first numbered name that is not taken. */
  ghost predicate Chosen(nodes: Nodes, requested: Path, conflict: Conflict, directory: bool, target: Path)
    requires requested != []
  {
    || target == requested
    || (conflict == Rename && requested in nodes
        && exists index :: Numbered(nodes, requested, directory, target, index))
  }

  function Effect(nodes: Nodes, deed: Deed): Nodes {
    match deed
    case Stayed(_) => nodes
    case Copied(source, target) => nodes + Graft(nodes, source, target)
    case Replaced(source, target) =>
      var cleared := Without(nodes, target);
      cleared + Graft(cleared, source, target)
    case Moved(source, target) => Relocated(nodes, source, target)
    case MovedOver(source, target) => Relocated(Without(nodes, target), source, target)
  }

  function Replay(nodes: Nodes, deeds: seq<Deed>): Nodes {
    if deeds == [] then nodes else Effect(Replay(nodes, deeds[..|deeds| - 1]), deeds[|deeds| - 1])
  }

  /** An entry may be placed in the destination: no link, and no directory inside itself. */
  predicate Allowed(node: Node, source: Path, destination: Path) {
    !node.Link? && !(node.Dir? && Below(source, destination))
  }

  /** The deed is what the rules ask for in this state of the file system. */
  ghost predicate Justified(nodes: Nodes, deed: Deed, destination: Path, operation: Operation, conflict: Conflict) {
    deed.source in nodes &&
    var node, requested := nodes[deed.source], Requested(deed.source, destination);
    match deed
    case Stayed(_) =>
      || node.Link? || (conflict == Skip && requested in nodes)
      || (operation == Move && requested == deed.source)
    case Copied(source, target) =>
      && operation == Copy && requested != [] && Allowed(node, source, destination)
      && Chosen(nodes, requested, conflict, node.Dir?, target)
      && (Copyable(node) ==> target !in nodes)
    case Replaced(source, target) =>
      && operation == Copy && conflict == Overwrite && Allowed(node, source, destination)
      && target == requested && target in nodes && target != source
      && (Copyable(node) ==> !Below(target, source))
    case Moved(source, target) =>
      && operation == Move && requested != [] && requested != source && Allowed(node, source, destination)
      && Chosen(nodes, requested, conflict, node.Dir?, target) && target !in nodes
    case MovedOver(source, target) =>
      && operation == Move && conflict == Overwrite && Allowed(node, source, destination)
      && target == requested && target in nodes && !Below(target, source)
  }

  ghost predicate AllJustified(
    nodes: Nodes, deeds: seq<Deed>, destination: Path, operation: Operation, conflict: Conflict)
  {
    forall i :: 0 <= i < |deeds| ==> InPlace(Replay(nodes, deeds[..i]), deeds[i], destination, operation, conflict)
  }

  ghost predicate InPlace(nodes: Nodes, deed: Deed, destination: Path, operation: Operation, conflict: Conflict) {
    WellFormed(nodes) && Justified(nodes, deed, destination, operation, conflict)
  }

  function Sources(deeds: seq<Deed>): seq<Path> {
    seq(|deeds|, i requires 0 <= i < |deeds| => deeds[i].source)
  }

  /** The paths without their repetitions. */
  function Distinct(paths: seq<Path>): (r: seq<Path>)
    ensures forall p :: p in r <==> p in paths
    ensures forall i, j :: 0 <= i < j < |r| ==> r[i] != r[j]
  {
    if paths == [] then [] else
      var before := Distinct(paths[..|paths| - 1]);
      var last := paths[|paths| - 1];
      assert paths == paths[..|paths| - 1] + [last];
      if last in before then before else before + [last]
  }

  // ----- when a request succeeds -----

  /** What a deed takes from the budget. */
  function Cost(nodes: Nodes, deed: Deed): nat {
    if deed.Copied? || deed.Replaced? then |Visited(nodes, deed.source)| else 0
  }

  function Spent(nodes: Nodes, deeds: seq<Deed>): nat {
    if deeds == [] then 0
    else
      var before := deeds[..|deeds| - 1];
      Spent(nodes, before) + Cost(Replay(nodes, before), deeds[|deeds| - 1])
  }

  /** The rules find a place for the entry, or leave it where it is. */
  ghost predicate PlaceLeft(nodes: Nodes, source: Path, requested: Path, conflict: Conflict, directory: bool)
    requires requested != []
  {
    requested in nodes ==>
      match conflict
      case Skip => true
      case Overwrite => source != requested && |Subtree(nodes, requested)| <= ENTRY_LIMIT
      case Rename => exists j :: 1 <= j <= CANDIDATES && Candidate(requested, directory, j) !in nodes
  }

  /** What is cleared away for the entry is not the entry itself; nothing is needed of what is not copied. */
  predicate SurvivesClearing(nodes: Nodes, source: Path, requested: Path, operation: Operation, conflict: Conflict)
    requires source in nodes
  {
    requested in nodes && conflict == Overwrite && Below(requested, source) ==>
      operation == Copy && !Copyable(nodes[source])
  }

  /** Nothing but a failing request can keep the operation from handling this path. */
  ghost predicate CanSucceed(
    nodes: Nodes, source: Path, destination: Path, operation: Operation, conflict: Conflict, budget: int)
  {
    source in nodes &&
    var node, requested := nodes[source], Requested(source, destination);
    || node.Link?
    || (Allowed(node, source, destination) && source != [] &&
        (|| (operation == Move && requested == source)
         || (PlaceLeft(nodes, source, requested, conflict, node.Dir?) &&
             (|| (requested in nodes && conflict == Skip)
              || (SurvivesClearing(nodes, source, requested, operation, conflict)
                  && (operation == Copy ==> |Visited(nodes, source)| <= budget))))))
  }

  /** What is cleared away for the entry holds the entry itself, and the entry is needed. */
  predicate LosesSource(nodes: Nodes, source: Path, destination: Path, operation: Operation, conflict: Conflict) {
    && conflict == Overwrite && source in nodes && source != [] && !nodes[source].Link?
    && (operation == Move || Copyable(nodes[source]))
    && var requested := Requested(source, destination);
       && requested in nodes && requested != source && Below(requested, source)
       && |Subtree(nodes, requested)| <= ENTRY_LIMIT
  }

  /** The tree at root is as it was. */
  ghost predicate SameTree(before: Nodes, after: Nodes, root: Path) {
    forall p :: Below(root, p) ==> (p in before <==> p in after) && (p in before ==> before[p] == after[p])
  }

  predicate IsDirectory(nodes: Nodes, path: Path) {
    path in nodes && nodes[path].Dir?
  }

  /** Every deed was possible when its turn came, within what was left of the budget. */
  ghost predicate AllPossible(
    nodes: Nodes, deeds: seq<Deed>, destination: Path, operation: Operation, conflict: Conflict)
  {
    forall i :: 0 <= i < |deeds| ==> PossibleAt(nodes, deeds, i, destination, operation, conflict)
  }

  ghost predicate PossibleAt(
    nodes: Nodes, deeds: seq<Deed>, i: nat, destination: Path, operation: Operation, conflict: Conflict)
    requires i < |deeds|
  {
    CanSucceed(
      Replay(nodes, deeds[..i]), deeds[i].source, destination, operation, conflict,
      ENTRY_LIMIT - Spent(nodes, deeds[..i]))
  }

  // ----- the operation -----

  method RemoteExists(sftp: Sftp, path: Path) returns (found: bool)
    modifies sftp`failed
    ensures found ==> path in sftp.nodes
    ensures (old(sftp.failed) ==> sftp.failed) && (!sftp.failed && path in sftp.nodes ==> found)
  {
    var node := sftp.Lstat(path);
    found := node.Some?;
  }

  /** Decides the place of a copy; overwriting removes what is there. */
  method ResolveTarget(sftp: Sftp, source: Path, requested: Path, conflict: Conflict, directory: bool)
    returns (r: Resolution)
    requires WellFormed(sftp.nodes) && requested != []
    modifies sftp
    ensures WellFormed(sftp.nodes) && SameOutside(old(sftp.nodes), sftp.nodes, requested)
    ensures sftp.nodes.Keys <= old(sftp.nodes).Keys
    ensures r.NotCopied? ==> sftp.nodes == old(sftp.nodes) && conflict == Skip && requested in sftp.nodes
    ensures r.Place? ==>
              sftp.nodes == old(sftp.nodes) && Chosen(sftp.nodes, requested, conflict, directory, r.target)
    ensures r.Cleared? ==>
              && conflict == Overwrite && requested in old(sftp.nodes) && source != requested
              && r.target == requested && sftp.nodes == Without(old(sftp.nodes), requested)
    ensures r.Refused? && conflict != Overwrite ==>
              && sftp.nodes == old(sftp.nodes) && conflict == Rename && requested in sftp.nodes
              && forall j :: 1 <= j <= CANDIDATES ==> Candidate(requested, directory, j) in sftp.nodes
    ensures r.Refused? ==> requested in old(sftp.nodes)
    ensures r.Cleared? ==> |Subtree(old(sftp.nodes), requested)| <= ENTRY_LIMIT
    ensures (old(sftp.failed) ==> sftp.failed) && (!sftp.failed && r.Place? ==> r.target !in sftp.nodes)
    ensures !sftp.failed && r.Refused? && conflict == Overwrite ==>
              source == requested || |Subtree(old(sftp.nodes), requested)| > ENTRY_LIMIT
  {
    hide WellFormed, SameOutside, Subtree, Candidate;
    Unchanged(sftp.nodes, requested);
    var found := RemoteExists(sftp, requested);
    if !found { return Place(requested); }
    if conflict == Skip { return NotCopied; }
    if conflict == Overwrite {
      if source == requested { return Refused; }
      var removal, _ := sftp.RemoveTree(requested, ENTRY_LIMIT);
      NothingAdded(old(sftp.nodes), sftp.nodes, requested);
      if removal != Removed { return Refused; }
      TreeGone(old(sftp.nodes), sftp.nodes, requested);
      return Cleared(requested);
    }
    for index := 1 to CANDIDATES + 1
      invariant sftp.nodes == old(sftp.nodes) && (old(sftp.failed) ==> sftp.failed)
      invariant forall j :: 1 <= j < index ==> Candidate(requested, directory, j) in sftp.nodes
    {
      var candidate := Candidate(requested, directory, index);
      var taken := RemoteExists(sftp, candidate);
      if !taken {
        assert Numbered(sftp.nodes, requested, directory, candidate, index);
        return Place(candidate);
      }
    }
    return Refused;
  }

  /** Handles one path of the request. When it fails, only the tree at broken may differ. */
  method OperateOne(sftp: Sftp, source: Path, destination: Path, operation: Operation, conflict: Conflict, budget: int)
    returns (ok: bool, left: int, ghost deed: Deed, ghost broken: Path)
    requires WellFormed(sftp.nodes) && destination in sftp.nodes && sftp.nodes[destination].Dir?
    requires 0 <= budget <= ENTRY_LIMIT
    modifies sftp
    ensures WellFormed(sftp.nodes) && destination in sftp.nodes && sftp.nodes[destination].Dir?
    ensures ok ==>
              && deed.source == source && Justified(old(sftp.nodes), deed, destination, operation, conflict)
              && sftp.nodes == Effect(old(sftp.nodes), deed) && 0 <= left
    ensures !ok || operation == Copy ==> SameOutside(old(sftp.nodes), sftp.nodes, broken)
    ensures !ok && operation == Move && conflict != Overwrite ==> sftp.nodes == old(sftp.nodes)
    ensures Below(destination, broken) && broken != destination
    ensures left <= budget && |sftp.nodes| <= |old(sftp.nodes)| + Used(budget, left)
    ensures ok ==> left == budget - Cost(old(sftp.nodes), deed)
    ensures old(sftp.failed) ==> sftp.failed
    ensures !sftp.failed ==> (ok <==> CanSucceed(old(sftp.nodes), source, destination, operation, conflict, budget))
    ensures !sftp.failed && !ok && conflict != Overwrite ==> sftp.nodes == old(sftp.nodes)
    ensures operation == Copy && source in old(sftp.nodes) && !Below(Requested(source, destination), source) ==>
              SameTree(old(sftp.nodes), sftp.nodes, source)
    ensures !sftp.failed && LosesSource(old(sftp.nodes), source, destination, operation, conflict) ==>
              !ok && sftp.nodes == Without(old(sftp.nodes), Requested(source, destination))
  {
    hide WellFormed, SameOutside, Subtree, Candidate, Graft, Relocated, Chosen, Below, Visited, SameTree;
    hide CanSucceed, PlaceLeft, SurvivesClearing, Requested, Justified, Effect, Cost, Without, AtMostUnlinked;
    hide LosesSource;
    ok, left, deed, broken := false, budget, Stayed(source), destination + [""];
    Unchanged(sftp.nodes, broken);
    SameSelf(sftp.nodes, source);
    BelowEntry(destination, "");
    AtOnce(sftp.nodes, source, destination, operation, conflict, budget);
    StayingDeed(sftp.nodes, source, destination, operation, conflict);
    LosingSource(sftp.nodes, source, destination, operation, conflict);
    var found := sftp.Lstat(source);
    if found.None? { return; }
    var metadata := found.value;
    if metadata.Link? { return true, left, deed, broken; }
    if metadata.Dir? && Below(source, destination) { return; }
    NotTheRoot(sftp.nodes, source, destination);
    var requested := Requested(source, destination);
    if requested == source && operation == Move { return true, left, deed, broken; }
    RequestedEntry(source, destination);
    broken := requested;
    var resolution := ResolveTarget(sftp, source, requested, conflict, metadata.Dir?);
    ghost var before := sftp.nodes;
    DestinationKept(old(sftp.nodes), before, destination, requested);
    SubsetSize(before.Keys, old(sftp.nodes).Keys);
    SourceSpared(old(sftp.nodes), before, source, destination, requested);
    if resolution == NotCopied {
      SkipSucceeds(before, source, destination, operation, budget);
      return true, left, deed, broken;
    }
    if resolution == Refused {
      RefusalFails(old(sftp.nodes), sftp.failed, source, destination, operation, conflict, budget);
      return;
    }
    var target := resolution.target;
    broken := target;
    TargetEntry(old(sftp.nodes), source, destination, conflict, metadata.Dir?, target);
    if resolution.Cleared? {
      ok, left, deed := PlaceCleared(sftp, source, destination, operation, metadata, budget, old(sftp.nodes));
      if !ok || operation == Copy { OutsideTwice(old(sftp.nodes), before, sftp.nodes, target); }
    } else {
      Unchanged(before, target);
      FreeChoice(before, requested, conflict, metadata.Dir?, target);
      ok, left, deed := PlaceFree(sftp, source, destination, operation, conflict, target, metadata, budget);
    }
  }

  /** Copies or moves the entry to the place that was found for it. */
  method PlaceFree(
    sftp: Sftp, source: Path, destination: Path, operation: Operation, conflict: Conflict, target: Path, metadata: Node,
    budget: int
  ) returns (ok: bool, left: int, ghost deed: Deed)
    requires WellFormed(sftp.nodes) && IsDirectory(sftp.nodes, destination)
    requires 0 <= budget <= ENTRY_LIMIT && source in sftp.nodes && sftp.nodes[source] == metadata && source != []
    requires !metadata.Link? && Allowed(metadata, source, destination)
    requires Chosen(sftp.nodes, Requested(source, destination), conflict, metadata.Dir?, target)
    requires !sftp.failed ==> target !in sftp.nodes
    requires operation == Move ==> Requested(source, destination) != source
    modifies sftp
    ensures WellFormed(sftp.nodes) && IsDirectory(sftp.nodes, destination)
    ensures ok ==>
              && deed == (if operation == Move then Moved(source, target) else Copied(source, target))
              && Justified(old(sftp.nodes), deed, destination, operation, conflict)
              && sftp.nodes == Effect(old(sftp.nodes), deed) && 0 <= left
              && left == budget - Cost(old(sftp.nodes), deed)
    ensures !ok || operation == Copy ==> SameOutside(old(sftp.nodes), sftp.nodes, target)
    ensures !ok && operation == Move ==> sftp.nodes == old(sftp.nodes)
    ensures left <= budget && |sftp.nodes| <= |old(sftp.nodes)| + Used(budget, left)
    ensures old(sftp.failed) ==> sftp.failed
    ensures !sftp.failed ==> (ok <==> CanSucceed(old(sftp.nodes), source, destination, operation, conflict, budget))
    ensures !sftp.failed && !ok ==> sftp.nodes == old(sftp.nodes)
    ensures operation == Copy && !Below(Requested(source, destination), source) ==>
              SameTree(old(sftp.nodes), sftp.nodes, source)
  {
    hide WellFormed, SameOutside, Subtree, Candidate, Graft, Relocated, Chosen, Below, Visited, SameTree;
    hide CanSucceed, PlaceLeft, SurvivesClearing, Requested;
    ghost var orig := sftp.nodes;
    left := budget;
    Unchanged(orig, target);
    RequestedEntry(source, destination);
    TargetEntry(orig, source, destination, conflict, metadata.Dir?, target);
    if target !in orig { PlaceSucceeds(orig, source, destination, operation, conflict, budget, target); }
    if operation == Move {
      deed := Moved(source, target);
      ok := MoveTo(sftp, source, destination, target);
    } else {
      deed := Copied(source, target);
      ChosenDiffers(orig, source, destination, conflict, metadata.Dir?, target);
      ok, left := CopyTo(sftp, source, destination, target, metadata, budget);
      if !Below(Requested(source, destination), source) {
        RequestedDiffers(source, destination);
        TreeSpared(orig, sftp.nodes, source, destination, target);
      }
    }
  }

  /** Copies or moves the entry to the place that was cleared for it; orig is what was there before. */
  method PlaceCleared(
    sftp: Sftp, source: Path, destination: Path, operation: Operation, metadata: Node, budget: int, ghost orig: Nodes
  ) returns (ok: bool, left: int, ghost deed: Deed)
    requires WellFormed(orig) && WellFormed(sftp.nodes) && IsDirectory(sftp.nodes, destination)
    requires IsDirectory(orig, destination)
    requires 0 <= budget <= ENTRY_LIMIT && source in orig && orig[source] == metadata && source != []
    requires !metadata.Link? && Allowed(metadata, source, destination)
    requires var requested := Requested(source, destination);
             && requested in orig && requested != source && |Subtree(orig, requested)| <= ENTRY_LIMIT
             && sftp.nodes == Without(orig, requested)
             && (!Below(requested, source) ==> SameTree(orig, sftp.nodes, source))
    modifies sftp
    ensures WellFormed(sftp.nodes) && IsDirectory(sftp.nodes, destination)
    ensures ok ==>
              && deed.source == source && (deed.Replaced? || deed.MovedOver?)
              && Justified(orig, deed, destination, operation, Overwrite)
              && sftp.nodes == Effect(orig, deed) && 0 <= left && left == budget - Cost(orig, deed)
    ensures !ok || operation == Copy ==> SameOutside(old(sftp.nodes), sftp.nodes, Requested(source, destination))
    ensures left <= budget && |sftp.nodes| <= |old(sftp.nodes)| + Used(budget, left)
    ensures old(sftp.failed) ==> sftp.failed
    ensures !sftp.failed ==> (ok <==> CanSucceed(orig, source, destination, operation, Overwrite, budget))
    ensures operation == Copy && !Below(Requested(source, destination), source) ==>
              SameTree(orig, sftp.nodes, source)
    ensures !sftp.failed && LosesSource(orig, source, destination, operation, Overwrite) ==>
              !ok && sftp.nodes == old(sftp.nodes)
  {
    hide WellFormed, SameOutside, Subtree, Candidate, Graft, Relocated, Below, Visited, SameTree;
    hide CanSucceed, PlaceLeft, SurvivesClearing, Requested, Without;
    var target := Requested(source, destination);
    ghost var cleared := sftp.nodes;
    left := budget;
    Unchanged(cleared, target);
    RequestedEntry(source, destination);
    StillThere(orig, target, source);
    TargetCleared(orig, target);
    ClearingSucceeds(orig, source, destination, operation, budget);
    if !Below(target, source) { SameVisits(orig, cleared, source); }
    RootVisited(orig, source);
    if operation == Move {
      deed := MovedOver(source, target);
      ok := MoveTo(sftp, source, destination, target);
    } else {
      deed := Replaced(source, target);
      ok, left := CopyTo(sftp, source, destination, target, metadata, budget);
      if !Below(target, source) {
        TreeSpared(cleared, sftp.nodes, source, destination, target);
        SameTreeTwice(orig, cleared, sftp.nodes, source);
      }
    }
  }

  method MoveTo(sftp: Sftp, source: Path, destination: Path, target: Path) returns (ok: bool)
    requires WellFormed(sftp.nodes) && destination in sftp.nodes && sftp.nodes[destination].Dir?
    requires |target| == |destination| + 1 && Below(destination, target)
    requires source in sftp.nodes ==> !(sftp.nodes[source].Dir? && Below(source, destination))
    modifies sftp
    ensures WellFormed(sftp.nodes) && destination in sftp.nodes && sftp.nodes[destination].Dir?
    ensures |sftp.nodes| == |old(sftp.nodes)|
    ensures ok ==>
              && source in old(sftp.nodes) && target !in old(sftp.nodes)
              && sftp.nodes == Relocated(old(sftp.nodes), source, target)
    ensures !ok ==> sftp.nodes == old(sftp.nodes)
    ensures old(sftp.failed) ==> sftp.failed
    ensures !sftp.failed && source in old(sftp.nodes) && source != [] && target !in old(sftp.nodes) ==> ok
  {
    hide WellFormed, Relocated, Below;
    FreeEntry(sftp.nodes, destination, target);
    if source in sftp.nodes && target !in sftp.nodes { PlaceFound(sftp.nodes, source, destination, target); }
    ok := sftp.Rename(source, target);
    if ok {
      RelocatedWellFormed(old(sftp.nodes), source, target);
      RelocatedCount(old(sftp.nodes), source, target);
      DestinationStays(old(sftp.nodes), source, destination, target);
    }
  }

  method CopyTo(sftp: Sftp, source: Path, destination: Path, target: Path, metadata: Node, budget: int)
    returns (ok: bool, left: int)
    requires WellFormed(sftp.nodes) && destination in sftp.nodes && sftp.nodes[destination].Dir?
    requires |target| == |destination| + 1 && Below(destination, target) && 0 <= budget <= ENTRY_LIMIT
    requires source in sftp.nodes || source != target
    requires source in sftp.nodes ==> sftp.nodes[source] == metadata && !(metadata.Dir? && Below(source, destination))
    requires !metadata.Link?
    modifies sftp
    ensures WellFormed(sftp.nodes) && destination in sftp.nodes && sftp.nodes[destination].Dir?
    ensures SameOutside(old(sftp.nodes), sftp.nodes, target) && left < budget
    ensures ok ==> left >= 0 && sftp.nodes == old(sftp.nodes) + Graft(old(sftp.nodes), source, target)
    ensures ok && Copyable(metadata) ==> source in old(sftp.nodes) && target !in old(sftp.nodes)
    ensures |sftp.nodes| <= |old(sftp.nodes)| + Used(budget, left)
    ensures target in old(sftp.nodes) ==> AtMostUnlinked(old(sftp.nodes), sftp.nodes, target)
    ensures old(sftp.failed) ==> sftp.failed
    ensures !sftp.failed && !ok && target !in old(sftp.nodes) ==> sftp.nodes == old(sftp.nodes)
    ensures ok && source in old(sftp.nodes) ==> left == budget - |Visited(old(sftp.nodes), source)|
    ensures !sftp.failed && source in old(sftp.nodes) && target !in old(sftp.nodes) ==>
              (ok <==> |Visited(old(sftp.nodes), source)| <= budget)
    ensures !Copyable(metadata) ==> left == budget - 1 && (ok <==> budget > 0)
  {
    hide WellFormed, SameOutside, Subtree, Graft, Below, Visited;
    FreeEntry(sftp.nodes, destination, target);
    PlaceFound(sftp.nodes, source, destination, target);
    ghost var undone, exceeded;
    ok, left, undone, exceeded := sftp.CopyTree(source, target, metadata, budget);
    DestinationKept(old(sftp.nodes), sftp.nodes, destination, target);
    Counted(old(sftp.nodes), sftp.nodes, target, Used(budget, left));
  }

  /**
   Copies or moves every path of the list into the destination, each once, with one budget for all copies.
   Deeds tells what was done; when the request fails, only the tree at broken differs from what the deeds say.
   */
  method Operate(sftp: Sftp, paths: seq<Path>, destination: Path, operation: Operation, conflict: Conflict)
    returns (ok: bool, ghost deeds: seq<Deed>, ghost broken: Path)
    requires WellFormed(sftp.nodes)
    modifies sftp
    ensures WellFormed(sftp.nodes)
    ensures operation == Copy ==> SameOutside(old(sftp.nodes), sftp.nodes, destination)
    ensures AllJustified(old(sftp.nodes), deeds, destination, operation, conflict)
    ensures ok ==> Sources(deeds) == Distinct(paths) && sftp.nodes == Replay(old(sftp.nodes), deeds)
    ensures SameOutside(Replay(old(sftp.nodes), deeds), sftp.nodes, broken) && Below(destination, broken)
    ensures operation == Move && conflict != Overwrite ==> sftp.nodes == Replay(old(sftp.nodes), deeds)
    ensures |sftp.nodes| <= |old(sftp.nodes)| + ENTRY_LIMIT
    ensures !sftp.failed ==>
              && (ok <==> IsDirectory(old(sftp.nodes), destination) && |deeds| == |Distinct(paths)|)
              && AllPossible(old(sftp.nodes), deeds, destination, operation, conflict)
              && (conflict != Overwrite ==> sftp.nodes == Replay(old(sftp.nodes), deeds))
    ensures !sftp.failed && !ok && IsDirectory(old(sftp.nodes), destination) ==>
              && |deeds| < |Distinct(paths)| && Sources(deeds) == Distinct(paths)[..|deeds|]
              && !CanSucceed(
                    Replay(old(sftp.nodes), deeds), Distinct(paths)[|deeds|], destination, operation, conflict,
                    ENTRY_LIMIT - Spent(old(sftp.nodes), deeds))
  {
    hide WellFormed, SameOutside, AllJustified, Justified, Effect, Replay, Sources, Distinct, Below;
    hide CanSucceed, AllPossible, Spent, Cost;
    ok, deeds, broken := false, [], destination;
    NoDeeds(sftp.nodes, destination, operation, conflict);
    NoneSpent(sftp.nodes, destination, operation, conflict);
    Unchanged(sftp.nodes, destination);
    BelowSelf(destination);
    var found := sftp.Lstat(destination);
    if found.None? || !found.value.Dir? { return; }
    var seen: set<Path> := {};
    var left := ENTRY_LIMIT;
    for i := 0 to |paths|
      invariant WellFormed(sftp.nodes)
      invariant operation == Copy ==> SameOutside(old(sftp.nodes), sftp.nodes, destination)
      invariant destination in sftp.nodes && sftp.nodes[destination].Dir?
      invariant AllJustified(old(sftp.nodes), deeds, destination, operation, conflict)
      invariant sftp.nodes == Replay(old(sftp.nodes), deeds)
      invariant Sources(deeds) == Distinct(paths[..i]) && forall p :: p in seen <==> p in Distinct(paths[..i])
      invariant 0 <= left <= ENTRY_LIMIT && |sftp.nodes| <= |old(sftp.nodes)| + ENTRY_LIMIT - left
      invariant left == ENTRY_LIMIT - Spent(old(sftp.nodes), deeds)
      invariant !sftp.failed ==> AllPossible(old(sftp.nodes), deeds, destination, operation, conflict)
    {
      var source := paths[i];
      DistinctNext(paths, i);
      if source in seen { continue; }
      seen := seen + {source};
      ghost var before := sftp.nodes;
      var handled;
      ghost var deed;
      handled, left, deed, broken := OperateOne(sftp, source, destination, operation, conflict, left);
      if operation == Copy { InsideDestination(old(sftp.nodes), before, sftp.nodes, destination, broken); }
      DistinctAhead(paths, i, deeds);
      if !handled { return; }
      NextDeed(old(sftp.nodes), deeds, deed, destination, operation, conflict);
      NextPossible(old(sftp.nodes), deeds, deed, destination, operation, conflict);
      deeds := deeds + [deed];
    }
    assert paths[..|paths|] == paths;
    assert |Sources(deeds)| == |deeds| by { SourcesCount(deeds); }
    Unchanged(sftp.nodes, destination);
    broken := destination;
    ok := true;
  }

  // ----- what a request keeps and adds -----

  /** A copy holds exactly the files and directories of the tree, each at its place. */
  lemma CopyIsTree(nodes: Nodes, source: Path, target: Path)
    requires WellFormed(nodes)
    ensures forall q :: q in Graft(nodes, source, target) <==>
              Below(target, q) && source + q[|target|..] in nodes && Copyable(nodes[source + q[|target|..]])
    ensures forall q :: q in Graft(nodes, source, target) ==>
              Graft(nodes, source, target)[q] == CopyOf(nodes[source + q[|target|..]])
  {
    GraftIs(nodes, source, target, ChildNames(nodes, source));
    forall q | Below(target, q) && source + q[|target|..] in nodes && |q| > |target|
      ensures q[|target|] in ChildNames(nodes, source)
    {
      var p := source + q[|target|..];
      PrefixIn(nodes, p, |source| + 1);
      assert p[..|source| + 1] == source + [q[|target|]];
      ChildName(nodes, source, q[|target|]);
    }
  }

  /** One deed that overwrites nothing adds its copy beside what is there. */
  lemma DeedAdds(nodes: Nodes, deed: Deed, destination: Path, operation: Operation, conflict: Conflict)
    requires WellFormed(nodes) && Justified(nodes, deed, destination, operation, conflict)
    requires operation == Copy && conflict != Overwrite
    ensures deed.Copied? ==> Graft(nodes, deed.source, deed.target).Keys !! nodes.Keys
    ensures deed.Stayed? || deed.Copied?
  {
    if deed.Copied? {
      if Copyable(nodes[deed.source]) {
        Unchanged(nodes, deed.target);
        CopyIsTree(nodes, deed.source, deed.target);
        forall q | q in nodes ensures q !in Graft(nodes, deed.source, deed.target) {
          assert q !in Subtree(nodes, deed.target);
        }
      } else {
        LeafAlone(nodes, deed.source);
        LeafGraft(nodes, deed.source, deed.target);
      }
    }
  }

  /** The copies made by a list of deeds, laid on top of each other. */
  function Copies(nodes: Nodes, deeds: seq<Deed>): Nodes {
    if deeds == [] then map[] else
      var rest, deed := deeds[..|deeds| - 1], deeds[|deeds| - 1];
      Copies(nodes, rest) +
      (if deed.Copied? then Graft(Replay(nodes, rest), deed.source, deed.target) else map[])
  }

  /**
   Unless it overwrites, a request leaves every entry that it finds as it is and adds its copies beside them;
   no two of them meet, since each finds its place free.
   */
  lemma {:induction false} RequestAdds(
    nodes: Nodes, deeds: seq<Deed>, destination: Path, operation: Operation, conflict: Conflict)
    requires AllJustified(nodes, deeds, destination, operation, conflict) && operation == Copy && conflict != Overwrite
    ensures Replay(nodes, deeds) == nodes + Copies(nodes, deeds)
    ensures Copies(nodes, deeds).Keys !! nodes.Keys
    ensures forall i :: 0 <= i < |deeds| && deeds[i].Copied? ==>
              var before := Replay(nodes, deeds[..i]);
              Graft(before, deeds[i].source, deeds[i].target).Keys !! before.Keys
    decreases |deeds|
  {
    hide Graft, Effect, Justified, WellFormed;
    if deeds != [] {
      var n := |deeds| - 1;
      var rest := deeds[..n];
      assert deeds == rest + [deeds[n]];
      EarlierDeeds(nodes, rest, deeds[n], destination, operation, conflict);
      RequestAdds(nodes, rest, destination, operation, conflict);
      DeedAdds(Replay(nodes, rest), deeds[n], destination, operation, conflict);
      forall i | 0 <= i < n ensures deeds[..i] == rest[..i] && deeds[i] == rest[i] {
      }
      OneMoreDeed(nodes, Copies(nodes, rest), Replay(nodes, rest), deeds[n]);
    }
  }

  lemma OneMoreDeed(nodes: Nodes, copies: Nodes, before: Nodes, deed: Deed)
    requires before == nodes + copies && copies.Keys !! nodes.Keys && (deed.Stayed? || deed.Copied?)
    requires deed.Copied? ==> Graft(before, deed.source, deed.target).Keys !! before.Keys
    ensures var added := copies + (if deed.Copied? then Graft(before, deed.source, deed.target) else map[]);
            Effect(before, deed) == nodes + added && added.Keys !! nodes.Keys
  {
    hide Graft;
  }

  lemma EarlierDeeds(
    nodes: Nodes, rest: seq<Deed>, deed: Deed, destination: Path, operation: Operation, conflict: Conflict)
    requires AllJustified(nodes, rest + [deed], destination, operation, conflict)
    ensures AllJustified(nodes, rest, destination, operation, conflict)
    ensures WellFormed(Replay(nodes, rest)) && Justified(Replay(nodes, rest), deed, destination, operation, conflict)
  {
    hide Justified, WellFormed, Effect, Replay;
    var all := rest + [deed];
    assert all[..|rest|] == rest;
    assert InPlace(Replay(nodes, all[..|rest|]), all[|rest|], destination, operation, conflict);
    forall i | 0 <= i < |rest| ensures InPlace(Replay(nodes, rest[..i]), rest[i], destination, operation, conflict) {
      assert all[..i] == rest[..i] && all[i] == rest[i];
    }
  }

  // ----- what a move keeps -----

  /** Where an entry is after some deeds. */
  function Trail(p: Path, deeds: seq<Deed>): Path {
    if deeds == [] then p else
      var before, deed := Trail(p, deeds[..|deeds| - 1]), deeds[|deeds| - 1];
      if deed.Moved? then Follow(deed.source, deed.target, before) else before
  }

  /**
   Unless it overwrites, a move loses no entry and changes none, links and special files included: every
   entry is found unchanged at the end of its trail, and nothing else is there.
   */
  lemma {:induction false} RequestMoves(
    nodes: Nodes, deeds: seq<Deed>, destination: Path, operation: Operation, conflict: Conflict)
    requires AllJustified(nodes, deeds, destination, operation, conflict)
    requires operation == Move && conflict != Overwrite
    ensures forall p :: p in nodes ==>
              Trail(p, deeds) in Replay(nodes, deeds) && Replay(nodes, deeds)[Trail(p, deeds)] == nodes[p]
    ensures forall p, r :: p in nodes && r in nodes && Trail(p, deeds) == Trail(r, deeds) ==> p == r
    ensures |Replay(nodes, deeds)| == |nodes|
    decreases |deeds|
  {
    hide Follow, Relocated, Justified, WellFormed;
    if deeds != [] {
      var n := |deeds| - 1;
      var rest := deeds[..n];
      assert deeds == rest + [deeds[n]];
      EarlierDeeds(nodes, rest, deeds[n], destination, operation, conflict);
      RequestMoves(nodes, rest, destination, operation, conflict);
      MoveDeeds(Replay(nodes, rest), deeds[n], destination, operation, conflict);
      if deeds[n].Moved? {
        RelocatedKeeps(Replay(nodes, rest), deeds[n].source, deeds[n].target);
        RelocatedCount(Replay(nodes, rest), deeds[n].source, deeds[n].target);
      }
    }
  }

  lemma MoveDeeds(nodes: Nodes, deed: Deed, destination: Path, operation: Operation, conflict: Conflict)
    requires Justified(nodes, deed, destination, operation, conflict) && operation == Move && conflict != Overwrite
    ensures deed.Stayed? || (deed.Moved? && deed.target !in nodes)
  {
  }

  // ----- facts about one path -----

  lemma DestinationStays(nodes: Nodes, source: Path, destination: Path, target: Path)
    requires WellFormed(nodes) && destination in nodes && nodes[destination].Dir?
    requires source in nodes && target !in nodes && !(nodes[source].Dir? && Below(source, destination))
    ensures destination in Relocated(nodes, source, target)
    ensures Relocated(nodes, source, target)[destination].Dir?
  {
    RelocatedKeeps(nodes, source, target);
    if !nodes[source].Dir? {
      LeafAlone(nodes, source);
      assert Below(source, destination) ==> destination in Subtree(nodes, source);
    }
    assert Follow(source, target, destination) == destination;
  }

  lemma BelowSelf(p: Path)
    ensures Below(p, p)
  {
  }

  lemma BelowEntry(destination: Path, name: string)
    ensures Below(destination, destination + [name]) && destination + [name] != destination
  {
    assert |destination + [name]| == |destination| + 1;
  }

  lemma NothingAdded(before: Nodes, after: Nodes, root: Path)
    requires SameOutside(before, after, root) && Subtree(after, root) <= Subtree(before, root)
    ensures after.Keys <= before.Keys
  {
    forall p | p in after ensures p in before {
      assert Below(root, p) ==> p in Subtree(after, root);
    }
  }

  lemma TreeGone(before: Nodes, after: Nodes, root: Path)
    requires SameOutside(before, after, root) && Subtree(after, root) == {}
    ensures after == Without(before, root) && root !in after
  {
    forall p ensures p in after <==> p in before && !Below(root, p) {
      assert p !in Subtree(after, root);
    }
    assert Below(root, root);
  }

  lemma StillThere(nodes: Nodes, root: Path, p: Path)
    ensures p in Without(nodes, root) <==> p in nodes && !Below(root, p)
    ensures p in Without(nodes, root) ==> Without(nodes, root)[p] == nodes[p]
  {
  }

  /** A source that may be copied is not the root directory. */
  lemma NotTheRoot(nodes: Nodes, source: Path, destination: Path)
    requires WellFormed(nodes) && source in nodes && destination in nodes && nodes[destination].Dir?
    requires !(nodes[source].Dir? && Below(source, destination))
    ensures source != []
  {
    if destination != [] {
      PrefixIn(nodes, destination, 0);
    }
    assert Below([], destination);
  }

  lemma DestinationKept(before: Nodes, after: Nodes, destination: Path, target: Path)
    requires SameOutside(before, after, target) && destination in before
    requires Below(destination, target) && destination != target
    ensures destination in after && after[destination] == before[destination]
  {
    assert Below(target, destination) ==> |target| == |destination|;
  }

  lemma TargetEntry(
    nodes: Nodes, source: Path, destination: Path, conflict: Conflict, directory: bool, target: Path)
    requires source != [] && Chosen(nodes, Requested(source, destination), conflict, directory, target)
    ensures |target| == |destination| + 1 && Below(destination, target)
  {
    assert Requested(source, destination)[..|destination|] == destination;
  }

  /** The place that was found is apart from the source, or not free at all. */
  lemma PlaceFound(nodes: Nodes, source: Path, destination: Path, target: Path)
    requires WellFormed(nodes) && destination in nodes && nodes[destination].Dir?
    requires |target| == |destination| + 1 && Below(destination, target)
    requires source in nodes || source != target
    requires source in nodes ==> !(nodes[source].Dir? && Below(source, destination))
    ensures Placeable(nodes, source, target)
  {
    if target !in nodes && source in nodes {
      Unchanged(nodes, target);
      assert source !in Subtree(nodes, target);
      if Below(source, target) {
        assert |source| <= |destination| by {
          assert |source| == |target| ==> source == target;
        }
        TwoPrefixes(source, destination, target);
        assert |source| == |destination| ==> source == destination;
        assert Below(source, destination);
        assert destination in Subtree(nodes, source);
        LeafAlone(nodes, source);
      }
    }
  }

  lemma FreeEntry(nodes: Nodes, destination: Path, target: Path)
    requires destination in nodes && nodes[destination].Dir?
    requires |target| == |destination| + 1 && Below(destination, target)
    ensures target !in nodes ==> CanCreate(nodes, target)
  {
    assert target[..|target| - 1] == destination;
  }

  lemma SameSelf(nodes: Nodes, root: Path)
    ensures SameTree(nodes, nodes, root)
  {
  }

  lemma SameVisits(before: Nodes, after: Nodes, root: Path)
    requires SameTree(before, after, root)
    ensures Visited(before, root) == Visited(after, root)
  {
  }

  lemma TargetCleared(nodes: Nodes, root: Path)
    ensures root !in Without(nodes, root)
  {
    assert Below(root, root);
  }

  lemma RequestedEntry(source: Path, destination: Path)
    requires source != []
    ensures var requested := Requested(source, destination);
            && |requested| == |destination| + 1 && Below(destination, requested) && requested != destination
            && requested != []
  {
    BelowEntry(destination, source[|source| - 1]);
  }

  lemma NotAbove(nodes: Nodes, source: Path, destination: Path)
    requires WellFormed(nodes) && source in nodes && IsDirectory(nodes, destination)
    requires !(nodes[source].Dir? && Below(source, destination))
    ensures !Below(source, destination)
  {
    if !nodes[source].Dir? {
      LeafAlone(nodes, source);
      assert Below(source, destination) ==> destination in Subtree(nodes, source);
    }
  }

  lemma AboveEntry(source: Path, destination: Path, entry: Path)
    requires |entry| == |destination| + 1 && Below(destination, entry) && Below(source, entry) && source != entry
    ensures Below(source, destination)
  {
    assert |source| == |entry| ==> source == entry;
    TwoPrefixes(source, destination, entry);
    assert |source| == |destination| ==> source == destination;
  }

  /** An allowed source does not lie above an entry of the destination. */
  lemma EntryApart(nodes: Nodes, source: Path, destination: Path, entry: Path)
    requires WellFormed(nodes) && source in nodes && IsDirectory(nodes, destination)
    requires !(nodes[source].Dir? && Below(source, destination))
    requires |entry| == |destination| + 1 && Below(destination, entry) && !Below(entry, source)
    ensures Apart(source, entry)
  {
    NotAbove(nodes, source, destination);
    if Below(source, entry) {
      AboveEntry(source, destination, entry);
    }
  }

  /** A change within an entry of the destination leaves the tree of a source beside it alone. */
  lemma TreeApart(before: Nodes, after: Nodes, source: Path, entry: Path)
    requires Apart(source, entry) && SameOutside(before, after, entry)
    ensures SameTree(before, after, source)
  {
    forall p | Below(source, p) ensures !Below(entry, p) {
      ApartPaths(source, entry, p);
    }
  }

  lemma SourceSpared(before: Nodes, after: Nodes, source: Path, destination: Path, requested: Path)
    requires WellFormed(before) && source in before && IsDirectory(before, destination)
    requires !(before[source].Dir? && Below(source, destination)) && SameOutside(before, after, requested)
    requires |requested| == |destination| + 1 && Below(destination, requested)
    ensures !Below(requested, source) ==> SameTree(before, after, source)
  {
    if !Below(requested, source) {
      EntryApart(before, source, destination, requested);
      TreeApart(before, after, source, requested);
    }
  }

  /** Neither a copy nor the cleanup of a copy that fails touches the tree of its source. */
  lemma TreeSpared(before: Nodes, after: Nodes, source: Path, destination: Path, target: Path)
    requires WellFormed(before) && source in before && IsDirectory(before, destination)
    requires !(before[source].Dir? && Below(source, destination)) && SameOutside(before, after, target)
    requires |target| == |destination| + 1 && Below(destination, target) && target != source
    requires target in before ==> AtMostUnlinked(before, after, target)
    ensures SameTree(before, after, source)
  {
    if Below(target, source) {
      PrefixIn(before, source, |target|);
      assert source[..|target|] == target;
    } else {
      SourceSpared(before, after, source, destination, target);
    }
  }

  lemma RequestedDiffers(source: Path, destination: Path)
    ensures !Below(Requested(source, destination), source) ==> Requested(source, destination) != source
  {
  }

  /** A numbered name is longer than the name it is made from. */
  lemma ChosenDiffers(
    nodes: Nodes, source: Path, destination: Path, conflict: Conflict, directory: bool, target: Path)
    requires source != [] && Chosen(nodes, Requested(source, destination), conflict, directory, target)
    ensures target == source ==> target == Requested(source, destination)
  {
    var requested := Requested(source, destination);
    if target != requested {
      var index :| Numbered(nodes, requested, directory, target, index);
      var name := requested[|requested| - 1];
      assert name == source[|source| - 1];
      assert |target[|target| - 1]| > |name|;
    }
  }

  // ----- when a path can be handled -----

  lemma FreeChoice(nodes: Nodes, requested: Path, conflict: Conflict, directory: bool, target: Path)
    requires requested != [] && Chosen(nodes, requested, conflict, directory, target)
    ensures requested in nodes && target !in nodes ==> conflict == Rename
  {
  }

  lemma AtOnce(
    nodes: Nodes, source: Path, destination: Path, operation: Operation, conflict: Conflict, budget: int)
    ensures source !in nodes ==> !CanSucceed(nodes, source, destination, operation, conflict, budget)
    ensures source in nodes && nodes[source].Link? ==>
              CanSucceed(nodes, source, destination, operation, conflict, budget)
    ensures source in nodes && nodes[source].Dir? && Below(source, destination) ==>
              !CanSucceed(nodes, source, destination, operation, conflict, budget)
    ensures source in nodes && source != [] && !(nodes[source].Dir? && Below(source, destination))
            && Requested(source, destination) == source && operation == Move ==>
              CanSucceed(nodes, source, destination, operation, conflict, budget)
  {
  }

  lemma StayingDeed(nodes: Nodes, source: Path, destination: Path, operation: Operation, conflict: Conflict)
    ensures Effect(nodes, Stayed(source)) == nodes && Cost(nodes, Stayed(source)) == 0
    ensures source in nodes
            && (nodes[source].Link? || (conflict == Skip && Requested(source, destination) in nodes)
                || (operation == Move && Requested(source, destination) == source)) ==>
              Justified(nodes, Stayed(source), destination, operation, conflict)
  {
  }

  lemma LosingSource(nodes: Nodes, source: Path, destination: Path, operation: Operation, conflict: Conflict)
    ensures LosesSource(nodes, source, destination, operation, conflict) ==>
              && conflict == Overwrite && source in nodes && !nodes[source].Link? && !Below(source, destination)
              && Requested(source, destination) in nodes && Requested(source, destination) != source
              && |Subtree(nodes, Requested(source, destination))| <= ENTRY_LIMIT
  {
    if LosesSource(nodes, source, destination, operation, conflict) {
      RequestedEntry(source, destination);
    }
  }

  /** A file below an entry of its own name: copying it up over that entry removes both, and copies nothing. */
  lemma OwnParentOverwritten(name: string, content: string, mode: nat, operation: Operation)
    ensures var nodes: Nodes := map[[] := Dir, [name] := Dir, [name, name] := File(content, mode)];
            && WellFormed(nodes) && LosesSource(nodes, [name, name], [], operation, Overwrite)
            && !CanSucceed(nodes, [name, name], [], operation, Overwrite, ENTRY_LIMIT)
            && Without(nodes, Requested([name, name], [])) == map[[] := Dir]
  {
    var nodes: Nodes := map[[] := Dir, [name] := Dir, [name, name] := File(content, mode)];
    assert Requested([name, name], []) == [name];
    assert Below([name], [name]) && Below([name], [name, name]) && !Below([name], []);
    assert Subtree(nodes, [name]) == {[name], [name, name]};
    assert [name, name][..1] == [name] && [name][..0] == [];
    forall p | p in nodes && p != [] ensures InDirectory(nodes, p) {
    }
  }

  lemma SkipSucceeds(nodes: Nodes, source: Path, destination: Path, operation: Operation, budget: int)
    requires source in nodes && Allowed(nodes[source], source, destination) && source != []
    requires Requested(source, destination) in nodes
    ensures CanSucceed(nodes, source, destination, operation, Skip, budget)
  {
  }

  lemma RefusalFails(
    nodes: Nodes, failed: bool, source: Path, destination: Path, operation: Operation, conflict: Conflict, budget: int)
    requires source in nodes && Allowed(nodes[source], source, destination) && source != []
    requires var requested := Requested(source, destination);
             && requested in nodes && !(operation == Move && requested == source)
             && (conflict != Overwrite ==>
                   && conflict == Rename
                   && forall j :: 1 <= j <= CANDIDATES ==> Candidate(requested, nodes[source].Dir?, j) in nodes)
             && (!failed && conflict == Overwrite ==>
                   source == requested || |Subtree(nodes, requested)| > ENTRY_LIMIT)
    ensures !failed ==> !CanSucceed(nodes, source, destination, operation, conflict, budget)
  {
  }

  lemma PlaceSucceeds(
    nodes: Nodes, source: Path, destination: Path, operation: Operation, conflict: Conflict, budget: int, target: Path)
    requires source in nodes && Allowed(nodes[source], source, destination) && source != []
    requires Chosen(nodes, Requested(source, destination), conflict, nodes[source].Dir?, target) && target !in nodes
    requires operation == Move ==> Requested(source, destination) != source
    ensures CanSucceed(nodes, source, destination, operation, conflict, budget) <==>
            (operation == Copy ==> |Visited(nodes, source)| <= budget)
  {
    hide Visited, Subtree;
    var requested := Requested(source, destination);
    assert PlaceLeft(nodes, source, requested, conflict, nodes[source].Dir?);
  }

  lemma ClearingSucceeds(
    nodes: Nodes, source: Path, destination: Path, operation: Operation, budget: int)
    requires source in nodes && Allowed(nodes[source], source, destination) && source != []
    requires var requested := Requested(source, destination);
             requested in nodes && requested != source && |Subtree(nodes, requested)| <= ENTRY_LIMIT
    ensures CanSucceed(nodes, source, destination, operation, Overwrite, budget) <==>
            && (Below(Requested(source, destination), source) ==> operation == Copy && !Copyable(nodes[source]))
            && (operation == Copy ==> |Visited(nodes, source)| <= budget)
  {
    hide Visited, Subtree;
  }

  lemma SameTreeTwice(first: Nodes, second: Nodes, third: Nodes, root: Path)
    requires SameTree(first, second, root) && SameTree(second, third, root)
    ensures SameTree(first, third, root)
  {
  }

  lemma Counted(before: Nodes, after: Nodes, target: Path, used: int)
    requires WellFormed(before) && SameOutside(before, after, target) && used >= 0
    requires target !in before ==> |Subtree(after, target)| <= used
    requires target in before ==> AtMostUnlinked(before, after, target)
    ensures |after| <= |before| + used
  {
    if target in before {
      assert after.Keys <= before.Keys;
      SubsetSize(after.Keys, before.Keys);
    } else {
      Unchanged(before, target);
      forall p | p in after ensures p in before.Keys + Subtree(after, target) {
      }
      SubsetSize(after.Keys, before.Keys + Subtree(after, target));
    }
  }

  /** A change inside the destination leaves everything outside it as it was. */
  lemma InsideDestination(first: Nodes, before: Nodes, after: Nodes, destination: Path, broken: Path)
    requires SameOutside(first, before, destination) && SameOutside(before, after, broken)
    requires Below(destination, broken)
    ensures SameOutside(first, after, destination)
  {
    forall p | Below(broken, p) ensures Below(destination, p) {
      assert p[..|broken|] == broken && broken[..|destination|] == destination;
      assert p[..|destination|] == p[..|broken|][..|destination|];
    }
  }

  lemma NoDeeds(nodes: Nodes, destination: Path, operation: Operation, conflict: Conflict)
    ensures AllJustified(nodes, [], destination, operation, conflict) && Replay(nodes, []) == nodes
    ensures Sources([]) == [] && Distinct([]) == []
  {
  }

  lemma DistinctNext(paths: seq<Path>, i: nat)
    requires i < |paths|
    ensures Distinct(paths[..i + 1]) ==
            Distinct(paths[..i]) + if paths[i] in Distinct(paths[..i]) then [] else [paths[i]]
  {
    assert paths[..i + 1][..i] == paths[..i];
  }

  lemma SourcesCount(deeds: seq<Deed>)
    ensures |Sources(deeds)| == |deeds|
  {
  }

  lemma NoneSpent(nodes: Nodes, destination: Path, operation: Operation, conflict: Conflict)
    ensures Spent(nodes, []) == 0 && AllPossible(nodes, [], destination, operation, conflict)
  {
  }

  lemma NextPossible(
    nodes: Nodes, deeds: seq<Deed>, deed: Deed, destination: Path, operation: Operation, conflict: Conflict)
    ensures Spent(nodes, deeds + [deed]) == Spent(nodes, deeds) + Cost(Replay(nodes, deeds), deed)
    ensures AllPossible(nodes, deeds, destination, operation, conflict)
            && CanSucceed(
                 Replay(nodes, deeds), deed.source, destination, operation, conflict,
                 ENTRY_LIMIT - Spent(nodes, deeds))
            ==> AllPossible(nodes, deeds + [deed], destination, operation, conflict)
  {
    var all := deeds + [deed];
    assert all[..|deeds|] == deeds;
    hide Replay, Cost, CanSucceed;
    if AllPossible(nodes, deeds, destination, operation, conflict)
       && CanSucceed(
            Replay(nodes, deeds), deed.source, destination, operation, conflict,
            ENTRY_LIMIT - Spent(nodes, deeds))
    {
      forall i | 0 <= i < |all| ensures PossibleAt(nodes, all, i, destination, operation, conflict) {
        if i < |deeds| {
          assert all[..i] == deeds[..i] && all[i] == deeds[i];
          assert PossibleAt(nodes, deeds, i, destination, operation, conflict);
        }
      }
    }
  }

  /** The path that is handled next is the next of the distinct ones. */
  lemma DistinctAhead(paths: seq<Path>, i: nat, deeds: seq<Deed>)
    requires i < |paths| && Sources(deeds) == Distinct(paths[..i]) && paths[i] !in Distinct(paths[..i])
    ensures |deeds| < |Distinct(paths)|
    ensures Distinct(paths)[|deeds|] == paths[i] && Sources(deeds) == Distinct(paths)[..|deeds|]
  {
    DistinctNext(paths, i);
    DistinctPrefix(paths, i + 1);
  }

  lemma {:induction false} DistinctPrefix(paths: seq<Path>, i: nat)
    requires i <= |paths|
    ensures Distinct(paths[..i]) <= Distinct(paths)
    decreases |paths|
  {
    if i == |paths| {
      assert paths[..i] == paths;
    } else {
      var init := paths[..|paths| - 1];
      DistinctPrefix(init, i);
      assert init[..i] == paths[..i];
    }
  }

  lemma NextDeed(
    nodes: Nodes, deeds: seq<Deed>, deed: Deed, destination: Path, operation: Operation, conflict: Conflict)
    requires AllJustified(nodes, deeds, destination, operation, conflict) && WellFormed(Replay(nodes, deeds))
    requires Justified(Replay(nodes, deeds), deed, destination, operation, conflict)
    ensures AllJustified(nodes, deeds + [deed], destination, operation, conflict)
    ensures Replay(nodes, deeds + [deed]) == Effect(Replay(nodes, deeds), deed)
    ensures Sources(deeds + [deed]) == Sources(deeds) + [deed.source]
  {
    assert (deeds + [deed])[..|deeds|] == deeds;
    hide Justified, WellFormed, Effect, Replay;
    assert InPlace(Replay(nodes, deeds), deed, destination, operation, conflict);
    hide InPlace;
    OneMoreInPlace(nodes, deeds, deed, destination, operation, conflict);
  }

  lemma OneMoreInPlace(
    nodes: Nodes, deeds: seq<Deed>, deed: Deed, destination: Path, operation: Operation, conflict: Conflict)
    requires AllJustified(nodes, deeds, destination, operation, conflict)
    requires InPlace(Replay(nodes, deeds), deed, destination, operation, conflict)
    ensures AllJustified(nodes, deeds + [deed], destination, operation, conflict)
  {
    hide InPlace, Replay;
    var all := deeds + [deed];
    assert all[..|deeds|] == deeds;
    forall i | 0 <= i < |all| ensures InPlace(Replay(nodes, all[..i]), all[i], destination, operation, conflict) {
      assert i < |deeds| ==> all[..i] == deeds[..i] && all[i] == deeds[i];
    }
  }
}
