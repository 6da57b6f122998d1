/**
 What one deed of a copy or move request leaves at every place, overwriting included, and which numbered names
 are tried.
 */
module RemoteAnswers {
  import opened Common
  import opened RemoteCopy
  import opened RemoteOperation

  /** A copied file has the content and the permission bits of its source; a copied directory is a directory. */
  predicate CopiedAs(node: Node, copy: Node) {
    match node
    case File(content, mode) => copy.File? && copy.content == content && copy.mode == mode % 4096
    case Dir => copy.Dir?
    case _ => false
  }

  /** The tree at source now stands at target as well: its files and directories, and nothing else. */
  ghost predicate TreeCopied(before: Nodes, after: Nodes, source: Path, target: Path) {
    && (forall rest: Path :: target + rest in after <==>
          source + rest in before && (before[source + rest].File? || before[source + rest].Dir?))
    && (forall rest: Path :: target + rest in after ==> CopiedAs(before[source + rest], after[target + rest]))
  }

  lemma GraftTells(nodes: Nodes, source: Path, target: Path)
    requires WellFormed(nodes)
    ensures TreeCopied(nodes, Graft(nodes, source, target), source, target)
    ensures forall q :: q in Graft(nodes, source, target) ==> Below(target, q)
  {
    hide Graft;
    CopyIsTree(nodes, source, target);
    forall rest: Path ensures (target + rest)[|target|..] == rest && Below(target, target + rest) {
    }
  }

  /** A copy to a free place adds the tree there and changes nothing else. */
  lemma CopiedTells(nodes: Nodes, source: Path, target: Path)
    requires WellFormed(nodes) && target !in nodes
    ensures var after := Effect(nodes, Copied(source, target));
            TreeCopied(nodes, after, source, target) && SameOutside(nodes, after, target)
  {
    hide Graft;
    GraftTells(nodes, source, target);
    Unchanged(nodes, target);
    forall rest: Path ensures target + rest !in nodes {
      assert Below(target, target + rest);
      assert target + rest !in Subtree(nodes, target);
    }
  }

  /** An overwriting copy replaces the whole tree at its target, and changes nothing else. */
  lemma ReplacedTells(nodes: Nodes, source: Path, target: Path)
    requires WellFormed(nodes) && Apart(source, target)
    requires WellFormed(Without(nodes, target))
    ensures var after := Effect(nodes, Replaced(source, target));
            TreeCopied(nodes, after, source, target) && SameOutside(nodes, after, target)
  {
    var cleared, after := Without(nodes, target), Effect(nodes, Replaced(source, target));
    ClearedTells(nodes, target);
    assert target !in cleared by { assert Below(target, target); }
    CopiedTells(cleared, source, target);
    assert after == Effect(cleared, Copied(source, target));
    hide Effect, Without, WellFormed, TreeCopied, SameOutside, SameTree;
    OutsideTwice(nodes, cleared, after, target);
    TreeApart(nodes, cleared, source, target);
    StillCopied(nodes, cleared, after, source, target);
  }

  lemma StillCopied(before: Nodes, cleared: Nodes, after: Nodes, source: Path, target: Path)
    requires SameTree(before, cleared, source) && TreeCopied(cleared, after, source, target)
    ensures TreeCopied(before, after, source, target)
  {
    forall rest: Path ensures Below(source, source + rest) {
    }
  }

  /** Clearing takes away exactly the tree. */
  lemma ClearedTells(nodes: Nodes, target: Path)
    ensures forall p :: p in Without(nodes, target) <==> p in nodes && !Below(target, p)
    ensures SameOutside(nodes, Without(nodes, target), target)
  {
  }

  /** The tree at source is gone from there and stands at target, entry by entry; all other places are as they were. */
  ghost predicate TreeMoved(before: Nodes, after: Nodes, source: Path, target: Path) {
    && (forall rest: Path :: target + rest in after <==> source + rest in before)
    && (forall rest: Path :: target + rest in after ==> after[target + rest] == before[source + rest])
    && (forall p :: Below(source, p) ==> p !in after)
    && (forall p :: !Below(source, p) && !Below(target, p) ==>
          (p in after <==> p in before) && (p in after ==> after[p] == before[p]))
  }

  lemma MovedTells(nodes: Nodes, source: Path, target: Path)
    requires WellFormed(nodes) && target !in nodes && Apart(source, target)
    ensures TreeMoved(nodes, Effect(nodes, Moved(source, target)), source, target)
  {
    var after := Relocated(nodes, source, target);
    RelocatedKeeps(nodes, source, target);
    forall rest: Path
      ensures target + rest in after <==> source + rest in nodes
      ensures target + rest in after ==> after[target + rest] == nodes[source + rest]
    {
      assert Below(source, source + rest) && (source + rest)[|source|..] == rest;
      assert Below(target, target + rest) && (target + rest)[|target|..] == rest;
      if source + rest in nodes {
        assert Follow(source, target, source + rest) == target + rest;
      }
      if target + rest in after {
        assert Origin(source, target, target + rest) == source + rest;
      }
    }
    forall p | !Below(target, p) ensures p in after <==> p in nodes && !Below(source, p) {
      if p in after {
        assert Origin(source, target, p) == p;
      }
      if p in nodes && !Below(source, p) {
        assert Follow(source, target, p) == p;
      }
    }
    forall p | Below(source, p) ensures !Below(target, p) {
      ApartPaths(source, target, p);
    }
  }

  /** An overwriting move replaces the whole tree at its target. */
  lemma MovedOverTells(nodes: Nodes, source: Path, target: Path)
    requires WellFormed(Without(nodes, target)) && Apart(source, target)
    ensures TreeMoved(nodes, Effect(nodes, MovedOver(source, target)), source, target)
  {
    var cleared, after := Without(nodes, target), Effect(nodes, MovedOver(source, target));
    ClearedTells(nodes, target);
    assert target !in cleared by { assert Below(target, target); }
    MovedTells(cleared, source, target);
    assert after == Effect(cleared, Moved(source, target));
    hide Effect, Without, WellFormed, SameTree;
    TreeApart(nodes, cleared, source, target);
    StillMoved(nodes, cleared, after, source, target);
  }

  lemma StillMoved(before: Nodes, cleared: Nodes, after: Nodes, source: Path, target: Path)
    requires SameTree(before, cleared, source) && SameOutside(before, cleared, target)
    requires TreeMoved(cleared, after, source, target)
    ensures TreeMoved(before, after, source, target)
  {
    forall rest: Path ensures Below(source, source + rest) {
    }
  }

  lemma ClearedWellFormed(nodes: Nodes, target: Path)
    requires WellFormed(nodes) && target != []
    ensures WellFormed(Without(nodes, target))
  {
    ClearedTells(nodes, target);
    forall p | p in Without(nodes, target) && p != [] ensures InDirectory(Without(nodes, target), p) {
      assert InDirectory(nodes, p);
      assert Below(target, p[..|p| - 1]) ==> Below(target, p);
    }
  }

  /**
   What each deed of a request does, by the rules that it was chosen by: it leaves everything alone, adds or puts a
   copy of the tree in place, or moves the tree; where a special file is not copied, what was in its way is gone.
   */
  lemma DeedTells(nodes: Nodes, deed: Deed, destination: Path, operation: Operation, conflict: Conflict)
    requires WellFormed(nodes) && IsDirectory(nodes, destination) && deed.source != []
    requires Justified(nodes, deed, destination, operation, conflict)
    ensures var after := Effect(nodes, deed);
            match deed
            case Stayed(_) => after == nodes
            case Copied(source, target) =>
              SameOutside(nodes, after, target)
              && if Copyable(nodes[source]) then TreeCopied(nodes, after, source, target) else after == nodes
            case Replaced(source, target) =>
              SameOutside(nodes, after, target)
              && if Copyable(nodes[source]) then TreeCopied(nodes, after, source, target)
                 else after.Keys == nodes.Keys - Subtree(nodes, target)
            case Moved(source, target) => TreeMoved(nodes, after, source, target)
            case MovedOver(source, target) => TreeMoved(nodes, after, source, target)
  {
    hide Effect, TreeCopied, TreeMoved, Chosen, Allowed, Without;
    match deed {
      case Stayed(_) => StayedTells(nodes, deed.source);
      case Copied(source, target) =>
        if Copyable(nodes[source]) {
          CopiedTells(nodes, source, target);
        } else {
          SpecialTells(nodes, source, target);
        }
      case Replaced(source, target) =>
        RequestedEntry(source, destination);
        ClearedWellFormed(nodes, target);
        if Copyable(nodes[source]) {
          AllowedApart(nodes, source, destination, target);
          ReplacedTells(nodes, source, target);
        } else {
          SpecialTells(nodes, source, target);
        }
      case Moved(source, target) =>
        ChosenApart(nodes, source, destination, conflict, target);
        MovedTells(nodes, source, target);
      case MovedOver(source, target) =>
        RequestedEntry(source, destination);
        ClearedWellFormed(nodes, target);
        AllowedApart(nodes, source, destination, target);
        MovedOverTells(nodes, source, target);
    }
  }

  /** A copy or a move to a free place. */
  function Placing(source: Path, target: Path, operation: Operation): Deed {
    if operation == Copy then Copied(source, target) else Moved(source, target)
  }

  /**
   The rules leave no choice: links stay, a free name is taken, and a taken one decides by the conflict rule. A name
   for renaming is the first of the nine hundred and ninety-nine numbered ones that is free.
   */
  lemma RulesDecide(nodes: Nodes, deed: Deed, destination: Path, operation: Operation, conflict: Conflict)
    requires Justified(nodes, deed, destination, operation, conflict) && deed.source != []
    requires operation == Move || !nodes[deed.source].Special?
    ensures var source, node := deed.source, nodes[deed.source];
            var requested := destination + [source[|source| - 1]];
            if node.Link? then deed == Stayed(source)
            else if requested !in nodes then deed == Placing(source, requested, operation)
            else if conflict == Skip || (operation == Move && requested == source) then deed == Stayed(source)
            else if conflict == Overwrite then
              deed == if operation == Copy then Replaced(source, requested) else MovedOver(source, requested)
            else
              exists index :: 1 <= index <= 999
                && deed == Placing(source, Candidate(requested, node.Dir?, index), operation)
                && Candidate(requested, node.Dir?, index) !in nodes
                && forall j :: 1 <= j < index ==> Candidate(requested, node.Dir?, j) in nodes
  {
    var source := deed.source;
    var requested := destination + [source[|source| - 1]];
    hide Candidate;
    if !deed.Stayed? && deed.target != requested {
      var index :| Numbered(nodes, requested, nodes[source].Dir?, deed.target, index);
    }
  }

  lemma StayedTells(nodes: Nodes, source: Path)
    ensures Effect(nodes, Stayed(source)) == nodes
  {
  }

  lemma AllowedApart(nodes: Nodes, source: Path, destination: Path, entry: Path)
    requires WellFormed(nodes) && source in nodes && IsDirectory(nodes, destination)
    requires Allowed(nodes[source], source, destination)
    requires |entry| == |destination| + 1 && Below(destination, entry) && !Below(entry, source)
    ensures Apart(source, entry)
  {
    EntryApart(nodes, source, destination, entry);
  }

  lemma ChosenApart(nodes: Nodes, source: Path, destination: Path, conflict: Conflict, target: Path)
    requires WellFormed(nodes) && source in nodes && source != [] && IsDirectory(nodes, destination)
    requires Allowed(nodes[source], source, destination) && target !in nodes
    requires Requested(source, destination) != []
    requires Chosen(nodes, Requested(source, destination), conflict, nodes[source].Dir?, target)
    ensures Apart(source, target)
  {
    RequestedEntry(source, destination);
    TargetEntry(nodes, source, destination, conflict, nodes[source].Dir?, target);
    Unchanged(nodes, target);
    assert source !in Subtree(nodes, target);
    AllowedApart(nodes, source, destination, target);
  }

  /** A special file is not copied; when its copy was to replace something, that is gone all the same. */
  lemma SpecialTells(nodes: Nodes, source: Path, target: Path)
    requires WellFormed(nodes) && source in nodes && !Copyable(nodes[source])
    ensures Effect(nodes, Copied(source, target)) == nodes && SameOutside(nodes, nodes, target)
    ensures WellFormed(Without(nodes, target)) ==>
              var after := Effect(nodes, Replaced(source, target));
              after.Keys == nodes.Keys - Subtree(nodes, target) && SameOutside(nodes, after, target)
  {
    NoGraft(nodes, source, target);
    Unchanged(nodes, target);
    if WellFormed(Without(nodes, target)) {
      NoGraft(Without(nodes, target), source, target);
      ClearedTells(nodes, target);
    }
  }

  /**
   One file: only its place can change. A success leaves the content and the permission bits of the source there;
   after a failure nothing is left unless a directory is in the way or the cleanup fails as well.
   */
  lemma FileTells(nodes: Nodes, source: Path, target: Path, content: string, mode: nat, a: Answers)
    ensures var after := FileOutcome(nodes, source, target, File(content, mode), a);
            && (forall p :: p != target ==> (p in after <==> p in nodes) && (p in nodes ==> after[p] == nodes[p]))
            && (FileCopied(nodes, source, target, a) ==>
                  target in after && CopiedAs(File(content, mode), after[target]))
            && (!FileCopied(nodes, source, target, a) && a.unlinks && target in after ==>
                  target in nodes && nodes[target].Dir? && after[target].Dir?)
  {
  }

  // ----- numbered names -----

  lemma {:induction false} DecimalInjective(m: nat, n: nat)
    requires Decimal(m) == Decimal(n)
    ensures m == n
  {
    if m >= 10 && n >= 10 {
      var a, b := Decimal(m / 10), Decimal(n / 10);
      assert (a + [DIGITS[m % 10]])[..|a|] == a && (b + [DIGITS[n % 10]])[..|b|] == b;
      DecimalInjective(m / 10, n / 10);
      assert DIGITS[m % 10] == Decimal(m)[|a|] && DIGITS[n % 10] == Decimal(n)[|b|];
      DigitsInjective(m % 10, n % 10);
    } else {
      DecimalShort(m);
      DecimalShort(n);
      DigitsInjective(m, n);
    }
  }

  lemma DecimalShort(n: nat)
    ensures |Decimal(n)| == 1 <==> n < 10
    ensures n < 10 ==> Decimal(n)[0] == DIGITS[n]
  {
    if n >= 10 {
      assert |Decimal(n / 10)| >= 1;
    }
  }

  lemma DigitsInjective(i: nat, j: nat)
    requires i < 10 && j < 10 && DIGITS[i] == DIGITS[j]
    ensures i == j
  {
  }

  /** What a file name ends with from its last dot on, unless that is its first character. */
  predicate IsExtension(name: string, stem: string, extension: string) {
    && name == stem + extension
    && if name != ".." && exists k :: 1 <= k < |name| && name[k] == '.'
       then stem != "" && extension != "" && extension[0] == '.' && '.' !in extension[1..]
       else extension == ""
  }

  /** A numbered name has its number before the extension; directories have none. */
  lemma CandidateTells(requested: Path, directory: bool, index: nat)
    requires requested != []
    ensures var name, stem, extension := requested[|requested| - 1], Stem(requested, directory),
                                         Extension(requested, directory);
            && (if directory then stem == name && extension == "" else IsExtension(name, stem, extension))
            && Candidate(requested, directory, index) ==
               requested[..|requested| - 1] + [stem + "(copy-" + Decimal(index) + ")" + extension]
  {
    var name := requested[|requested| - 1];
    var start := if directory then |name| else ExtensionStart(name);
    assert Stem(requested, directory) == name[..start] && Extension(requested, directory) == name[start..];
    assert name == name[..start] + name[start..];
  }

  function Stem(requested: Path, directory: bool): string
    requires requested != []
  {
    var name := requested[|requested| - 1];
    if directory then name else name[..ExtensionStart(name)]
  }

  function Extension(requested: Path, directory: bool): string
    requires requested != []
  {
    requested[|requested| - 1][|Stem(requested, directory)|..]
  }

  /** No two numbers give the same name. */
  lemma CandidateInjective(requested: Path, directory: bool, i: nat, j: nat)
    requires requested != [] && Candidate(requested, directory, i) == Candidate(requested, directory, j)
    ensures i == j
  {
    CandidateTells(requested, directory, i);
    CandidateTells(requested, directory, j);
    var stem, extension := Stem(requested, directory), Extension(requested, directory);
    hide Candidate, Stem, Extension, IsExtension, Decimal;
    var before := requested[..|requested| - 1];
    var m, n := stem + "(copy-" + Decimal(i) + ")" + extension, stem + "(copy-" + Decimal(j) + ")" + extension;
    assert m == (before + [m])[|before|] == (before + [n])[|before|] == n;
    assert m == (stem + "(copy-") + Decimal(i) + (")" + extension);
    assert n == (stem + "(copy-") + Decimal(j) + (")" + extension);
    Between(stem + "(copy-", Decimal(i), Decimal(j), ")" + extension);
    DecimalInjective(i, j);
  }

  lemma Between(left: string, a: string, b: string, right: string)
    requires left + a + right == left + b + right
    ensures a == b
  {
    assert |a| == |b|;
    assert (left + a + right)[|left|..|left| + |a|] == a && (left + b + right)[|left|..|left| + |b|] == b;
  }
}
