/**
 The rules by which the repositories refuse to create a row, and what they amount to for a whole import: a
 condition on the preview that does not depend on the order in which the rows are created.
 */
module ConfigurationRules {
  import opened Common
  import opened ConfigurationDocument
  import opened ConfigurationPreview
  import opened ConfigurationRun
  import opened ReferenceGraph

  /**
   The validation of a row by the schema and the service that it is handed to. It looks at what the row
   holds and not at the ids that its references are replaced by.
   */
  type Validation = (Collection, Row) -> bool

  const MAXIMUM_NODES := 5000
  const MAXIMUM_TRIGGERS := 256

  // ----- what a repository refuses -----

  function LowerChar(c: char): char {
    if 'A' <= c <= 'Z' then c - 'A' + 'a' else c
  }

  /** The lower function of the database, which knows the letters of ASCII only. */
  function Lower(s: string): string {
    seq(|s|, i requires 0 <= i < |s| => LowerChar(s[i]))
  }

  /** What no two rows of a collection may have in common: a name, or the shortcut of a command. */
  function Label(c: Collection, row: Row): Option<string> {
    match (c, row)
    case (HostGroups, Plain(_, name, _)) => Some(name)
    case (Hosts, Host(_, name, _, _, _, _)) => Some(name)
    case (ConnectionProfiles, Plain(_, name, _)) => Some(Lower(name))
    case (QuickCommands, Command(_, _, shortcut, _, _)) => shortcut
    case _ => None
  }

  predicate LabelFree(rows: map<Key, Row>, c: Collection, row: Row) {
    Label(c, row).Some? ==>
      forall key :: key in rows && key.collection == c ==> Label(c, rows[key]) != Label(c, row)
  }

  /** The collections whose rows count towards the limit of c, if c has one. */
  function Pool(c: Collection): set<Collection> {
    match c
    case QuickCommandGroups => {QuickCommandGroups, QuickCommands}
    case QuickCommands => {QuickCommandGroups, QuickCommands}
    case Triggers => {Triggers}
    case _ => {}
  }

  function Capacity(c: Collection): nat {
    if c == Triggers then MAXIMUM_TRIGGERS else MAXIMUM_NODES
  }

  function KeysIn(rows: map<Key, Row>, pool: set<Collection>): set<Key> {
    set key | key in rows && key.collection in pool
  }

  predicate HasRoom(rows: map<Key, Row>, c: Collection) {
    Pool(c) != {} ==> |KeysIn(rows, Pool(c))| < Capacity(c)
  }

  function JumpOf(row: Row): Option<Id> {
    if row.Host? then row.jumpHostId else None
  }

  /** The stored jumps lead from host id to a host without one, in n steps at most. */
  ghost predicate EndsWithin(rows: map<Key, Row>, id: Id, n: nat)
    decreases n
  {
    && Key(Hosts, id) in rows
    && var jump := JumpOf(rows[Key(Hosts, id)]);
       jump.Some? ==> n > 0 && EndsWithin(rows, jump.value, n - 1)
  }

  ghost predicate JumpsEnd(rows: map<Key, Row>, id: Id) {
    exists n: nat :: EndsWithin(rows, id, n)
  }

  /** Hop i of a jump list is a saved host, not the host itself, and not a hop before. */
  predicate HopAllowed(rows: map<Key, Row>, row: Row, i: nat)
    requires row.Host? && i < |row.jumpHostIds|
  {
    && Key(Hosts, row.jumpHostIds[i]) in rows
    && row.jumpHostIds[i] != row.id && row.jumpHostIds[i] !in row.jumpHostIds[..i]
  }

  /** A host has one kind of jump settings; its hops are different, and its jumps come to an end. */
  ghost predicate JumpsAllowed(rows: map<Key, Row>, row: Row) {
    row.Host? ==>
      && (row.jumpHostId.None? || row.jumpHostIds == [])
      && (forall i :: 0 <= i < |row.jumpHostIds| ==> HopAllowed(rows, row, i))
      && (row.jumpHostId.Some? ==> JumpsEnd(rows, row.jumpHostId.value))
  }

  /** The repository of its collection takes the row: item is its source, row is what would be stored. */
  ghost predicate Accepts(valid: Validation, rows: map<Key, Row>, item: Item, row: Row) {
    && valid(item.collection, item.row) && HasRoom(rows, item.collection) && LabelFree(rows, item.collection, row)
    && (item.collection == Hosts ==> JumpsAllowed(rows, row))
  }

  // ----- the check of jump settings -----

  lemma {:induction false} EndsLater(rows: map<Key, Row>, id: Id, n: nat, m: nat)
    requires EndsWithin(rows, id, n) && n <= m
    ensures EndsWithin(rows, id, m)
    decreases n
  {
    var jump := JumpOf(rows[Key(Hosts, id)]);
    if jump.Some? {
      EndsLater(rows, jump.value, n - 1, m - 1);
    }
  }

  /** The walk from id gets to the cursor, where it is nearer to its end. */
  ghost predicate Nearer(rows: map<Key, Row>, id: Id, cursor: Id) {
    forall n: nat :: EndsWithin(rows, id, n) ==> n > 0 && EndsWithin(rows, cursor, n - 1)
  }

  /** The walk from every visited host gets to the cursor. */
  ghost predicate Approached(rows: map<Key, Row>, visited: set<Id>, own: Id, cursor: Option<Id>) {
    cursor.Some? ==> forall id :: id in visited && id != own ==> Nearer(rows, id, cursor.value)
  }

  lemma {:induction false} NoDescent(rows: map<Key, Row>, id: Id, n: nat)
    requires Nearer(rows, id, id)
    ensures !EndsWithin(rows, id, n)
  {
    if n > 0 {
      NoDescent(rows, id, n - 1);
    }
  }

  /** A walk that comes back to a host never ends. */
  lemma NoWayOut(rows: map<Key, Row>, visited: set<Id>, own: Id, cursor: Id)
    requires Approached(rows, visited, own, Some(cursor)) && cursor in visited && Key(Hosts, own) !in rows
    ensures !JumpsEnd(rows, cursor)
  {
    forall n: nat ensures !EndsWithin(rows, cursor, n) {
      if cursor != own {
        NoDescent(rows, cursor, n);
      }
    }
  }

  lemma ApproachNext(rows: map<Key, Row>, visited: set<Id>, own: Id, cursor: Id)
    requires Approached(rows, visited, own, Some(cursor)) && Key(Hosts, cursor) in rows
    ensures Approached(rows, visited + {cursor}, own, JumpOf(rows[Key(Hosts, cursor)]))
  {
    var next := JumpOf(rows[Key(Hosts, cursor)]);
    if next.Some? {
      assert Nearer(rows, cursor, next.value);
      forall id | id in visited && id != own ensures Nearer(rows, id, next.value) {
        OneNearer(rows, id, cursor, next.value);
      }
    }
  }

  lemma OneNearer(rows: map<Key, Row>, id: Id, cursor: Id, next: Id)
    requires Nearer(rows, id, cursor) && Nearer(rows, cursor, next)
    ensures Nearer(rows, id, next)
  {
    forall n: nat | EndsWithin(rows, id, n) ensures n > 0 && EndsWithin(rows, next, n - 1) {
      EndsLater(rows, next, n - 2, n - 1);
    }
  }

  lemma WalkGoesOn(rows: map<Key, Row>, cursor: Id)
    requires Key(Hosts, cursor) in rows
    ensures var next := JumpOf(rows[Key(Hosts, cursor)]);
            JumpsEnd(rows, cursor) <==> next.None? || JumpsEnd(rows, next.value)
  {
    var next := JumpOf(rows[Key(Hosts, cursor)]);
    if next.None? {
      assert EndsWithin(rows, cursor, 0);
    } else {
      if JumpsEnd(rows, next.value) {
        var n: nat :| EndsWithin(rows, next.value, n);
        assert EndsWithin(rows, cursor, n + 1);
      }
      if JumpsEnd(rows, cursor) {
        var n: nat :| EndsWithin(rows, cursor, n);
        assert EndsWithin(rows, next.value, n - 1);
      }
    }
  }

  /** A host that is not saved yet may have these jump settings. */
  method AssertJumpConfiguration(rows: map<Key, Row>, row: Row) returns (ok: bool)
    requires row.Host? && Key(Hosts, row.id) !in rows
    ensures ok <==> JumpsAllowed(rows, row)
  {
    if row.jumpHostId.Some? && row.jumpHostIds != [] { return false; }
    var known := {row.id};
    for i := 0 to |row.jumpHostIds|
      invariant known == {row.id} + set id | id in row.jumpHostIds[..i]
      invariant forall k :: 0 <= k < i ==> HopAllowed(rows, row, k)
    {
      if row.jumpHostIds[i] in known || Key(Hosts, row.jumpHostIds[i]) !in rows {
        assert !HopAllowed(rows, row, i);
        return false;
      }
      known := known + {row.jumpHostIds[i]};
    }
    var visited := {row.id};
    var cursor := row.jumpHostId;
    ghost var saved := set key | key in rows :: key.id;
    while cursor.Some?
      invariant visited <= saved + {row.id} && row.id in visited
      invariant Approached(rows, visited, row.id, cursor) && (cursor.Some? ==> row.jumpHostId.Some?)
      invariant row.jumpHostId.Some? ==>
                  (JumpsEnd(rows, row.jumpHostId.value) <==> cursor.None? || JumpsEnd(rows, cursor.value))
      decreases (saved + {row.id}) - visited
    {
      if cursor.value in visited {
        NoWayOut(rows, visited, row.id, cursor.value);
        return false;
      }
      if Key(Hosts, cursor.value) !in rows { return false; }
      ApproachNext(rows, visited, row.id, cursor.value);
      WalkGoesOn(rows, cursor.value);
      visited := visited + {cursor.value};
      assert cursor.value in saved;
      cursor := JumpOf(rows[Key(Hosts, cursor.value)]);
    }
    ok := true;
  }

  // ----- what the rules come to for a whole import -----

  /** The targets of two hops that are known before the import are different. */
  predicate ApartTargets(targets: map<Key, Id>, a: Id, b: Id) {
    && a != b
    && (Key(Hosts, a) in targets && Key(Hosts, b) in targets ==> targets[Key(Hosts, a)] != targets[Key(Hosts, b)])
  }

  /** The jump settings of a row of the document are of one kind, and those that are known may be used. */
  ghost predicate JumpsAdmitted(p: Preview, row: Row) {
    row.Host? ==>
      && (row.jumpHostId.None? || row.jumpHostIds == [])
      && (forall i, j :: 0 <= i < j < |row.jumpHostIds| ==>
                           ApartTargets(p.targets, row.jumpHostIds[i], row.jumpHostIds[j]))
      && (row.jumpHostId.Some? && Key(Hosts, row.jumpHostId.value) in p.targets ==>
            JumpsEnd(p.target, p.targets[Key(Hosts, row.jumpHostId.value)]))
  }

  ghost predicate ItemAdmitted(valid: Validation, p: Preview, item: Item) {
    && valid(item.collection, item.row) && LabelFree(p.target, item.collection, item.row)
    && (item.collection == Hosts ==> JumpsAdmitted(p, item.row))
  }

  predicate ApartLabels(a: Item, b: Item) {
    a.collection == b.collection && Label(a.collection, a.row).Some? ==>
      Label(a.collection, a.row) != Label(b.collection, b.row)
  }

  function InPool(items: set<Item>, c: Collection): set<Item> {
    set item | item in items && item.collection in Pool(c)
  }

  predicate Fits(p: Preview, items: set<Item>, c: Collection) {
    InPool(items, c) != {} ==> |KeysIn(p.target, Pool(c))| + |InPool(items, c)| <= Capacity(c)
  }

  /** The items may all be created, in whatever order. */
  ghost predicate Admits(valid: Validation, p: Preview, items: set<Item>) {
    && (forall item :: item in items ==> ItemAdmitted(valid, p, item))
    && (forall a, b :: a in items && b in items && a != b ==> ApartLabels(a, b))
    && (forall c :: Fits(p, items, c))
  }

  /** The rows that the preview asks for. */
  function ToCreate(p: Preview): set<Item> {
    set item | item in Items(p.document) && ShouldCreate(p, item)
  }

  function Logged(log: seq<Item>): set<Item> {
    set item | item in log
  }

  lemma InPoolGrows(items: set<Item>, more: set<Item>, c: Collection)
    requires items <= more
    ensures InPool(items, c) <= InPool(more, c) && |InPool(items, c)| <= |InPool(more, c)|
  {
    SubsetSize(InPool(items, c), InPool(more, c));
  }

  /** What may be created all together may be created in part. */
  lemma AdmitsLess(valid: Validation, p: Preview, items: set<Item>, more: set<Item>)
    requires items <= more && Admits(valid, p, more)
    ensures Admits(valid, p, items)
  {
    hide ItemAdmitted, ApartLabels, InPool;
    forall c ensures Fits(p, items, c) {
      assert Fits(p, more, c);
      InPoolGrows(items, more, c);
    }
  }

  /** No id is given out that a saved row has or names as its jump host. */
  ghost predicate Unused(s: State) {
    && Fresh(s)
    && forall key :: key in s.rows && key.collection == Hosts && JumpOf(s.rows[key]).Some? ==>
                       JumpOf(s.rows[key]).value.number < s.nextId
  }

  // ----- one step of an import: labels -----

  lemma RemapLabel(item: Item, targets: map<Key, Id>, id: Id)
    ensures Label(item.collection, Remap(item, targets, id)) == Label(item.collection, item.row)
  {
  }

  /** The rows of an import in progress are the saved ones and the created ones. */
  lemma {:induction false} RunRows(s: State, log: seq<Item>, key: Key)
    requires key in Run(s, log).rows && key !in s.rows
    ensures exists k :: 0 <= k < |log| && key == Key(log[k].collection, Id(s.nextId + k))
  {
    var init := log[..|log| - 1];
    RunTargets(s, init);
    if key == Key(log[|log| - 1].collection, Id(s.nextId + |init|)) {
      assert |init| == |log| - 1;
    } else {
      RunRows(s, init, key);
      var k :| 0 <= k < |init| && key == Key(init[k].collection, Id(s.nextId + k));
      assert init[k] == log[k];
    }
  }

  lemma CreatedLabel(s: State, log: seq<Item>, k: nat)
    requires Fresh(s) && InTurn(s.targets.Keys, log) && k < |log|
    ensures Key(log[k].collection, Id(s.nextId + k)) in Run(s, log).rows
    ensures Label(log[k].collection, Run(s, log).rows[Key(log[k].collection, Id(s.nextId + k))]) ==
            Label(log[k].collection, log[k].row)
  {
    hide Remap, Run, InTurn, Label, Resolvable, Fresh;
    AllStored(s, log, k);
    RemapLabel(log[k], Run(s, log).targets, Id(s.nextId + k));
  }

  lemma LabelStep(s: State, log: seq<Item>, item: Item, id: Id)
    requires Fresh(s) && InTurn(s.targets.Keys, log)
    ensures LabelFree(Run(s, log).rows, item.collection, Remap(item, Run(s, log).targets, id)) <==>
            LabelFree(s.rows, item.collection, item.row) && forall other :: other in log ==> ApartLabels(item, other)
  {
    var end, c := Run(s, log), item.collection;
    hide Remap, Run, InTurn, Label;
    RemapLabel(item, end.targets, id);
    RunKeeps(s, log);
    if LabelFree(end.rows, c, Remap(item, end.targets, id)) {
      forall other | other in log ensures ApartLabels(item, other) {
        var k :| 0 <= k < |log| && log[k] == other;
        CreatedLabel(s, log, k);
      }
    } else {
      var key :| key in end.rows && key.collection == c && Label(c, end.rows[key]) == Label(c, item.row);
      if key !in s.rows {
        RunRows(s, log, key);
        var k :| 0 <= k < |log| && key == Key(log[k].collection, Id(s.nextId + k));
        CreatedLabel(s, log, k);
        assert log[k] in log && !ApartLabels(item, log[k]);
      }
    }
  }

  // ----- one step of an import: room -----

  lemma {:induction false} RoomTaken(s: State, known: set<Key>, log: seq<Item>, c: Collection)
    requires Fresh(s) && InTurn(known, log)
    ensures |KeysIn(Run(s, log).rows, Pool(c))| == |KeysIn(s.rows, Pool(c))| + |InPool(Logged(log), c)|
  {
    hide Pool, InTurn;
    if log == [] {
      assert InPool(Logged(log), c) == {};
    } else {
      var init, last := log[..|log| - 1], log[|log| - 1];
      InTurnInit(known, log);
      LastIsNew(known, log);
      RoomTaken(s, known, init, c);
      RunKeeps(s, init);
      OneMoreKey(Run(s, init), last, c);
      assert log == init + [last];
      assert Logged(log) == Logged(init) + {last};
      OneMoreItem(Logged(init), last, c);
    }
  }

  lemma LastIsNew(known: set<Key>, log: seq<Item>)
    requires InTurn(known, log) && log != []
    ensures log[|log| - 1] !in log[..|log| - 1]
  {
    assert CreatedInTurn(known, log, |log| - 1);
  }

  lemma OneMoreKey(s: State, item: Item, c: Collection)
    requires Fresh(s)
    ensures |KeysIn(CreateRow(s, item).rows, Pool(c))| ==
            |KeysIn(s.rows, Pool(c))| + if item.collection in Pool(c) then 1 else 0
  {
    hide Remap, Pool;
    var key := Key(item.collection, Id(s.nextId));
    assert KeysIn(CreateRow(s, item).rows, Pool(c)) ==
           KeysIn(s.rows, Pool(c)) + if item.collection in Pool(c) then {key} else {};
  }

  lemma OneMoreItem(items: set<Item>, item: Item, c: Collection)
    requires item !in items
    ensures |InPool(items + {item}, c)| == |InPool(items, c)| + if item.collection in Pool(c) then 1 else 0
  {
    hide Pool;
    assert InPool(items + {item}, c) == InPool(items, c) + if item.collection in Pool(c) then {item} else {};
  }

  lemma SharedPool(c: Collection, d: Collection)
    requires c in Pool(d)
    ensures Pool(c) == Pool(d) && Capacity(c) == Capacity(d)
  {
  }

  lemma SamePool(items: set<Item>, c: Collection, d: Collection)
    requires Pool(c) == Pool(d)
    ensures InPool(items, c) == InPool(items, d)
  {
  }

  /** There is room for one more row exactly when it fits the limits together with those created so far. */
  lemma RoomStep(p: Preview, s: State, known: set<Key>, log: seq<Item>, item: Item)
    requires Fresh(s) && InTurn(known, log) && s.rows == p.target && item !in log
    requires forall c :: Fits(p, Logged(log), c)
    ensures HasRoom(Run(s, log).rows, item.collection) <==> forall c :: Fits(p, Logged(log) + {item}, c)
  {
    var items, d := Logged(log), item.collection;
    RoomTaken(s, known, log, d);
    hide InTurn, Run, Pool, KeysIn, InPool, Capacity;
    OneMoreItem(items, item, d);
    assert Pool(d) == {} || d in Pool(d) by {
      OwnPool(d);
    }
    if HasRoom(Run(s, log).rows, d) {
      forall c ensures Fits(p, items + {item}, c) {
        assert Fits(p, items, c);
        if d in Pool(c) {
          SharedPool(d, c);
          SamePool(items + {item}, c, d);
        } else {
          NotInPool(items, item, c);
        }
      }
    } else {
      assert InPool(items + {item}, d) != {};
      assert !Fits(p, items + {item}, d);
    }
  }

  lemma OwnPool(c: Collection)
    ensures Pool(c) == {} || c in Pool(c)
  {
  }

  lemma NotInPool(items: set<Item>, item: Item, c: Collection)
    requires item.collection !in Pool(c)
    ensures InPool(items + {item}, c) == InPool(items, c)
  {
  }

  // ----- one step of an import: jumps -----

  /** An import in progress that gives out new ids. */
  ghost predicate Orderly(p: Preview, start: State, s: State, log: seq<Item>) {
    Unused(start) && Underway(p, start, s, log)
  }

  /** The target of a row that is known: found by the preview, or the id of the created row k. */
  lemma TargetIs(p: Preview, start: State, s: State, log: seq<Item>, key: Key) returns (k: Option<nat>)
    requires Underway(p, start, s, log) && key in s.targets
    ensures k.None? ==> key in p.targets && s.targets[key] == p.targets[key] && s.targets[key].number < start.nextId
    ensures k.Some? ==> key !in p.targets && k.value < |log| && log[k.value].KeyOf() == key
    ensures k.Some? ==> s.targets[key] == Id(start.nextId + k.value)
  {
    hide Underway, StoredAs;
    if key in p.targets {
      KnownStays(p, start, s, log, key);
      k := None;
    } else {
      var created := CreatedTarget(p, start, s, log, key);
      StoredTarget(start, log, s, created);
      k := Some(created);
    }
  }

  /** Two hops get the same target only if they are the same, or if the preview knows one target for both. */
  lemma SameTarget(p: Preview, start: State, s: State, log: seq<Item>, a: Id, b: Id)
    requires Underway(p, start, s, log) && Key(Hosts, a) in s.targets && Key(Hosts, b) in s.targets
    ensures s.targets[Key(Hosts, a)] == s.targets[Key(Hosts, b)] <==> !ApartTargets(p.targets, a, b)
  {
    hide Underway;
    var i := TargetIs(p, start, s, log, Key(Hosts, a));
    var j := TargetIs(p, start, s, log, Key(Hosts, b));
  }

  lemma StoredTarget(start: State, log: seq<Item>, s: State, k: nat)
    requires k < |log| && StoredAs(start, log, s, k)
    ensures log[k].KeyOf() in s.targets && s.targets[log[k].KeyOf()] == Id(start.nextId + k)
  {
  }

  lemma OrderlyTarget(p: Preview, start: State, s: State, log: seq<Item>)
    requires Orderly(p, start, s, log)
    ensures start.rows == p.target && Underway(p, start, s, log)
  {
  }

  lemma {:induction false} KnownWalk(
    p: Preview, start: State, s: State, log: seq<Item>, id: Id, n: nat)
    requires Orderly(p, start, s, log) && id.number < start.nextId
    ensures EndsWithin(s.rows, id, n) <==> EndsWithin(start.rows, id, n)
    decreases n
  {
    UnderwayKeeps(p, start, s, log);
    assert Unused(start);
    hide Orderly, Underway;
    if Key(Hosts, id) in start.rows && n > 0 {
      var jump := JumpOf(start.rows[Key(Hosts, id)]);
      if jump.Some? {
        KnownWalk(p, start, s, log, jump.value, n - 1);
      }
    }
  }

  /** From a row saved before the import the stored jumps lead where they led before. */
  lemma KnownWalkEnds(p: Preview, start: State, s: State, log: seq<Item>, id: Id)
    requires Orderly(p, start, s, log) && id.number < start.nextId
    ensures JumpsEnd(s.rows, id) <==> JumpsEnd(start.rows, id)
  {
    forall n: nat ensures EndsWithin(s.rows, id, n) <==> EndsWithin(start.rows, id, n) {
      KnownWalk(p, start, s, log, id, n);
    }
  }

  lemma JumpIsReference(row: Row)
    requires row.Host? && row.jumpHostId.Some?
    ensures exists r :: r in References(Hosts, row) && r.target == Key(Hosts, row.jumpHostId.value)
  {
    SiblingsAreReferences(Hosts, row, row.jumpHostId.value);
  }

  /** What created host k jumps through was known before the import, or was created before it. */
  lemma CreatedJump(p: Preview, start: State, s: State, log: seq<Item>, k: nat)
    requires Orderly(p, start, s, log) && k < |log| && log[k].collection == Hosts
    requires log[k].row.Host? && log[k].row.jumpHostId.Some?
    ensures var jump := Key(Hosts, log[k].row.jumpHostId.value);
            jump in p.targets || exists m :: 0 <= m < k && log[m].KeyOf() == jump
  {
    JumpIsReference(log[k].row);
    assert CreatedInTurn(p.targets.Keys, log, k);
    var jump := Key(Hosts, log[k].row.jumpHostId.value);
    if jump !in p.targets {
      assert jump in Keys(log[..k]);
      var item :| item in log[..k] && item.KeyOf() == jump;
      var m :| 0 <= m < k && log[..k][m] == item;
      assert log[m].KeyOf() == jump;
    }
  }

  /** The stored jumps of every created host come to an end. */
  lemma {:induction false} CreatedWalkEnds(
    p: Preview, start: State, s: State, log: seq<Item>, k: nat)
    requires Orderly(p, start, s, log) && k < |log| && log[k].collection == Hosts
    requires forall item :: item in log && item.collection == Hosts ==> JumpsAdmitted(p, item.row)
    ensures JumpsEnd(s.rows, Id(start.nextId + k))
    decreases k
  {
    var row := log[k].row;
    assert log[k] in log;
    StoredJump(p, start, s, log, k);
    WalkGoesOn(s.rows, Id(start.nextId + k));
    if row.Host? && row.jumpHostId.Some? {
      CreatedJump(p, start, s, log, k);
      hide Orderly, Underway, StoredAs, JumpsEnd;
      var jump := Key(Hosts, row.jumpHostId.value);
      if jump in p.targets {
        KnownStays(p, start, s, log, jump);
        KnownWalkEnds(p, start, s, log, p.targets[jump]);
        assert start.rows == p.target by { OrderlyTarget(p, start, s, log); }
      } else {
        var m :| 0 <= m < k && log[m].KeyOf() == jump;
        CreatedWalkEnds(p, start, s, log, m);
        StoredJump(p, start, s, log, m);
      }
    }
  }

  lemma StoredJump(p: Preview, start: State, s: State, log: seq<Item>, k: nat)
    requires Orderly(p, start, s, log) && k < |log| && log[k].collection == Hosts
    ensures log[k].KeyOf() in s.targets && s.targets[log[k].KeyOf()] == Id(start.nextId + k)
    ensures Key(Hosts, Id(start.nextId + k)) in s.rows
    ensures var jump := JumpOf(s.rows[Key(Hosts, Id(start.nextId + k))]);
            if log[k].row.Host? && log[k].row.jumpHostId.Some? then
              && Key(Hosts, log[k].row.jumpHostId.value) in s.targets
              && jump == Some(s.targets[Key(Hosts, log[k].row.jumpHostId.value)])
            else jump.None?
  {
    AllStored(start, log, k);
    hide Orderly, Underway, Run, InTurn, References;
    if log[k].row.Host? && log[k].row.jumpHostId.Some? {
      JumpIsReference(log[k].row);
    }
  }

  /** Hops that are saved are allowed exactly when their targets are different. */
  lemma DistinctHops(rows: map<Key, Row>, row: Row, targets: map<Key, Id>, ids: seq<Id>)
    requires row.Host? && |row.jumpHostIds| == |ids|
    requires forall i :: 0 <= i < |ids| ==> Key(Hosts, row.jumpHostIds[i]) in rows && row.jumpHostIds[i] != row.id
    requires forall i, j :: 0 <= i < j < |ids| ==>
                              (row.jumpHostIds[i] == row.jumpHostIds[j] <==> !ApartTargets(targets, ids[i], ids[j]))
    ensures (forall i :: 0 <= i < |ids| ==> HopAllowed(rows, row, i)) <==>
            forall i, j :: 0 <= i < j < |ids| ==> ApartTargets(targets, ids[i], ids[j])
  {
    hide ApartTargets;
    if i, j :| 0 <= i < j < |ids| && !ApartTargets(targets, ids[i], ids[j]) {
      assert row.jumpHostIds[..j][i] == row.jumpHostIds[j];
      assert !HopAllowed(rows, row, j);
    }
  }

  lemma HopsStep(p: Preview, start: State, s: State, log: seq<Item>, item: Item)
    requires Orderly(p, start, s, log) && item.collection == Hosts && item.row.Host?
    requires forall i :: 0 <= i < |item.row.jumpHostIds| ==> Key(Hosts, item.row.jumpHostIds[i]) in s.targets
    ensures var row, ids := Remap(item, s.targets, Id(s.nextId)), item.row.jumpHostIds;
            && row.Host? && |row.jumpHostIds| == |ids|
            && ((forall i :: 0 <= i < |ids| ==> HopAllowed(s.rows, row, i)) <==>
                forall i, j :: 0 <= i < j < |ids| ==> ApartTargets(p.targets, ids[i], ids[j]))
  {
    hide Orderly, Underway, ApartTargets, HopAllowed;
    var row, ids := Remap(item, s.targets, Id(s.nextId)), item.row.jumpHostIds;
    OrderlyTarget(p, start, s, log);
    TargetsSavedSoFar(p, start, s, log);
    UnderwayKeeps(p, start, s, log);
    assert forall i :: 0 <= i < |ids| ==> row.jumpHostIds[i] == s.targets[Key(Hosts, ids[i])];
    forall i, j | 0 <= i < j < |ids|
      ensures row.jumpHostIds[i] == row.jumpHostIds[j] <==> !ApartTargets(p.targets, ids[i], ids[j])
    {
      SameTarget(p, start, s, log, ids[i], ids[j]);
    }
    forall i | 0 <= i < |ids| ensures Key(Hosts, row.jumpHostIds[i]) in s.rows && row.jumpHostIds[i] != row.id {
      assert Key(Hosts, ids[i]) in s.targets;
    }
    DistinctHops(s.rows, row, p.targets, ids);
  }

  lemma WalkStep(p: Preview, start: State, s: State, log: seq<Item>, id: Id)
    requires Orderly(p, start, s, log) && Key(Hosts, id) in s.targets
    requires forall item :: item in log && item.collection == Hosts ==> JumpsAdmitted(p, item.row)
    ensures JumpsEnd(s.rows, s.targets[Key(Hosts, id)]) <==>
            (Key(Hosts, id) in p.targets ==> JumpsEnd(p.target, p.targets[Key(Hosts, id)]))
  {
    OrderlyTarget(p, start, s, log);
    hide Orderly, Underway, JumpsEnd, JumpsAdmitted, StoredAs;
    if Key(Hosts, id) in p.targets {
      KnownStays(p, start, s, log, Key(Hosts, id));
      KnownWalkEnds(p, start, s, log, p.targets[Key(Hosts, id)]);
    } else {
      var k := CreatedTarget(p, start, s, log, Key(Hosts, id));
      StoredTarget(start, log, s, k);
      CreatedWalkEnds(p, start, s, log, k);
    }
  }

  lemma HostResolves(item: Item, targets: map<Key, Id>)
    requires Resolvable(item, targets) && item.collection == Hosts && item.row.Host?
    ensures item.row.jumpHostId.Some? ==> Key(Hosts, item.row.jumpHostId.value) in targets
    ensures forall i :: 0 <= i < |item.row.jumpHostIds| ==> Key(Hosts, item.row.jumpHostIds[i]) in targets
  {
    assert AllIn(References(item.collection, item.row), targets.Keys);
    ReferenceFields(Hosts, item.row, targets.Keys);
  }

  /** The repository takes the jump settings of the next host exactly when they are admitted by the preview. */
  lemma JumpStep(p: Preview, start: State, s: State, log: seq<Item>, item: Item)
    requires Orderly(p, start, s, log) && Resolvable(item, s.targets) && item.collection == Hosts
    requires forall other :: other in log && other.collection == Hosts ==> JumpsAdmitted(p, other.row)
    ensures JumpsAllowed(s.rows, Remap(item, s.targets, Id(s.nextId))) <==> JumpsAdmitted(p, item.row)
  {
    hide Orderly, JumpsEnd, Resolvable, ApartTargets, HopAllowed;
    if item.row.Host? {
      HostResolves(item, s.targets);
      HopsStep(p, start, s, log, item);
      if item.row.jumpHostId.Some? {
        WalkStep(p, start, s, log, item.row.jumpHostId.value);
      }
    }
  }

  // ----- the rules and the preview -----

  lemma ApartBothWays(a: Item, b: Item)
    ensures ApartLabels(a, b) <==> ApartLabels(b, a)
  {
  }

  lemma AdmitsOneMore(valid: Validation, p: Preview, items: set<Item>, item: Item)
    requires Admits(valid, p, items) && item !in items
    ensures Admits(valid, p, items + {item}) <==>
            && ItemAdmitted(valid, p, item)
            && (forall other :: other in items ==> ApartLabels(item, other))
            && forall c :: Fits(p, items + {item}, c)
  {
    hide ItemAdmitted, ApartLabels, Fits;
    forall other ensures ApartLabels(item, other) <==> ApartLabels(other, item) {
      ApartBothWays(item, other);
    }
    if Admits(valid, p, items + {item}) {
      forall other | other in items ensures ApartLabels(item, other) {
        assert item in items + {item} && other in items + {item};
      }
    }
  }

  /**
   The repository takes the next row of an import exactly when the preview admits that row together with
   those created so far.
   */
  lemma StepAdmitted(valid: Validation, p: Preview, start: State, s: State, log: seq<Item>, item: Item)
    requires Orderly(p, start, s, log) && Resolvable(item, s.targets) && item !in log
    requires Admits(valid, p, Logged(log))
    ensures Accepts(valid, s.rows, item, Remap(item, s.targets, Id(s.nextId))) <==>
            Admits(valid, p, Logged(log) + {item})
  {
    hide Orderly, Underway, Resolvable, Remap, HasRoom, LabelFree, JumpsAllowed, JumpsAdmitted, Fits, ApartLabels;
    AdmitsOneMore(valid, p, Logged(log), item);
    LabelsAndRoom(valid, p, start, s, log, item);
    if item.collection == Hosts {
      forall other | other in log && other.collection == Hosts ensures JumpsAdmitted(p, other.row) {
        assert other in Logged(log);
      }
      JumpStep(p, start, s, log, item);
    }
  }

  lemma LabelsAndRoom(valid: Validation, p: Preview, start: State, s: State, log: seq<Item>, item: Item)
    requires Orderly(p, start, s, log) && item !in log && Admits(valid, p, Logged(log))
    ensures LabelFree(s.rows, item.collection, Remap(item, s.targets, Id(s.nextId))) <==>
            && LabelFree(p.target, item.collection, item.row)
            && forall other :: other in Logged(log) ==> ApartLabels(item, other)
    ensures HasRoom(s.rows, item.collection) <==> forall c :: Fits(p, Logged(log) + {item}, c)
  {
    assert start.rows == p.target && start.targets == p.targets;
    hide Committable, ShouldCreate, Items, Run, ItemAdmitted, LabelFree, HasRoom, Fits, ApartLabels, Remap, InTurn;
    LabelStep(start, log, item, Id(s.nextId));
    RoomStep(p, start, p.targets.Keys, log, item);
  }

  // ----- what the rules give after an import -----

  /** The repository's rule for jump settings holds for every saved host. */
  ghost predicate Configured(rows: map<Key, Row>) {
    forall key :: key in rows && key.collection == Hosts ==> JumpsAllowed(rows, rows[key])
  }

  lemma {:induction false} EndsInMore(rows: map<Key, Row>, more: map<Key, Row>, id: Id, n: nat)
    requires EndsWithin(rows, id, n) && forall key :: key in rows ==> key in more && more[key] == rows[key]
    ensures EndsWithin(more, id, n)
    decreases n
  {
    var jump := JumpOf(rows[Key(Hosts, id)]);
    if jump.Some? {
      EndsInMore(rows, more, jump.value, n - 1);
    }
  }

  /** More saved rows do no harm to jump settings. */
  lemma AllowedInMore(rows: map<Key, Row>, more: map<Key, Row>, row: Row)
    requires JumpsAllowed(rows, row) && forall key :: key in rows ==> key in more && more[key] == rows[key]
    ensures JumpsAllowed(more, row)
  {
    if row.Host? {
      forall i | 0 <= i < |row.jumpHostIds| ensures HopAllowed(more, row, i) {
        assert HopAllowed(rows, row, i);
      }
      if row.jumpHostId.Some? {
        var n: nat :| EndsWithin(rows, row.jumpHostId.value, n);
        EndsInMore(rows, more, row.jumpHostId.value, n);
      }
    }
  }

  lemma OneMoreConfigured(rows: map<Key, Row>, key: Key, row: Row)
    requires Configured(rows) && key !in rows && (key.collection == Hosts ==> JumpsAllowed(rows, row))
    ensures Configured(rows[key := row])
  {
    hide JumpsAllowed;
    forall k | k in rows[key := row] && k.collection == Hosts
      ensures JumpsAllowed(rows[key := row], rows[key := row][k])
    {
      AllowedInMore(rows, rows[key := row], rows[key := row][k]);
    }
  }

  lemma LoggedInit(log: seq<Item>)
    requires log != []
    ensures Logged(log) == Logged(log[..|log| - 1]) + {log[|log| - 1]}
    ensures Logged(log[..|log| - 1]) <= Logged(log)
  {
    assert log == log[..|log| - 1] + [log[|log| - 1]];
  }

  /** The row that was created last had been accepted. */
  lemma LastAdmitted(valid: Validation, p: Preview, start: State, s: State, log: seq<Item>)
    requires Orderly(p, start, s, log) && Admits(valid, p, Logged(log)) && log != []
    ensures var before, last := Run(start, log[..|log| - 1]), log[|log| - 1];
            Accepts(valid, before.rows, last, Remap(last, before.targets, Id(before.nextId)))
    ensures Admits(valid, p, Logged(log[..|log| - 1]))
  {
    var init, last := log[..|log| - 1], log[|log| - 1];
    hide Orderly, Run, Admits, Accepts, Remap, Resolvable, CreateRow, Fresh, Logged;
    OrderlyInit(p, start, s, log);
    LoggedInit(log);
    AdmitsLess(valid, p, Logged(init), Logged(log));
    StepAdmitted(valid, p, start, Run(start, init), init, last);
  }

  /** An admitted import keeps the repository's rule for jump settings. */
  lemma {:induction false} StaysConfigured(valid: Validation, p: Preview, start: State, s: State, log: seq<Item>)
    requires Orderly(p, start, s, log) && Admits(valid, p, Logged(log)) && Configured(start.rows)
    ensures Configured(s.rows)
    decreases |log|
  {
    hide Orderly, Admits, Accepts, Configured, Remap, Resolvable, CreateRow, Fresh;
    RunIs(p, start, s, log);
    if log == [] {
      assert s == start;
    } else {
      OrderlyInit(p, start, s, log);
      LastAdmitted(valid, p, start, s, log);
      hide Run;
      var init := log[..|log| - 1];
      StaysConfigured(valid, p, start, Run(start, init), init);
      LastAccepted(valid, Run(start, init), log[|log| - 1]);
    }
  }

  lemma OrderlyInit(p: Preview, start: State, s: State, log: seq<Item>)
    requires Orderly(p, start, s, log) && log != []
    ensures var init, last := log[..|log| - 1], log[|log| - 1];
            var before := Run(start, init);
            && Orderly(p, start, before, init) && Resolvable(last, before.targets) && last !in init
            && Fresh(before) && s == CreateRow(before, last)
  {
    hide Committable, ShouldCreate, Items;
    InTurnInit(p.targets.Keys, log);
    LastIsNew(p.targets.Keys, log);
    RunTargets(start, log[..|log| - 1]);
    RunKeeps(start, log[..|log| - 1]);
  }

  lemma LastAccepted(valid: Validation, before: State, last: Item)
    requires Accepts(valid, before.rows, last, Remap(last, before.targets, Id(before.nextId)))
    requires Configured(before.rows) && Fresh(before)
    ensures Configured(CreateRow(before, last).rows)
  {
    OneMoreConfigured(
      before.rows, Key(last.collection, Id(before.nextId)), Remap(last, before.targets, Id(before.nextId)));
  }

  /** An import gives out its ids in such a way that the next import can do so again. */
  lemma UnusedAgain(p: Preview, start: State, s: State, log: seq<Item>)
    requires Orderly(p, start, s, log)
    ensures Unused(s)
  {
    OrderlyTarget(p, start, s, log);
    TargetsSavedSoFar(p, start, s, log);
    UnderwayKeeps(p, start, s, log);
    assert Unused(start);
    hide Orderly, Underway;
    forall key | key in s.rows && key.collection == Hosts && JumpOf(s.rows[key]).Some?
      ensures JumpOf(s.rows[key]).value.number < s.nextId
    {
      if key !in start.rows {
        RunIs(p, start, s, log);
        RunRows(start, log, key);
        var k :| 0 <= k < |log| && key == Key(log[k].collection, Id(start.nextId + k));
        StoredJump(p, start, s, log, k);
      }
    }
  }

  lemma RunIs(p: Preview, start: State, s: State, log: seq<Item>)
    requires Orderly(p, start, s, log)
    ensures s == Run(start, log)
  {
  }

  /** Where nothing is to be created nothing can be refused. */
  lemma NothingRefused(valid: Validation, p: Preview)
    ensures Admits(valid, p, {})
  {
    forall c ensures Fits(p, {}, c) {
      assert InPool({}, c) == {};
    }
  }
}
