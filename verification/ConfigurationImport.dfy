/**
 The import of a previewed configuration: rows are created collection by collection, hosts and groups
 through a worklist that waits for the rows they refer to.
 */
module ConfigurationImport {
  import opened Common
  import opened ReferenceGraph
  import opened ConfigurationDocument
  import opened ConfigurationInspection
  import opened ConfigurationPreview
  import opened ConfigurationRules
  import opened ConfigurationRun

  datatype ImportError = CannotCommit | TargetChanged | Refused

  // ----- what a committable preview guarantees -----

  predicate CompleteIn(doc: Document, c: Collection, targets: map<Key, Id>) {
    forall row :: row in doc.Rows(c) ==> Key(c, row.id) in targets
  }

  /** The collections the references of a row of c lead to. */
  function DependsOn(c: Collection): set<Collection> {
    match c
    case Hosts => {HostGroups, Hosts}
    case BookmarkGroups => {BookmarkGroups}
    case Bookmarks => {BookmarkGroups, Hosts, TerminalProfiles, ConnectionProfiles}
    case TunnelProfiles => {Hosts}
    case QuickCommandGroups => {QuickCommandGroups}
    case QuickCommands => {QuickCommandGroups}
    case _ => {}
  }

  lemma ReferencesDepend(c: Collection, row: Row)
    ensures forall r :: r in References(c, row) ==> r.target.collection in DependsOn(c)
  {
  }

  /** A row can be created once the collections it depends on are complete and its siblings are known. */
  lemma RowResolvable(p: Preview, item: Item, before: map<Key, Id>, targets: map<Key, Id>)
    requires Committable(p) && item in Items(p.document) && before.Keys <= targets.Keys
    requires forall d :: d in DependsOn(item.collection) && d != item.collection ==> CompleteIn(p.document, d, before)
    requires forall id :: id in Siblings(item.collection, item.row) ==> Key(item.collection, id) in targets
    ensures Resolvable(item, targets)
  {
    var c, row := item.collection, item.row;
    ReferencesDepend(c, row);
    assert ReferencesPresent(p.document, c) && ReferencesFound(p.document, c, row);
    forall r | r in References(c, row) ensures r.target in targets {
      assert Names(p.document, r.target);
      if r.target.collection == c {
        SiblingsAreReferences(c, row, r.target.id);
      } else {
        assert CompleteIn(p.document, r.target.collection, before);
      }
    }
  }

  // ----- the worklist -----

  predicate IsReady(c: Collection, row: Row, targets: map<Key, Id>) {
    forall id :: id in Siblings(c, row) ==> Key(c, id) in targets
  }

  /** The rows of c that wait are exactly those without a target. */
  ghost predicate Waiting(p: Preview, c: Collection, pending: seq<Row>, targets: map<Key, Id>) {
    && UniqueIds(pending)
    && (forall row :: row in pending ==>
                        row in p.document.Rows(c) && ShouldCreate(p, Item(c, row)) && Key(c, row.id) !in targets)
    && (forall row :: row in p.document.Rows(c) ==> Key(c, row.id) in targets || row in pending)
  }

  /** While rows wait, one of them is ready: otherwise their references would form a cycle. */
  lemma SomeReady(p: Preview, c: Collection, pending: seq<Row>, targets: map<Key, Id>)
    requires Committable(p) && Waiting(p, c, pending, targets) && pending != []
    requires !HasCycle(SiblingGraph(p.document, c))
    ensures exists row :: row in pending && IsReady(c, row, targets)
  {
    hide HasCycle, IsReady, SiblingGraph;
    var g := SiblingGraph(p.document, c);
    var stuck := Ids(pending);
    if !exists row :: row in pending && IsReady(c, row, targets) {
      forall a | a in stuck ensures HasEdgeInto(g, a, stuck) {
        var row :| row in pending && row.id == a;
        assert !IsReady(c, row, targets);
        StuckRow(p, c, pending, targets, row);
      }
      assert pending[0] in pending;
      StuckHasCycle(g, stuck, [pending[0].id]);
    }
  }

  lemma StuckRow(p: Preview, c: Collection, pending: seq<Row>, targets: map<Key, Id>, row: Row)
    requires Committable(p) && Waiting(p, c, pending, targets)
    requires row in pending && !IsReady(c, row, targets)
    ensures HasEdgeInto(SiblingGraph(p.document, c), row.id, Ids(pending))
  {
    var rows := p.document.Rows(c);
    var id :| id in Siblings(c, row) && Key(c, id) !in targets;
    SiblingsAreReferences(c, row, id);
    assert ReferencesPresent(p.document, c) && ReferencesFound(p.document, c, row);
    assert id in Ids(rows);
    var other :| other in rows && other.id == id;
    assert other in pending;
    AdmissibleRows(p.document, p.target, c);
    SiblingsOf(p.document, c, row);
    SiblingsKeys(c, rows);
    assert IsEdge(SiblingGraph(p.document, c), row.id, id);
  }

  // ----- the order of creation -----

  /** The rows of a list that are to be created, in the order of the list. */
  function Chosen(p: Preview, c: Collection, list: seq<Row>): seq<Item> {
    if list == [] then []
    else
      var item := Item(c, list[|list| - 1]);
      Chosen(p, c, list[..|list| - 1]) + if ShouldCreate(p, item) then [item] else []
  }

  predicate Positioned(c: Collection) {
    c == Bookmarks || c == QuickCommands
  }

  /** Bookmarks and quick commands have been created in the order of their positions. */
  predicate Ordered(log: seq<Item>) {
    forall i, j :: 0 <= i < j < |log| && Positioned(log[i].collection) && log[j].collection == log[i].collection ==>
      PositionOf(log[i].row) <= PositionOf(log[j].row)
  }

  lemma {:induction false} ChosenRows(p: Preview, c: Collection, list: seq<Row>)
    ensures forall item :: item in Chosen(p, c, list) ==> item.collection == c && item.row in list
    ensures Ascending(list) ==>
              forall i, j :: 0 <= i < j < |Chosen(p, c, list)| ==>
                PositionOf(Chosen(p, c, list)[i].row) <= PositionOf(Chosen(p, c, list)[j].row)
  {
    hide ShouldCreate, PositionOf;
    if list != [] {
      ChosenRows(p, c, list[..|list| - 1]);
    }
  }

  lemma OrderedWithMore(log: seq<Item>, c: Collection, more: seq<Item>)
    requires Ordered(log) && NoneIn(log, c)
    requires forall item :: item in more ==> item.collection == c
    requires Positioned(c) ==>
               forall i, j :: 0 <= i < j < |more| ==> PositionOf(more[i].row) <= PositionOf(more[j].row)
    ensures Ordered(log + more)
  {
    hide PositionOf;
  }

  predicate NoneIn(log: seq<Item>, c: Collection) {
    forall item :: item in log ==> item.collection != c
  }

  /** Only rows of c have been added to the log. */
  predicate ExtendedBy(log: seq<Item>, done: seq<Item>, c: Collection) {
    log <= done && forall k :: |log| <= k < |done| ==> done[k].collection == c
  }

  lemma ExtendedTwice(log: seq<Item>, done: seq<Item>, later: seq<Item>, c: Collection)
    requires ExtendedBy(log, done, c) && ExtendedBy(done, later, c)
    ensures ExtendedBy(log, later, c)
  {
  }

  lemma ExtendedOrdered(log: seq<Item>, done: seq<Item>, c: Collection)
    requires Ordered(log) && NoneIn(log, c)
    requires ExtendedBy(log, done, c) && !Positioned(c)
    ensures Ordered(done)
  {
    assert done == log + done[|log|..];
    OrderedWithMore(log, c, done[|log|..]);
  }

  lemma ExtendedStart(log: seq<Item>, c: Collection)
    ensures ExtendedBy(log, log, c)
  {
  }

  lemma ChosenNext(p: Preview, c: Collection, list: seq<Row>, i: nat, log: seq<Item>, done: seq<Item>)
    requires i < |list| && done == log + Chosen(p, c, list[..i])
    ensures log + Chosen(p, c, list[..i + 1]) ==
            if ShouldCreate(p, Item(c, list[i])) then done + [Item(c, list[i])] else done
  {
    assert list[..i + 1][..i] == list[..i];
  }

  lemma RowsOrdered(p: Preview, c: Collection, list: seq<Row>, log: seq<Item>)
    requires Ordered(log) && NoneIn(log, c)
    requires Positioned(c) ==> Ascending(list)
    ensures Ordered(log + Chosen(p, c, list)) && Chosen(p, c, []) == []
  {
    ChosenRows(p, c, list);
    OrderedWithMore(log, c, Chosen(p, c, list));
  }

  // ----- the import itself -----

  class ConfigurationService {
    const valid: Validation
    var rows: map<Key, Row>
    var entries: map<Key, Entry>
    var settings: Settings
    var nextId: nat
    /** The import in progress: the targets known so far and the number of rows created. */
    var targets: map<Key, Id>
    var created: nat

    constructor (
      valid: Validation, rows: map<Key, Row>, entries: map<Key, Entry>, settings: Settings, nextId: nat)
      ensures Now() == State(rows, entries, map[], nextId) && this.settings == settings && this.valid == valid
    {
      this.valid := valid;
      this.rows, this.entries, this.settings, this.nextId := rows, entries, settings, nextId;
      targets, created := map[], 0;
    }

    function Now(): State
      reads this
    {
      State(rows, entries, targets, nextId)
    }

    /** The import in progress has created the rows of log; the finished collections are complete. */
    ghost predicate Importing(p: Preview, start: State, log: seq<Item>, finished: set<Collection>)
      reads this
    {
      && Progress(p, start, Now(), created, log) && Lawful(valid, p, start, log) && Ordered(log)
      && (forall c :: c in finished ==> CompleteIn(p.document, c, targets))
      && (forall key :: key in targets && key.collection !in finished ==> key in p.targets)
    }

    /** The checks of the repository that a row is handed to. */
    method Accept(item: Item, row: Row) returns (ok: bool)
      requires item.collection == Hosts && row.Host? ==> Key(Hosts, row.id) !in rows
      ensures ok <==> Accepts(valid, rows, item, row)
    {
      ok := valid(item.collection, item.row) && HasRoom(rows, item.collection) && LabelFree(rows, item.collection, row);
      if ok && item.collection == Hosts && row.Host? {
        ok := AssertJumpConfiguration(rows, row);
      }
    }

    /** Creates one row and registers its target, unless the repository refuses the row. */
    method Create(p: Preview, item: Item, ghost start: State, ghost log: seq<Item>) returns (ok: bool)
      requires Committable(p) && Lawful(valid, p, start, log)
      requires Progress(p, start, Now(), created, log) && Resolvable(item, targets)
      requires item in Items(p.document) && ShouldCreate(p, item) && item.KeyOf() !in targets
      modifies `rows, `entries, `nextId, `targets, `created
      ensures ok <==> Accepts(valid, old(rows), item, Remap(item, old(targets), Id(old(nextId))))
      ensures !ok ==> Now() == old(Now()) && !Admits(valid, p, ToCreate(p))
      ensures ok ==> Progress(p, start, Now(), created, log + [item]) && Lawful(valid, p, start, log + [item])
      ensures ok ==> targets.Keys == old(targets.Keys) + {item.KeyOf()}
    {
      hide Remap, Resolvable, ShouldCreate, Items, Progress, Committable, Lawful, Accepts, Admits, ToCreate;
      ghost var before := Now();
      StepLawful(valid, p, start, before, created, log, item);
      var id := Id(nextId);
      var row := Remap(item, targets, id);
      ok := Accept(item, row);
      if !ok { return; }
      ProgressNext(p, start, before, created, log, item);
      rows := rows[Key(item.collection, id) := row];
      nextId := nextId + 1;
      targets := targets[item.KeyOf() := id];
      entries := entries[item.KeyOf() := Entry(item.row, id)];
      created := created + 1;
      assert Now() == CreateRow(before, item);
    }

    /** Creates the rows of a collection that does not refer to itself. */
    method ImportRows(
      p: Preview, c: Collection, list: seq<Row>, ghost start: State, ghost log: seq<Item>,
      ghost finished: set<Collection>
    ) returns (ok: bool, ghost done: seq<Item>)
      requires Committable(p) && Importing(p, start, log, finished)
      requires multiset(list) == multiset(p.document.Rows(c)) && (Positioned(c) ==> Ascending(list))
      requires c !in finished && c !in DependsOn(c) && DependsOn(c) <= finished
      modifies `rows, `entries, `nextId, `targets, `created
      ensures !ok ==> !Admits(valid, p, ToCreate(p))
      ensures ok ==> Importing(p, start, done, finished + {c}) && done == log + Chosen(p, c, list)
    {
      hide Ordered, Ascending, Positioned, PositionOf, Chosen, NoneIn;
      hide Progress, Committable, Resolvable, ShouldCreate, Items, ListedUpTo, UniqueIds, References, Siblings;
      hide Lawful, Accepts, Admits, ToCreate;
      NoneOf(p, start, log, finished, c);
      RowsOrdered(p, c, list, log);
      ListedRows(p, c, list);
      ghost var known := targets;
      done := log;
      assert list[..0] == [];
      ListStart(p, c, list, start, Now(), created, log);
      for i := 0 to |list|
        invariant Progress(p, start, Now(), created, done) && Lawful(valid, p, start, done)
        invariant done == log + Chosen(p, c, list[..i])
        invariant OnlyAdds(c, known, targets) && ListedUpTo(p, c, list, i, targets)
      {
        var item := Item(c, list[i]);
        ChosenNext(p, c, list, i, log, done);
        ghost var before := targets;
        ListNext(p, c, list, i, targets);
        if ShouldCreate(p, item) {
          NoSiblings(c, item.row);
          RowResolvable(p, item, known, targets);
          ok := Create(p, item, start, done);
          if !ok { return; }
          done := done + [item];
        }
        ListStep(p, c, list, i, before, targets);
      }
      ListEnd(p, c, list, targets);
      assert list[..|list|] == list;
      ok := true;
    }

    /** Rows of a collection that is still to come have not been created. */
    lemma NoneOf(p: Preview, start: State, log: seq<Item>, finished: set<Collection>, c: Collection)
      requires Importing(p, start, log, finished) && c !in finished
      ensures NoneIn(log, c)
    {
      hide Ordered, Lawful;
      RunTargets(start, log);
      forall item | item in log ensures item.collection != c {
        var k :| 0 <= k < |log| && log[k] == item;
        assert CreatedInTurn(p.targets.Keys, log, k);
        assert item.KeyOf() in targets;
      }
    }

    /** One pass over the waiting rows, from the last to the first. */
    method ImportPass(
      p: Preview, c: Collection, list: seq<Row>, ghost start: State, ghost log: seq<Item>, ghost known: map<Key, Id>
    ) returns (ok: bool, pending: seq<Row>, progressed: bool, ghost done: seq<Item>)
      requires Committable(p) && Progress(p, start, Now(), created, log) && Waiting(p, c, list, targets)
      requires OnlyAdds(c, known, targets) && Lawful(valid, p, start, log)
      requires forall d :: d in DependsOn(c) && d != c ==> CompleteIn(p.document, d, known)
      modifies `rows, `entries, `nextId, `targets, `created
      ensures !ok ==> !Admits(valid, p, ToCreate(p))
      ensures ok ==> Progress(p, start, Now(), created, done) && Lawful(valid, p, start, done)
      ensures ok ==> OnlyAdds(c, known, targets) && Waiting(p, c, pending, targets)
      ensures ok ==> ExtendedBy(log, done, c)
      ensures ok && progressed ==> |pending| < |list|
      ensures ok && !progressed ==> pending == list && forall row :: row in list ==> !IsReady(c, row, targets)
    {
      hide Progress, Committable, Resolvable, IsReady, Waiting, ShouldCreate, Items, CompleteIn;
      hide Lawful, Accepts, Admits, ToCreate;
      ok, pending, progressed, done := true, list, false, log;
      var index := |pending|;
      while index > 0
        invariant ok && 0 <= index <= |pending| <= |list|
        invariant ExtendedBy(log, done, c)
        invariant Progress(p, start, Now(), created, done) && Lawful(valid, p, start, done)
        invariant OnlyAdds(c, known, targets) && Waiting(p, c, pending, targets)
        invariant progressed ==> |pending| < |list|
        invariant !progressed ==> pending == list && forall k :: index <= k < |list| ==> !IsReady(c, list[k], targets)
      {
        index := index - 1;
        var row := pending[index];
        if IsReady(c, row, targets) {
          ghost var before := targets;
          WaitingItem(p, c, pending, index, targets);
          ReadySiblings(c, row, targets);
          RowResolvable(p, Item(c, row), known, targets);
          ok := Create(p, Item(c, row), start, done);
          if !ok { return; }
          done := done + [Item(c, row)];
          Spliced(p, c, pending, index, before, targets);
          pending := pending[..index] + pending[index + 1..];
          progressed := true;
        }
      }
    }

    /** Creates hosts or groups, each after the rows of its own collection it refers to. */
    method ImportWorklist(
      p: Preview, c: Collection, list: seq<Row>, ghost start: State, ghost log: seq<Item>,
      ghost finished: set<Collection>
    ) returns (ok: bool, ghost done: seq<Item>)
      requires Committable(p) && Importing(p, start, log, finished)
      requires multiset(list) == multiset(p.document.Rows(c))
      requires c == Hosts || c == BookmarkGroups || c == QuickCommandGroups
      requires c !in finished && DependsOn(c) - {c} <= finished
      modifies `rows, `entries, `nextId, `targets, `created
      ensures !ok ==> !Admits(valid, p, ToCreate(p))
      ensures ok ==> Importing(p, start, done, finished + {c})
    {
      hide Progress, Committable, HasCycle, Waiting, SiblingGraph, UniqueIds, Items, ShouldCreate, IsReady;
      hide Lawful, Admits, ToCreate, Ordered, ExtendedBy, NoneIn;
      NoneOf(p, start, log, finished, c);
      ghost var known := targets;
      var pending := FilterCreate(p, c, list);
      ListedRows(p, c, list);
      FilteredRows(p, c, list, start, Now(), created, log);
      CommittableAcyclic(p, c);
      ExtendedStart(log, c);
      done := log;
      while pending != []
        invariant Progress(p, start, Now(), created, done) && Lawful(valid, p, start, done)
        invariant OnlyAdds(c, known, targets) && Waiting(p, c, pending, targets)
        invariant ExtendedBy(log, done, c)
        decreases |pending|
      {
        var progressed;
        ghost var waiting := pending;
        ghost var earlier := done;
        ok, pending, progressed, done := ImportPass(p, c, pending, start, done, known);
        if !ok { return; }
        ExtendedTwice(log, earlier, done, c);
        if !progressed {
          SomeReady(p, c, waiting, targets);
        }
      }
      NoneWaiting(p, c, targets);
      ExtendedOrdered(log, done, c);
      ok := true;
    }

    /** Host groups and profiles, then the hosts. */
    method ImportHosts(p: Preview, ghost start: State) returns (ok: bool, ghost log: seq<Item>)
      requires Committable(p) && Importing(p, start, [], {})
      modifies `rows, `entries, `nextId, `targets, `created
      ensures !ok ==> !Admits(valid, p, ToCreate(p))
      ensures ok ==> Importing(p, start, log, {HostGroups, ConnectionProfiles, TerminalProfiles, Hosts})
    {
      hide Importing, Committable, Admits, ToCreate;
      var doc := p.document;
      ok, log := ImportRows(p, HostGroups, doc.Rows(HostGroups), start, [], {});
      if !ok { return; }
      assert {} + {HostGroups} == {HostGroups};
      ok, log := ImportRows(p, ConnectionProfiles, doc.Rows(ConnectionProfiles), start, log, {HostGroups});
      if !ok { return; }
      ok, log := ImportRows(
        p, TerminalProfiles, doc.Rows(TerminalProfiles), start, log, {HostGroups} + {ConnectionProfiles});
      if !ok { return; }
      ghost var ready := {HostGroups} + {ConnectionProfiles} + {TerminalProfiles};
      ok, log := ImportWorklist(p, Hosts, doc.Rows(Hosts), start, log, ready);
      assert ready + {Hosts} == {HostGroups, ConnectionProfiles, TerminalProfiles, Hosts};
    }

    /** The trees of bookmarks and of quick commands, and the tunnels. */
    method ImportTrees(p: Preview, ghost start: State, ghost before: seq<Item>, ghost ready: set<Collection>)
      returns (ok: bool, ghost log: seq<Item>)
      requires Committable(p) && Importing(p, start, before, ready)
      requires ready == {HostGroups, ConnectionProfiles, TerminalProfiles, Hosts}
      modifies `rows, `entries, `nextId, `targets, `created
      ensures !ok ==> !Admits(valid, p, ToCreate(p))
      ensures var trees := {BookmarkGroups} + {Bookmarks} + {TunnelProfiles} + {QuickCommandGroups} + {QuickCommands};
              ok ==> Importing(p, start, log, ready + trees)
    {
      hide Importing, Committable, SortByPosition, Admits, ToCreate;
      var doc := p.document;
      SortKeeps(doc.Rows(BookmarkGroups));
      ok, log := ImportWorklist(p, BookmarkGroups, SortByPosition(doc.Rows(BookmarkGroups)), start, before, ready);
      if !ok { return; }
      ghost var finished := ready + {BookmarkGroups};
      SortKeeps(doc.Rows(Bookmarks));
      SortOrders(doc.Rows(Bookmarks), 0);
      ok, log := ImportRows(p, Bookmarks, SortByPosition(doc.Rows(Bookmarks)), start, log, finished);
      if !ok { return; }
      finished := finished + {Bookmarks};
      ok, log := ImportRows(p, TunnelProfiles, doc.Rows(TunnelProfiles), start, log, finished);
      if !ok { return; }
      finished := finished + {TunnelProfiles};
      SortKeeps(doc.Rows(QuickCommandGroups));
      ok, log := ImportWorklist(
        p, QuickCommandGroups, SortByPosition(doc.Rows(QuickCommandGroups)), start, log, finished);
      if !ok { return; }
      finished := finished + {QuickCommandGroups};
      SortKeeps(doc.Rows(QuickCommands));
      SortOrders(doc.Rows(QuickCommands), 0);
      ok, log := ImportRows(p, QuickCommands, SortByPosition(doc.Rows(QuickCommands)), start, log, finished);
      ghost var trees := {BookmarkGroups} + {Bookmarks} + {TunnelProfiles} + {QuickCommandGroups} + {QuickCommands};
      assert finished + {QuickCommands} == ready + trees;
    }

    /** Everything but the triggers. */
    method ImportUntilThemes(p: Preview, ghost start: State)
      returns (ok: bool, ghost log: seq<Item>, ghost finished: set<Collection>)
      requires Committable(p) && Importing(p, start, [], {})
      modifies `rows, `entries, `nextId, `targets, `created
      ensures !ok ==> !Admits(valid, p, ToCreate(p))
      ensures ok ==> Importing(p, start, log, finished) && Triggers !in finished
      ensures ok ==> forall c :: c == Triggers || c in finished
    {
      hide Importing, Committable, Admits, ToCreate;
      ghost var ready := {HostGroups, ConnectionProfiles, TerminalProfiles, Hosts};
      finished := {};
      ok, log := ImportHosts(p, start);
      if !ok { return; }
      ok, log := ImportTrees(p, start, log, ready);
      if !ok { return; }
      ghost var trees := {BookmarkGroups} + {Bookmarks} + {TunnelProfiles} + {QuickCommandGroups} + {QuickCommands};
      finished := ready + trees;
      ok, log := ImportRows(p, TerminalThemes, p.document.Rows(TerminalThemes), start, log, finished);
      finished := finished + {TerminalThemes};
    }

    method ApplySettings(p: Preview, ghost finished: set<Collection>)
      requires Committable(p)
      requires {Hosts, Bookmarks, TerminalProfiles} <= finished
      requires forall c :: c in finished ==> CompleteIn(p.document, c, targets)
      modifies `settings
      ensures SettingsApplied(p, Now(), old(settings), settings)
    {
      hide Committable, RemapSettings, SettingsResolve, SettingsTell;
      if p.applySettings {
        SettingsReferencesResolve(p, targets);
        assert SettingsResolve(p.document, targets);
        SettingsLead(p.document, targets, rows, settings.themeId);
        settings := RemapSettings(p.document, targets, rows, settings.themeId);
      }
    }

    /** The whole import; n is the number of rows created before the settings are applied. */
    method ImportPreview(p: Preview) returns (ok: bool, result: Counts, ghost log: seq<Item>, ghost n: nat)
      requires Committable(p) && rows == p.target && Unused(Now())
      modifies this
      ensures ok <==> Admits(valid, p, ToCreate(p))
      ensures ok ==> n <= |log| && Imported(p, old(Now()).(targets := p.targets), Now(), log) && Ordered(log)
      ensures ok ==> SettingsApplied(p, Run(old(Now()).(targets := p.targets), log[..n]), old(settings), settings)
      ensures ok ==> result == Counts(p.counts.create, p.counts.same, 0, if p.applySettings then 0 else 1)
      ensures ok ==> Unused(Now()) && (Configured(old(rows)) ==> Configured(rows))
    {
      hide Configured;
      hide Committable, Progress, Imported, Run, SettingsApplied, CompleteIn, Admits, ToCreate, Lawful, Unused;
      result, n := Counts(0, 0, 0, 0), 0;
      targets := p.targets;
      created := 0;
      ghost var start := Now();
      ImportBegins(p, start);
      LawfulStart(valid, p, old(Now()), start);
      ghost var finished;
      ok, log, finished := ImportUntilThemes(p, start);
      if !ok { return; }
      ImportIs(p, start, Now(), created, log);
      ApplySettings(p, finished);
      ghost var applied := log;
      n := |log|;
      ok, log := ImportRows(p, Triggers, p.document.Rows(Triggers), start, log, finished);
      if !ok { return; }
      assert log[..n] == applied;
      assert forall c :: c in finished + {Triggers};
      ImportIs(p, start, Now(), created, log);
      AllImported(p, start, Now(), created, log);
      LawfulEnd(valid, p, start, Now(), log);
      RulesKept(valid, p, start, Now(), log);
      result := Counts(created, p.counts.same, 0, if p.applySettings then 0 else 1);
    }

    /** The transaction around the import: what a refused import has done is taken back. */
    method Transaction(p: Preview) returns (ok: bool, result: Counts, ghost log: seq<Item>, ghost n: nat)
      requires Committable(p) && rows == p.target && Unused(Now())
      modifies this
      ensures ok <==> Admits(valid, p, ToCreate(p))
      ensures !ok ==> rows == old(rows) && entries == old(entries) && settings == old(settings)
      ensures ok ==> n <= |log| && Imported(p, old(Now()).(targets := p.targets), Now(), log) && Ordered(log)
      ensures ok ==> SettingsApplied(p, Run(old(Now()).(targets := p.targets), log[..n]), old(settings), settings)
      ensures ok ==> result == Counts(p.counts.create, p.counts.same, 0, if p.applySettings then 0 else 1)
      ensures Unused(Now()) && (Configured(old(rows)) ==> Configured(rows))
    {
      hide Committable, Imported, SettingsApplied, Run, Admits, ToCreate, Configured, Unused;
      ghost var before := Now();
      var savedRows, savedEntries, savedSettings, savedId := rows, entries, settings, nextId;
      ok, result, log, n := ImportPreview(p);
      if !ok {
        rows, entries, settings, nextId := savedRows, savedEntries, savedSettings, savedId;
        UnusedSame(before, Now());
      }
    }

    /**
     Commit imports exactly when the preview allows it, the target is still the one it was made for, and the
     repositories admit all rows that are to be created.
     */
    method Commit(p: Preview) returns (r: Result<Counts, ImportError>, ghost log: seq<Item>, ghost n: nat)
      requires Sound(p) && Unused(Now())
      modifies this
      ensures var current := old(rows) == p.target && (p.applySettings ==> old(settings) == p.targetSettings);
              && (r.Ok? <==> p.canCommit && current && Admits(valid, p, ToCreate(p)))
              && (r.Err? ==>
                    r.error == if !p.canCommit then CannotCommit else if !current then TargetChanged else Refused)
      ensures r.Err? ==> rows == old(rows) && entries == old(entries) && settings == old(settings)
      ensures r.Ok? ==>
                && Imported(p, old(Now()).(targets := p.targets), Now(), log) && Ordered(log)
                && n <= |log|
                && SettingsApplied(p, Run(old(Now()).(targets := p.targets), log[..n]), old(settings), settings)
                && r.value == Counts(p.counts.create, p.counts.same, 0, if p.applySettings then 0 else 1)
      ensures Unused(Now()) && (Configured(old(rows)) ==> Configured(rows))
    {
      hide Sound, Imported, SettingsApplied, Run, Admits, ToCreate, Configured, Unused;
      log, n := [], 0;
      if !p.canCommit { return Err(CannotCommit), [], 0; }
      if rows != p.target || (p.applySettings && settings != p.targetSettings) { return Err(TargetChanged), [], 0; }
      var ok, result;
      ok, result, log, n := Transaction(p);
      r := if ok then Ok(result) else Err(Refused);
    }
  }

  // ----- the rules of the repositories during an import -----

  /** The import goes over the rows of the preview, and the rules admit what it has created so far. */
  ghost predicate Lawful(valid: Validation, p: Preview, start: State, log: seq<Item>) {
    start.rows == p.target && Unused(start) && Admits(valid, p, Logged(log))
  }

  lemma LawfulStart(valid: Validation, p: Preview, before: State, start: State)
    requires before.rows == p.target && Unused(before) && start == before.(targets := p.targets)
    ensures Lawful(valid, p, start, [])
  {
  }

  lemma UnusedSame(s: State, t: State)
    requires Unused(s) && s.rows == t.rows && s.nextId == t.nextId
    ensures Unused(t)
  {
  }

  lemma LawfulEnd(valid: Validation, p: Preview, start: State, end: State, log: seq<Item>)
    requires Lawful(valid, p, start, log) && Imported(p, start, end, log)
    ensures Admits(valid, p, ToCreate(p))
  {
    hide Admits, Items, ShouldCreate, InTurn;
    assert Logged(log) == ToCreate(p);
  }

  /** The ids stay unused, and the rule for jump settings is kept. */
  lemma RulesKept(valid: Validation, p: Preview, start: State, end: State, log: seq<Item>)
    requires Committable(p) && Lawful(valid, p, start, log) && Imported(p, start, end, log)
    ensures Unused(end) && (Configured(start.rows) ==> Configured(end.rows))
  {
    assert Orderly(p, start, end, log);
    UnusedAgain(p, start, end, log);
    hide Orderly, Imported, Unused, Configured;
    if Configured(start.rows) {
      StaysConfigured(valid, p, start, end, log);
    }
  }

  lemma NextIsNew(p: Preview, start: State, s: State, created: nat, log: seq<Item>, item: Item)
    requires Progress(p, start, s, created, log) && Fresh(start) && item.KeyOf() !in s.targets
    ensures Key(item.collection, Id(s.nextId)) !in s.rows && item !in log
    ensures Remap(item, s.targets, Id(s.nextId)).id == Id(s.nextId)
  {
    hide InTurn, ShouldCreate, Items;
    RunTargets(start, log);
    RunKeeps(start, log);
    forall other | other in log ensures other != item {
      assert other.KeyOf() in Keys(log);
    }
  }

  /** The repositories take the next row, or the preview could have told that they refuse some row. */
  lemma StepLawful(
    valid: Validation, p: Preview, start: State, s: State, created: nat, log: seq<Item>, item: Item)
    requires Committable(p) && Progress(p, start, s, created, log) && Lawful(valid, p, start, log)
    requires Resolvable(item, s.targets)
    requires item in Items(p.document) && ShouldCreate(p, item) && item.KeyOf() !in s.targets
    ensures Key(item.collection, Id(s.nextId)) !in s.rows
    ensures Remap(item, s.targets, Id(s.nextId)).id == Id(s.nextId)
    ensures if Accepts(valid, s.rows, item, Remap(item, s.targets, Id(s.nextId)))
            then Lawful(valid, p, start, log + [item]) else !Admits(valid, p, ToCreate(p))
  {
    assert Orderly(p, start, s, log) && Fresh(start);
    LogAsked(p, start, s, created, log, item);
    hide Committable, Run, InTurn, Resolvable, Admits, Accepts, Remap, Items, ShouldCreate, Progress, ToCreate, Orderly;
    hide Fresh;
    NextIsNew(p, start, s, created, log, item);
    StepAdmitted(valid, p, start, s, log, item);
    assert Logged(log + [item]) == Logged(log) + {item};
    if Admits(valid, p, ToCreate(p)) {
      AdmitsLess(valid, p, Logged(log) + {item}, ToCreate(p));
    }
  }

  lemma LogAsked(p: Preview, start: State, s: State, created: nat, log: seq<Item>, item: Item)
    requires Progress(p, start, s, created, log) && item in Items(p.document) && ShouldCreate(p, item)
    ensures Logged(log) + {item} <= ToCreate(p)
  {
  }

  /** Only keys of collection c have been added. */
  predicate OnlyAdds(c: Collection, before: map<Key, Id>, after: map<Key, Id>) {
    before.Keys <= after.Keys && forall key :: key in after && key.collection != c ==> key in before
  }

  function FilterCreate(p: Preview, c: Collection, list: seq<Row>): seq<Row> {
    if list == [] then [] else
      FilterCreate(p, c, list[..|list| - 1])
      + if ShouldCreate(p, Item(c, list[|list| - 1])) then [list[|list| - 1]] else []
  }

  lemma NoSiblings(c: Collection, row: Row)
    requires c !in DependsOn(c)
    ensures Siblings(c, row) == []
  {
  }

  lemma ListedRows(p: Preview, c: Collection, list: seq<Row>)
    requires Committable(p) && multiset(list) == multiset(p.document.Rows(c))
    ensures UniqueIds(list) && forall row :: row in list <==> row in p.document.Rows(c)
    ensures forall row :: row in list ==> Item(c, row) in Items(p.document)
  {
    AdmissibleRows(p.document, p.target, c);
    RearrangedIds(p.document.Rows(c), list);
    AllListed();
  }

  lemma {:induction false} FilterCreateIs(p: Preview, c: Collection, list: seq<Row>)
    ensures forall row :: row in FilterCreate(p, c, list) <==> row in list && ShouldCreate(p, Item(c, row))
    ensures UniqueIds(list) ==> UniqueIds(FilterCreate(p, c, list))
  {
    if list != [] {
      var init := list[..|list| - 1];
      FilterCreateIs(p, c, init);
      assert list == init + [list[|list| - 1]];
      var kept := FilterCreate(p, c, init);
      if UniqueIds(list) {
        forall k | 0 <= k < |kept| ensures kept[k].id != list[|list| - 1].id {
          assert kept[k] in init;
        }
      }
    }
  }

  lemma FilteredRows(
    p: Preview, c: Collection, list: seq<Row>, start: State, s: State, created: nat, log: seq<Item>)
    requires Committable(p) && UniqueIds(list) && forall row :: row in list <==> row in p.document.Rows(c)
    requires forall row :: row in list ==> Item(c, row) in Items(p.document)
    requires Progress(p, start, s, created, log)
    requires forall key :: key in s.targets && key.collection == c ==> key in p.targets
    ensures Waiting(p, c, FilterCreate(p, c, list), s.targets)
  {
    hide Committable, ShouldCreate, InTurn, Items;
    RunTargets(start, log);
    FilterCreateIs(p, c, list);
    forall row | row in list ensures ShouldCreate(p, Item(c, row)) <==> Key(c, row.id) !in s.targets {
      CreateOrKnown(p, Item(c, row));
    }
  }

  lemma Spliced(p: Preview, c: Collection, pending: seq<Row>, index: nat, before: map<Key, Id>, after: map<Key, Id>)
    requires Waiting(p, c, pending, before) && index < |pending|
    requires after.Keys == before.Keys + {Key(c, pending[index].id)}
    ensures Waiting(p, c, pending[..index] + pending[index + 1..], after)
  {
    hide ShouldCreate;
    var rest := pending[..index] + pending[index + 1..];
    assert pending == pending[..index] + [pending[index]] + pending[index + 1..];
    assert forall k :: 0 <= k < |rest| ==> rest[k] == pending[if k < index then k else k + 1];
  }

  /** The first i rows have targets; the others only if they had one before the import. */
  ghost predicate ListedUpTo(p: Preview, c: Collection, list: seq<Row>, i: nat, targets: map<Key, Id>) {
    && i <= |list| && p.targets.Keys <= targets.Keys
    && (forall k :: 0 <= k < i ==> Key(c, list[k].id) in targets)
    && (forall k :: i <= k < |list| && Key(c, list[k].id) in targets ==> Key(c, list[k].id) in p.targets)
  }

  lemma ListStart(
    p: Preview, c: Collection, list: seq<Row>, start: State, s: State, created: nat, log: seq<Item>)
    requires Progress(p, start, s, created, log)
    requires forall key :: key in s.targets && key.collection == c ==> key in p.targets
    ensures ListedUpTo(p, c, list, 0, s.targets)
  {
    RunTargets(start, log);
  }

  lemma ListNext(p: Preview, c: Collection, list: seq<Row>, i: nat, targets: map<Key, Id>)
    requires Committable(p) && ListedUpTo(p, c, list, i, targets) && i < |list| && Item(c, list[i]) in Items(p.document)
    ensures ShouldCreate(p, Item(c, list[i])) <==> Key(c, list[i].id) !in targets
  {
    CreateOrKnown(p, Item(c, list[i]));
  }

  lemma ListStep(p: Preview, c: Collection, list: seq<Row>, i: nat, before: map<Key, Id>, after: map<Key, Id>)
    requires ListedUpTo(p, c, list, i, before) && i < |list| && UniqueIds(list)
    requires after.Keys == before.Keys + {Key(c, list[i].id)}
    ensures ListedUpTo(p, c, list, i + 1, after)
  {
  }

  lemma ListEnd(p: Preview, c: Collection, list: seq<Row>, targets: map<Key, Id>)
    requires ListedUpTo(p, c, list, |list|, targets) && forall row :: row in list <==> row in p.document.Rows(c)
    ensures CompleteIn(p.document, c, targets)
  {
  }

  lemma WaitingItem(p: Preview, c: Collection, pending: seq<Row>, index: nat, targets: map<Key, Id>)
    requires Waiting(p, c, pending, targets) && index < |pending|
    ensures Item(c, pending[index]) in Items(p.document) && ShouldCreate(p, Item(c, pending[index]))
    ensures Key(c, pending[index].id) !in targets
  {
    assert pending[index] in pending;
    AllListed();
  }

  lemma ReadySiblings(c: Collection, row: Row, targets: map<Key, Id>)
    requires IsReady(c, row, targets)
    ensures forall id :: id in Siblings(c, row) ==> Key(c, id) in targets
  {
  }

  lemma CommittableAcyclic(p: Preview, c: Collection)
    requires Committable(p) && (c == Hosts || c == BookmarkGroups || c == QuickCommandGroups)
    ensures !HasCycle(SiblingGraph(p.document, c))
  {
  }

  lemma NoneWaiting(p: Preview, c: Collection, targets: map<Key, Id>)
    requires Waiting(p, c, [], targets)
    ensures CompleteIn(p.document, c, targets)
  {
  }

  // ----- settings -----

  function RemapTab(targets: map<Key, Id>, rows: map<Key, Row>, current: Id, tab: Tab): Tab {
    Tab(
      tab.id, Mapped(targets, Hosts, tab.hostId), Mapped(targets, Bookmarks, tab.bookmarkId),
      Mapped(targets, TerminalProfiles, tab.profileId),
      if tab.themeId.Some? then Some(ThemeFor(targets, rows, current, tab.themeId.value)) else None)
  }

  /** An imported theme, else a saved one, else the theme in use. */
  function ThemeFor(targets: map<Key, Id>, rows: map<Key, Row>, current: Id, id: Id): Id {
    if Key(TerminalThemes, id) in targets then targets[Key(TerminalThemes, id)]
    else if Key(TerminalThemes, id) in rows then id
    else current
  }

  function RemapLayout(targets: map<Key, Id>, rows: map<Key, Row>, current: Id, layout: Layout): Layout {
    layout.(tabs := seq(|layout.tabs|, i requires 0 <= i < |layout.tabs| =>
      RemapTab(targets, rows, current, layout.tabs[i])))
  }

  /** Startup sessions that are not bookmarks of the document keep their id. */
  function RemapStartup(doc: Document, targets: map<Key, Id>, id: Id): Id {
    if id in Ids(doc.Rows(Bookmarks)) && Key(Bookmarks, id) in targets then targets[Key(Bookmarks, id)] else id
  }

  function RemapSettings(doc: Document, targets: map<Key, Id>, rows: map<Key, Row>, current: Id): Settings {
    var s := doc.settings;
    Settings(
      Mapped(targets, TerminalProfiles, s.defaultProfileId),
      seq(|s.addressHosts|, i requires 0 <= i < |s.addressHosts| => Mapped(targets, Hosts, s.addressHosts[i])),
      seq(|s.namedWorkspaces|, i requires 0 <= i < |s.namedWorkspaces| =>
        Workspace(s.namedWorkspaces[i].id, RemapLayout(targets, rows, current, s.namedWorkspaces[i].layout))),
      s.activeWorkspaceId,
      if s.layout.Some? then Some(RemapLayout(targets, rows, current, s.layout.value)) else None,
      seq(|s.startupSessions|, i requires 0 <= i < |s.startupSessions| =>
        RemapStartup(doc, targets, s.startupSessions[i])),
      ThemeFor(targets, rows, current, s.themeId))
  }

  function AppliedSettings(p: Preview, s: State, current: Settings): Settings {
    if p.applySettings then RemapSettings(p.document, s.targets, s.rows, current.themeId) else current
  }

  predicate LayoutResolves(targets: map<Key, Id>, layout: Layout) {
    forall tab :: tab in layout.tabs ==>
                    && Resolves(targets.Keys, Hosts, tab.hostId) && Resolves(targets.Keys, Bookmarks, tab.bookmarkId)
                    && Resolves(targets.Keys, TerminalProfiles, tab.profileId)
  }

  /** No reference of the settings is left without a target. */
  predicate SettingsResolve(doc: Document, targets: map<Key, Id>) {
    var s := doc.settings;
    && Resolves(targets.Keys, TerminalProfiles, s.defaultProfileId)
    && (forall id :: id in s.addressHosts ==> Resolves(targets.Keys, Hosts, id))
    && (forall w :: w in s.namedWorkspaces ==> LayoutResolves(targets, w.layout))
    && (s.layout.Some? ==> LayoutResolves(targets, s.layout.value))
    && (forall id :: id in s.startupSessions && id in Ids(doc.Rows(Bookmarks)) ==> Key(Bookmarks, id) in targets)
  }

  lemma PresentResolves(doc: Document, targets: map<Key, Id>, c: Collection, id: Option<Id>)
    requires CompleteIn(doc, c, targets) && Present(doc, c, id)
    ensures Resolves(targets.Keys, c, id)
  {
  }

  lemma LayoutReferencesResolve(doc: Document, targets: map<Key, Id>, layout: Layout)
    requires CompleteIn(doc, Hosts, targets) && CompleteIn(doc, Bookmarks, targets)
    requires CompleteIn(doc, TerminalProfiles, targets) && LayoutConsistent(doc, layout)
    ensures LayoutResolves(targets, layout)
  {
    hide CompleteIn, Present, Resolves;
    forall tab | tab in layout.tabs
      ensures Resolves(targets.Keys, Hosts, tab.hostId) && Resolves(targets.Keys, Bookmarks, tab.bookmarkId)
      ensures Resolves(targets.Keys, TerminalProfiles, tab.profileId)
    {
      assert TabConsistent(doc, tab);
      PresentResolves(doc, targets, Hosts, tab.hostId);
      PresentResolves(doc, targets, Bookmarks, tab.bookmarkId);
      PresentResolves(doc, targets, TerminalProfiles, tab.profileId);
    }
  }

  /** Applying the settings never runs into an unresolved reference. */
  lemma SettingsReferencesResolve(p: Preview, targets: map<Key, Id>)
    requires Committable(p) && p.applySettings
    requires CompleteIn(p.document, Hosts, targets) && CompleteIn(p.document, Bookmarks, targets)
    requires CompleteIn(p.document, TerminalProfiles, targets)
    ensures SettingsResolve(p.document, targets)
  {
    var doc := p.document;
    var s := doc.settings;
    assert SettingsConsistent(doc);
    hide Committable, LayoutConsistent, LayoutResolves;
    PresentResolves(doc, targets, TerminalProfiles, s.defaultProfileId);
    forall id | id in s.addressHosts ensures Resolves(targets.Keys, Hosts, id) {
      PresentResolves(doc, targets, Hosts, id);
    }
    forall w | w in s.namedWorkspaces ensures LayoutResolves(targets, w.layout) {
      LayoutReferencesResolve(doc, targets, w.layout);
    }
    if s.layout.Some? {
      LayoutReferencesResolve(doc, targets, s.layout.value);
    }
  }

  // ----- what becomes of the references of the settings -----

  /** A reference leads to the target of what it led to, and none is lost. */
  predicate Leads(targets: map<Key, Id>, c: Collection, was: Option<Id>, now: Option<Id>) {
    && (now.Some? <==> was.Some?)
    && (was.Some? ==> Key(c, was.value) in targets && now.value == targets[Key(c, was.value)])
  }

  /** A theme is that of the import, or stays if it is saved, or else becomes the theme that is in use. */
  predicate ThemeTells(targets: map<Key, Id>, rows: map<Key, Row>, current: Id, was: Id, now: Id) {
    && (Key(TerminalThemes, was) in targets ==> now == targets[Key(TerminalThemes, was)])
    && (Key(TerminalThemes, was) !in targets && Key(TerminalThemes, was) in rows ==> now == was)
    && (Key(TerminalThemes, was) !in targets && Key(TerminalThemes, was) !in rows ==> now == current)
  }

  predicate TabTells(targets: map<Key, Id>, rows: map<Key, Row>, current: Id, was: Tab, now: Tab) {
    && now.id == was.id && Leads(targets, Hosts, was.hostId, now.hostId)
    && Leads(targets, Bookmarks, was.bookmarkId, now.bookmarkId)
    && Leads(targets, TerminalProfiles, was.profileId, now.profileId)
    && (now.themeId.Some? <==> was.themeId.Some?)
    && (was.themeId.Some? ==> ThemeTells(targets, rows, current, was.themeId.value, now.themeId.value))
  }

  /** Tabs stay in order; what is open in which pane is said in tabs and stays as it is. */
  predicate LayoutTells(targets: map<Key, Id>, rows: map<Key, Row>, current: Id, was: Layout, now: Layout) {
    && |now.tabs| == |was.tabs|
    && (forall i :: 0 <= i < |was.tabs| ==> TabTells(targets, rows, current, was.tabs[i], now.tabs[i]))
    && now.activeTerminalId == was.activeTerminalId && now.secondaryTerminalId == was.secondaryTerminalId
    && now.paneTerminalIds == was.paneTerminalIds
  }

  predicate WorkspacesTell(
    targets: map<Key, Id>, rows: map<Key, Row>, current: Id, was: seq<Workspace>, now: seq<Workspace>)
  {
    && |now| == |was|
    && forall i :: 0 <= i < |was| ==>
         now[i].id == was[i].id && LayoutTells(targets, rows, current, was[i].layout, now[i].layout)
  }

  /** A startup session that is a bookmark of the document follows it; any other stays. */
  predicate StartupTells(doc: Document, targets: map<Key, Id>, was: Id, now: Id) {
    if exists row :: row in doc.Rows(Bookmarks) && row.id == was
    then Key(Bookmarks, was) in targets && now == targets[Key(Bookmarks, was)]
    else now == was
  }

  /** The settings as they are stored: every reference leads to its target, and the rest is the document's own. */
  predicate SettingsTell(doc: Document, targets: map<Key, Id>, rows: map<Key, Row>, current: Id, now: Settings) {
    var was := doc.settings;
    && Leads(targets, TerminalProfiles, was.defaultProfileId, now.defaultProfileId)
    && |now.addressHosts| == |was.addressHosts|
    && (forall i :: 0 <= i < |was.addressHosts| ==> Leads(targets, Hosts, was.addressHosts[i], now.addressHosts[i]))
    && WorkspacesTell(targets, rows, current, was.namedWorkspaces, now.namedWorkspaces)
    && now.activeWorkspaceId == was.activeWorkspaceId
    && (now.layout.Some? <==> was.layout.Some?)
    && (was.layout.Some? ==> LayoutTells(targets, rows, current, was.layout.value, now.layout.value))
    && |now.startupSessions| == |was.startupSessions|
    && (forall i :: 0 <= i < |was.startupSessions| ==>
          StartupTells(doc, targets, was.startupSessions[i], now.startupSessions[i]))
    && ThemeTells(targets, rows, current, was.themeId, now.themeId)
  }

  /** The settings stay, or are those of the document with every reference leading to its target. */
  ghost predicate SettingsApplied(p: Preview, s: State, current: Settings, now: Settings) {
    && now == AppliedSettings(p, s, current)
    && (p.applySettings ==> SettingsTell(p.document, s.targets, s.rows, current.themeId, now))
  }

  lemma LayoutLeads(targets: map<Key, Id>, rows: map<Key, Row>, current: Id, layout: Layout)
    requires LayoutResolves(targets, layout)
    ensures LayoutTells(targets, rows, current, layout, RemapLayout(targets, rows, current, layout))
  {
    var now := RemapLayout(targets, rows, current, layout);
    forall i | 0 <= i < |layout.tabs| ensures TabTells(targets, rows, current, layout.tabs[i], now.tabs[i]) {
      assert layout.tabs[i] in layout.tabs;
    }
  }

  lemma SettingsLead(doc: Document, targets: map<Key, Id>, rows: map<Key, Row>, current: Id)
    requires SettingsResolve(doc, targets)
    ensures SettingsTell(doc, targets, rows, current, RemapSettings(doc, targets, rows, current))
  {
    var was, now := doc.settings, RemapSettings(doc, targets, rows, current);
    forall i | 0 <= i < |was.addressHosts| ensures Leads(targets, Hosts, was.addressHosts[i], now.addressHosts[i]) {
      assert was.addressHosts[i] in was.addressHosts;
    }
    forall i | 0 <= i < |was.namedWorkspaces|
      ensures LayoutTells(targets, rows, current, was.namedWorkspaces[i].layout, now.namedWorkspaces[i].layout)
    {
      assert was.namedWorkspaces[i] in was.namedWorkspaces;
      LayoutLeads(targets, rows, current, was.namedWorkspaces[i].layout);
    }
    if was.layout.Some? {
      LayoutLeads(targets, rows, current, was.layout.value);
    }
    forall i | 0 <= i < |was.startupSessions|
      ensures StartupTells(doc, targets, was.startupSessions[i], now.startupSessions[i])
    {
      assert was.startupSessions[i] in was.startupSessions;
    }
  }

  // ----- the finished import -----

  lemma ItemOfKey(doc: Document, left: Item, right: Item)
    requires Unique(doc) && left in Items(doc) && right in Items(doc) && left.KeyOf() == right.KeyOf()
    ensures left == right
  {
    var rows := doc.Rows(left.collection);
    assert UniqueIds(rows);
    var i :| 0 <= i < |rows| && rows[i] == left.row;
    var j :| 0 <= j < |rows| && rows[j] == right.row;
  }

  /** A row the preview asked for has a target only because it was created. */
  lemma AskedIsCreated(p: Preview, start: State, s: State, created: nat, log: seq<Item>, item: Item)
    requires Committable(p) && Progress(p, start, s, created, log)
    requires item in Items(p.document) && ShouldCreate(p, item) && CompleteIn(p.document, item.collection, s.targets)
    ensures item in log
  {
    hide InTurn, CollectionsConsistent, SettingsConsistent, Classify, Unique, Decided;
    ConsistentIsUnique(p.document, p.target);
    ImportIs(p, start, s, created, log);
    CreateOrKnown(p, item);
    assert item.KeyOf() in Keys(log);
    var other :| other in log && other.KeyOf() == item.KeyOf();
    ItemOfKey(p.document, item, other);
  }

  lemma CreateKeys(p: Preview, log: seq<Item>)
    requires Committable(p) && forall item :: item in log <==> item in Items(p.document) && ShouldCreate(p, item)
    ensures Keys(log) == set key | key in p.actions.Keys && key in p.actions && p.actions[key] == Create
  {
    CommittableDecided(p);
    hide Committable, Items, Classify, Unique;
    forall item | item in Items(p.document) ensures item.KeyOf() in p.actions {
    }
    hide Recorded;
    forall key | key in p.actions && p.actions[key] == Create ensures key in Keys(log) {
      var item :| item in Items(p.document) && item.KeyOf() == key;
      assert item in log;
    }
    forall key | key in Keys(log) ensures key in p.actions && p.actions[key] == Create {
      var item :| item in log && item.KeyOf() == key;
      assert ShouldCreate(p, item);
    }
  }

  lemma AllImported(p: Preview, start: State, s: State, created: nat, log: seq<Item>)
    requires Committable(p) && Progress(p, start, s, created, log)
    requires forall c :: CompleteIn(p.document, c, s.targets)
    ensures Imported(p, start, s, log) && created == p.counts.create
  {
    forall item | item in Items(p.document) && ShouldCreate(p, item) ensures item in log {
      AskedIsCreated(p, start, s, created, log, item);
    }
    CountKeys(p.targets.Keys, log);
    CreateKeys(p, log);
  }

  lemma {:induction false} CountKeys(known: set<Key>, log: seq<Item>)
    requires InTurn(known, log)
    ensures |Keys(log)| == |log|
  {
    if log != [] {
      InTurnInit(known, log);
      CountKeys(known, log[..|log| - 1]);
      assert CreatedInTurn(known, log, |log| - 1);
    }
  }

  // ----- what a finished import has achieved -----

  lemma AllTargetsSaved(p: Preview, start: State, end: State, log: seq<Item>)
    requires Committable(p) && Fresh(start) && start.rows == p.target && Imported(p, start, end, log)
    ensures TargetsSaved(end.targets, end.rows)
  {
    TargetsSavedSoFar(p, start, end, log);
  }

  /** A created row refers to saved rows only: to the targets of what its source row refers to. */
  lemma CreatedRowRefersToSaved(p: Preview, start: State, end: State, log: seq<Item>, k: nat)
    requires Committable(p) && Fresh(start) && start.rows == p.target && Imported(p, start, end, log)
    requires k < |log|
    ensures StoredAs(start, log, end, k)
    ensures var c, id := log[k].collection, Id(start.nextId + k);
            Key(c, id) in end.rows && forall r :: r in References(c, end.rows[Key(c, id)]) ==> r.target in end.rows
  {
    hide Committable, TargetsSaved, FieldsIn, InTurn, Remap, Run;
    var c, row, id := log[k].collection, log[k].row, Id(start.nextId + k);
    AllStored(start, log, k);
    AllTargetsSaved(p, start, end, log);
    assert AllIn(References(c, row), end.targets.Keys);
    ReferenceFields(c, row, end.targets.Keys);
    RemapRefers(log[k], end.targets, id, end.rows);
    ReferenceFields(c, Remap(log[k], end.targets, id), end.rows.Keys);
    assert AllIn(References(c, end.rows[Key(c, id)]), end.rows.Keys);
  }

  lemma RemapRefers(item: Item, targets: map<Key, Id>, id: Id, rows: map<Key, Row>)
    requires FieldsIn(targets.Keys, item.collection, item.row) && TargetsSaved(targets, rows)
    ensures FieldsIn(rows.Keys, item.collection, Remap(item, targets, id))
  {
  }

  /** Rows that were there before the import are untouched, and the created ones have ids never used. */
  lemma SavedRowsKept(p: Preview, start: State, end: State, log: seq<Item>)
    requires Fresh(start) && Imported(p, start, end, log)
    ensures forall key :: key in start.rows ==> key in end.rows && end.rows[key] == start.rows[key]
    ensures forall key :: key in end.rows && key !in start.rows ==> start.nextId <= key.id.number
  {
    RunKeeps(start, log);
  }

  // ----- previewing the same document again -----

  /** After the import every row of the document is recognised as unchanged. */
  lemma SecondPreviewUnchanged(p: Preview, start: State, end: State, log: seq<Item>, item: Item)
    requires Committable(p) && Fresh(start) && Imported(p, start, end, log)
    requires start.rows == p.target && start.entries == p.mappings
    requires item in Items(p.document)
    ensures item.KeyOf() in end.targets
    ensures Classify(item, end.rows, end.entries) == Decision(Unchanged, Some(end.targets[item.KeyOf()]), false)
  {
    hide Committable, InTurn, References, Remap, Unique, Items, Resolvable;
    CommittableDecided(p);
    RunKeeps(start, log);
    CreateOrKnown(p, item);
    if item in log {
      var k :| 0 <= k < |log| && log[k] == item;
      AllStored(start, log, k);
    } else {
      NotCreated(p, start, end, log, item);
      RunUntouched(start, log, item.KeyOf());
      assert Recorded(item, p.target, p.mappings, p.actions, p.targets);
    }
  }

  /** A row that has changed since it was imported is a conflict, and never overwrites its copy. */
  lemma ChangedRowConflicts(p: Preview, start: State, end: State, log: seq<Item>, k: nat, changed: Row)
    requires Fresh(start) && Imported(p, start, end, log) && k < |log|
    requires changed.id == log[k].row.id && changed != log[k].row
    ensures Classify(Item(log[k].collection, changed), end.rows, end.entries) == Decision(Conflict, None, true)
  {
    hide InTurn, References, Remap, Items, Resolvable, Run, Redirected, RestKept;
    AllStored(start, log, k);
    assert Item(log[k].collection, changed).KeyOf() == log[k].KeyOf();
  }

  /** A row whose copy has been deleted since is created again. */
  lemma DeletedCopyComesBack(
    p: Preview, start: State, end: State, log: seq<Item>, k: nat, rows: map<Key, Row>)
    requires Fresh(start) && Imported(p, start, end, log) && k < |log|
    requires Key(log[k].collection, Id(start.nextId + k)) !in rows
    ensures Classify(log[k], rows, end.entries).action == Create
  {
    hide InTurn, References, Remap, Items, Resolvable, Run, Redirected, RestKept;
    AllStored(start, log, k);
  }

  lemma NotCreated(p: Preview, start: State, end: State, log: seq<Item>, item: Item)
    requires Committable(p) && Imported(p, start, end, log)
    requires item in Items(p.document) && item !in log
    ensures item.KeyOf() !in Keys(log)
  {
    ConsistentIsUnique(p.document, p.target);
    hide InTurn, CollectionsConsistent, SettingsConsistent, Classify;
    forall other | other in log ensures other.KeyOf() != item.KeyOf() {
      if other.KeyOf() == item.KeyOf() {
        ItemOfKey(p.document, item, other);
      }
    }
  }

  /** A created row that has the key of a row of the document is that very row. */
  predicate NoneReplaced(doc: Document, before: map<Key, Row>, after: map<Key, Row>) {
    forall item :: item in Items(doc) && item.KeyOf() in after && item.KeyOf() !in before ==>
                     after[item.KeyOf()] == item.row
  }

  /**
   A second preview of the same document, taken right after the import, has nothing to create and no
   conflict; it may be committed again exactly when no created row stands where the document has another one.
   */
  lemma SecondPreviewCounts(p: Preview, start: State, end: State, log: seq<Item>, q: Preview)
    requires Committable(p) && Fresh(start) && Imported(p, start, end, log)
    requires start.rows == p.target && start.entries == p.mappings
    requires Sound(q) && q.document == p.document && q.target == end.rows && q.mappings == end.entries
    ensures q.counts.create == 0 && q.counts.conflict == 0 && q.counts.same == |q.actions|
    ensures q.applySettings == p.applySettings ==>
              (q.canCommit <==> NoneReplaced(p.document, start.rows, end.rows))
  {
    ConsistentIsUnique(p.document, p.target);
    forall item | item in Items(q.document) ensures Classify(item, q.target, q.mappings).action == Unchanged {
      SecondPreviewUnchanged(p, start, end, log, item);
    }
    AllUnchanged(q);
    SavedRowsKept(p, start, end, log);
    StillConsistent(p.document, p.target, end.rows);
  }

  /** The repositories have nothing to refuse then. */
  lemma SecondImportAdmitted(valid: Validation, p: Preview, start: State, end: State, log: seq<Item>, q: Preview)
    requires Committable(p) && Fresh(start) && Imported(p, start, end, log)
    requires start.rows == p.target && start.entries == p.mappings
    requires Sound(q) && q.document == p.document && q.target == end.rows && q.mappings == end.entries
    ensures Admits(valid, q, ToCreate(q))
  {
    ConsistentIsUnique(p.document, p.target);
    forall item | item in Items(q.document) ensures !ShouldCreate(q, item) {
      SecondPreviewUnchanged(p, start, end, log, item);
      assert Recorded(item, q.target, q.mappings, q.actions, q.targets);
    }
    assert ToCreate(q) == {};
    NothingRefused(valid, q);
  }

  /** None of the next count ids is an id of the document. */
  predicate IdsApart(doc: Document, nextId: nat, count: nat) {
    forall item :: item in Items(doc) ==> !(nextId <= item.row.id.number < nextId + count)
  }

  /** Whatever else the document holds, it may be committed again if none of the ids to be given out is its own. */
  lemma ApartIdsCommit(p: Preview, start: State, end: State, log: seq<Item>, q: Preview)
    requires Committable(p) && Fresh(start) && Imported(p, start, end, log)
    requires start.rows == p.target && start.entries == p.mappings
    requires Sound(q) && q.document == p.document && q.target == end.rows && q.mappings == end.entries
    requires q.applySettings == p.applySettings && IdsApart(p.document, start.nextId, p.counts.create)
    ensures q.canCommit
  {
    SecondPreviewCounts(p, start, end, log, q);
    SavedRowsKept(p, start, end, log);
    CreatedIds(p, start, end, log);
  }

  lemma CreatedIds(p: Preview, start: State, end: State, log: seq<Item>)
    requires Committable(p) && Fresh(start) && Imported(p, start, end, log)
    ensures forall key :: key in end.rows ==> key.id.number < start.nextId + p.counts.create
  {
    hide Committable, InTurn;
    RunKeeps(start, log);
    RunTargets(start, log);
    CountKeys(p.targets.Keys, log);
    CreateKeys(p, log);
    CreateCounted(p);
  }

  lemma CreateCounted(p: Preview)
    requires Committable(p)
    ensures p.counts.create == |set key | key in p.actions.Keys && key in p.actions && p.actions[key] == Create|
  {
  }

  lemma AllUnchanged(q: Preview)
    requires Sound(q) && Unique(q.document)
    requires forall item :: item in Items(q.document) ==> Classify(item, q.target, q.mappings).action == Unchanged
    ensures q.counts.create == 0 && q.counts.conflict == 0 && q.counts.same == |q.actions|
  {
    hide CollectionsConsistent, SettingsConsistent, Classify, Unique, Items;
    forall key | key in q.actions ensures q.actions[key] == Unchanged {
      var item :| item in Items(q.document) && item.KeyOf() == key;
      assert Recorded(item, q.target, q.mappings, q.actions, q.targets);
    }
    var keys := q.actions.Keys;
    assert (set key | key in keys && key in q.actions && q.actions[key] == Create) == {};
    assert (set key | key in keys && key in q.actions && q.actions[key] == Conflict) == {};
    assert (set key | key in keys && key in q.actions && q.actions[key] == Unchanged) == keys;
  }

  lemma RowIsItem(doc: Document, c: Collection, row: Row)
    requires row in doc.Rows(c)
    ensures Item(c, row) in Items(doc)
  {
    AllListed();
  }

  /** More rows leave a consistent document consistent exactly when they replace none of its rows. */
  lemma StillConsistent(doc: Document, before: map<Key, Row>, after: map<Key, Row>)
    requires CollectionsConsistent(doc, before)
    requires forall key :: key in before ==> key in after && after[key] == before[key]
    ensures CollectionsConsistent(doc, after) <==> NoneReplaced(doc, before, after)
  {
    hide HasCycle, SiblingGraph, ReferencesPresent;
    AllListed();
    if NoneReplaced(doc, before, after) {
      forall c ensures RowsAdmissible(doc, after, c) {
        var rows := doc.Rows(c);
        assert RowsAdmissible(doc, before, c);
        forall i | 0 <= i < |rows| ensures RowAdmissible(after, c, rows, i) {
          assert RowAdmissible(before, c, rows, i);
          RowIsItem(doc, c, rows[i]);
          assert Item(c, rows[i]).KeyOf() == Key(c, rows[i].id);
        }
      }
    }
    if CollectionsConsistent(doc, after) {
      forall item | item in Items(doc) && item.KeyOf() in after ensures after[item.KeyOf()] == item.row {
        AdmissibleRows(doc, after, item.collection);
      }
    }
  }
}
