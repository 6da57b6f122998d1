/** The preview of a configuration import: one action per row, and whether the import may go ahead. */
module ConfigurationPreview {
  import opened Common
  import opened ReferenceGraph
  import opened ConfigurationDocument
  import opened ConfigurationInspection

  datatype Action = Create | Unchanged | Conflict

  /** What an earlier import remembers of a row it created. */
  datatype Entry = Entry(fingerprint: Row, targetId: Id)

  datatype Decision = Decision(action: Action, targetId: Option<Id>, reported: bool)

  datatype Item = Item(collection: Collection, row: Row) {
    function KeyOf(): Key {
      Key(collection, row.id)
    }
  }

  /** What the preview decides about one row. */
  function Classify(item: Item, target: map<Key, Row>, mappings: map<Key, Entry>): Decision {
    var key := item.KeyOf();
    if key in mappings then
      var mapped := Key(item.collection, mappings[key].targetId);
      if mapped !in target then Decision(Create, None, false)
      else if mappings[key].fingerprint == item.row then Decision(Unchanged, Some(mappings[key].targetId), false)
      else Decision(Conflict, None, true)
    else if key !in target then Decision(Create, None, false)
    else if target[key] == item.row then Decision(Unchanged, Some(target[key].id), false)
    else Decision(Conflict, None, false)
  }

  /**
   What a row stands for in the target: the copy that an earlier import made of it, as long as that is still
   there; and if no import is remembered, the row of the same id.
   */
  function Counterpart(item: Item, target: map<Key, Row>, mappings: map<Key, Entry>): Option<Entry> {
    if item.KeyOf() in mappings then
      if Key(item.collection, mappings[item.KeyOf()].targetId) in target then Some(mappings[item.KeyOf()]) else None
    else if item.KeyOf() in target then Some(Entry(target[item.KeyOf()], item.row.id))
    else None
  }

  /** A row is created if it stands for nothing, kept if it stands for an equal row, and a conflict otherwise. */
  lemma ActionTells(item: Item, target: map<Key, Row>, mappings: map<Key, Entry>)
    ensures var decision, other := Classify(item, target, mappings), Counterpart(item, target, mappings);
            && (decision.action == Create <==> other == None)
            && (decision.action == Unchanged <==> other.Some? && other.value.fingerprint == item.row)
            && (decision.action == Conflict <==> other.Some? && other.value.fingerprint != item.row)
            && decision.targetId == (if decision.action == Unchanged then Some(other.value.targetId) else None)
            && (decision.reported <==> decision.action == Conflict && item.KeyOf() in mappings)
  {
  }

  datatype Counts = Counts(create: nat, same: nat, conflict: nat, skipped: nat)

  datatype Preview = Preview(
    document: Document, applySettings: bool, target: map<Key, Row>, targetSettings: Settings,
    mappings: map<Key, Entry>, actions: map<Key, Action>, targets: map<Key, Id>, counts: Counts, canCommit: bool)

  function Items(doc: Document): set<Item> {
    set c, row | c in COLLECTIONS && row in doc.Rows(c) :: Item(c, row)
  }

  /** The decisions about the rows of done, kept by key. */
  ghost predicate Decided(
    done: set<Item>, target: map<Key, Row>, mappings: map<Key, Entry>, actions: map<Key, Action>, targets: map<Key, Id>)
  {
    && (forall item :: item in done ==> item.KeyOf() in actions)
    && (forall key :: key in actions ==> exists item :: item in done && item.KeyOf() == key)
    && (forall item :: item in done ==> Recorded(item, target, mappings, actions, targets))
  }

  ghost predicate Recorded(
    item: Item, target: map<Key, Row>, mappings: map<Key, Entry>, actions: map<Key, Action>, targets: map<Key, Id>)
  {
    var decision := Classify(item, target, mappings);
    && item.KeyOf() in actions && actions[item.KeyOf()] == decision.action
    && (item.KeyOf() in targets <==> decision.targetId.Some?)
    && (decision.targetId.Some? ==> targets[item.KeyOf()] == decision.targetId.value)
  }

  ghost predicate NoConflict(done: set<Item>, target: map<Key, Row>, mappings: map<Key, Entry>) {
    forall item :: item in done ==> Classify(item, target, mappings).action != Conflict
  }

  ghost predicate Unique(doc: Document) {
    forall c :: UniqueIds(doc.Rows(c))
  }

  /** The import may go ahead: no conflict, no inconsistency that matters. */
  ghost predicate Importable(p: Preview) {
    && NoConflict(Items(p.document), p.target, p.mappings)
    && CollectionsConsistent(p.document, p.target)
    && (p.applySettings ==> SettingsConsistent(p.document))
  }

  /** What a preview promises about itself. */
  ghost predicate Sound(p: Preview) {
    && (p.canCommit <==> Importable(p))
    && p.targets.Keys <= p.actions.Keys
    && (Unique(p.document) ==> Decided(Items(p.document), p.target, p.mappings, p.actions, p.targets))
    && p.counts.create == Tally(p.actions, p.actions.Keys, Create)
    && p.counts.same == Tally(p.actions, p.actions.Keys, Unchanged)
    && p.counts.conflict == Tally(p.actions, p.actions.Keys, Conflict)
  }

  // ----- tallies -----

  function Tally(actions: map<Key, Action>, keys: set<Key>, action: Action): nat {
    |set key | key in keys && key in actions && actions[key] == action|
  }

  method CountActions(actions: map<Key, Action>, applySettings: bool) returns (counts: Counts)
    ensures counts == Counts(
      Tally(actions, actions.Keys, Create), Tally(actions, actions.Keys, Unchanged),
      Tally(actions, actions.Keys, Conflict), if applySettings then 0 else 1)
    ensures counts.create + counts.same + counts.conflict == |actions|
  {
    var create, same, conflict := 0, 0, 0;
    var remaining := actions.Keys;
    ghost var counted: set<Key> := {};
    while remaining != {}
      invariant remaining !! counted && remaining + counted == actions.Keys
      invariant create == Tally(actions, counted, Create)
      invariant same == Tally(actions, counted, Unchanged)
      invariant conflict == Tally(actions, counted, Conflict)
      invariant create + same + conflict == |counted|
    {
      var key :| key in remaining;
      forall action ensures Tally(actions, counted + {key}, action) ==
                            Tally(actions, counted, action) + if actions[key] == action then 1 else 0
      {
        TallyOne(actions, counted, key, action);
      }
      match actions[key] {
        case Create => create := create + 1;
        case Unchanged => same := same + 1;
        case Conflict => conflict := conflict + 1;
      }
      counted := counted + {key};
      remaining := remaining - {key};
    }
    counts := Counts(create, same, conflict, if applySettings then 0 else 1);
  }

  lemma TallyOne(actions: map<Key, Action>, counted: set<Key>, key: Key, action: Action)
    requires key in actions && key !in counted
    ensures Tally(actions, counted + {key}, action) ==
            Tally(actions, counted, action) + if actions[key] == action then 1 else 0
  {
    var before := set k | k in counted && k in actions && actions[k] == action;
    var after := set k | k in counted + {key} && k in actions && actions[k] == action;
    assert after == if actions[key] == action then before + {key} else before;
  }

  // ----- the preview -----

  /** Rows that have changed since they were imported are reported; other conflicts the inspection has told already. */
  function ChangedRows(
    target: map<Key, Row>, mappings: map<Key, Entry>, c: Collection, rows: seq<Row>, n: nat): seq<Issue>
    requires n <= |rows|
  {
    if n == 0 then []
    else
      ChangedRows(target, mappings, c, rows, n - 1)
      + When(Classify(Item(c, rows[n - 1]), target, mappings).reported, Issue(TargetConflict, IdPath(c, n - 1)))
  }

  lemma NoneChanged(target: map<Key, Row>, mappings: map<Key, Entry>, c: Collection, rows: seq<Row>)
    ensures ChangedRows(target, mappings, c, rows, 0) == []
  {
  }

  lemma NextChanged(
    before: seq<Issue>, target: map<Key, Row>, mappings: map<Key, Entry>, c: Collection, rows: seq<Row>, i: nat)
    requires i < |rows|
    ensures before + ChangedRows(target, mappings, c, rows, i + 1) ==
            before + ChangedRows(target, mappings, c, rows, i)
            + When(Classify(Item(c, rows[i]), target, mappings).reported, Issue(TargetConflict, IdPath(c, i)))
  {
    hide When, Classify;
  }

  function ChangedIn(
    doc: Document, target: map<Key, Row>, mappings: map<Key, Entry>, list: seq<Collection>): seq<Issue>
  {
    if list == [] then []
    else
      var c := list[|list| - 1];
      ChangedIn(doc, target, mappings, list[..|list| - 1])
      + ChangedRows(target, mappings, c, doc.Rows(c), |doc.Rows(c)|)
  }

  class Planner {
    const source: Document
    const target: map<Key, Row>
    const mappings: map<Key, Entry>
    /** All issues of the inspection, which come first. */
    ghost const inspected: seq<Issue>
    var actions: map<Key, Action>
    var targets: map<Key, Id>
    var issues: seq<Issue>
    var issueCount: nat
    /** The issues found while planning, retained or not. */
    ghost var found: seq<Issue>

    constructor (
      source: Document, target: map<Key, Row>, mappings: map<Key, Entry>, issues: seq<Issue>, issueCount: nat,
      ghost inspected: seq<Issue>)
      requires issues == Retained(inspected) && issueCount == |inspected|
      ensures this.source == source && this.target == target && this.mappings == mappings
      ensures actions == map[] && targets == map[] && this.inspected == inspected && found == [] && Counted()
    {
      this.source, this.target, this.mappings := source, target, mappings;
      this.inspected, this.issues, this.issueCount := inspected, issues, issueCount;
      actions, targets, found := map[], map[], [];
      new;
      assert inspected + [] == inspected;
    }

    /** The list and the count are those of all issues, the ones of the inspection first. */
    ghost predicate Counted()
      reads this
    {
      issues == Retained(inspected + found) && issueCount == |inspected + found|
    }

    /** The state after the rows of done; a repeated key keeps its last action. */
    ghost predicate Planned(done: set<Item>)
      reads this
    {
      && targets.Keys <= actions.Keys
      && (Unique(source) ==> Decided(done, target, mappings, actions, targets))
      && Counted() && (found != [] ==> !NoConflict(done, target, mappings))
    }

    method PlanRow(item: Item, index: nat, ghost done: set<Item>)
      requires Planned(done)
      requires Unique(source) ==> forall other :: other in done ==> other.KeyOf() != item.KeyOf()
      modifies this
      ensures Planned(done + {item})
      ensures found == old(found) + When(Classify(item, target, mappings).reported,
                                         Issue(TargetConflict, IdPath(item.collection, index)))
    {
      var key := item.KeyOf();
      var decision := Classify(item, target, mappings);
      actions := actions[key := decision.action];
      if decision.targetId.Some? {
        targets := targets[key := decision.targetId.value];
      }
      if decision.reported {
        ghost var before := inspected + found;
        issueCount := issueCount + 1;
        found := found + [Issue(TargetConflict, IdPath(item.collection, index))];
        assert inspected + found == before + [Issue(TargetConflict, IdPath(item.collection, index))];
        if |issues| < RETAINED {
          issues := issues + [Issue(TargetConflict, IdPath(item.collection, index))];
        }
      }
      if Unique(source) {
        DecideOne(done, item, target, mappings, old(actions), old(targets));
      }
    }

    method PlanCollection(c: Collection, ghost done: set<Item>)
      requires Planned(done) && forall item :: item in done ==> item.collection != c
      modifies this
      ensures Planned(done + RowItems(c, source.Rows(c)))
      ensures found == old(found) + ChangedRows(target, mappings, c, source.Rows(c), |source.Rows(c)|)
    {
      var rows := source.Rows(c);
      hide Decided, NoConflict, Classify, When, ChangedRows, Retained;
      NoneChanged(target, mappings, c, rows);
      ghost var before := found;
      assert done + RowItems(c, []) == done;
      for i := 0 to |rows|
        invariant Planned(done + RowItems(c, rows[..i]))
        invariant found == before + ChangedRows(target, mappings, c, rows, i)
      {
        assert rows[..i + 1] == rows[..i] + [rows[i]];
        assert done + RowItems(c, rows[..i + 1]) == done + RowItems(c, rows[..i]) + {Item(c, rows[i])};
        PlanRow(Item(c, rows[i]), i, done + RowItems(c, rows[..i]));
        NextChanged(before, target, mappings, c, rows, i);
      }
      assert rows[..|rows|] == rows;
    }

    method Plan()
      requires actions == map[] && targets == map[] && found == [] && Counted()
      modifies this
      ensures Planned(Items(source)) && found == ChangedIn(source, target, mappings, COLLECTIONS)
    {
      hide ChangedRows;
      ghost var done: set<Item> := {};
      for i := 0 to |COLLECTIONS|
        invariant Planned(done) && found == ChangedIn(source, target, mappings, COLLECTIONS[..i])
        invariant done == set c, row | c in COLLECTIONS[..i] && row in source.Rows(c) :: Item(c, row)
      {
        assert COLLECTIONS[..i + 1] == COLLECTIONS[..i] + [COLLECTIONS[i]];
        DistinctCollections(i);
        PlanCollection(COLLECTIONS[i], done);
        done := done + RowItems(COLLECTIONS[i], source.Rows(COLLECTIONS[i]));
      }
      assert COLLECTIONS[..|COLLECTIONS|] == COLLECTIONS;
    }
  }

  function RowItems(c: Collection, rows: seq<Row>): set<Item> {
    set row | row in rows :: Item(c, row)
  }

  lemma DistinctCollections(i: nat)
    requires i < |COLLECTIONS|
    ensures COLLECTIONS[i] !in COLLECTIONS[..i]
  {
  }

  lemma DecideOne(
    done: set<Item>, item: Item, target: map<Key, Row>, mappings: map<Key, Entry>, actions: map<Key, Action>,
    targets: map<Key, Id>)
    requires Decided(done, target, mappings, actions, targets) && targets.Keys <= actions.Keys
    requires forall other :: other in done ==> other.KeyOf() != item.KeyOf()
    ensures var decision := Classify(item, target, mappings);
            Decided(
              done + {item}, target, mappings, actions[item.KeyOf() := decision.action],
              if decision.targetId.Some? then targets[item.KeyOf() := decision.targetId.value] else targets)
  {
    hide Classify;
    var key := item.KeyOf();
    var decision := Classify(item, target, mappings);
    var actions' := actions[key := decision.action];
    var targets' := if decision.targetId.Some? then targets[key := decision.targetId.value] else targets;
    assert key !in actions;
    forall other | other in done + {item} ensures Recorded(other, target, mappings, actions', targets') {
      assert other != item ==> Recorded(other, target, mappings, actions, targets);
    }
    forall k | k in actions' ensures exists other :: other in done + {item} && other.KeyOf() == k {
      if k == key {
        assert item in done + {item};
      } else {
        var other :| other in done && other.KeyOf() == k;
        assert other in done + {item};
      }
    }
  }

  /** Counting the conflicts by key finds one exactly when some row has one. */
  lemma ConflictCounted(
    done: set<Item>, target: map<Key, Row>, mappings: map<Key, Entry>, actions: map<Key, Action>, targets: map<Key, Id>)
    requires Decided(done, target, mappings, actions, targets)
    ensures Tally(actions, actions.Keys, Conflict) == 0 <==> NoConflict(done, target, mappings)
  {
    var conflicts := set key | key in actions.Keys && key in actions && actions[key] == Conflict;
    if item :| item in done && Classify(item, target, mappings).action == Conflict {
      assert Recorded(item, target, mappings, actions, targets);
      assert item.KeyOf() in conflicts;
    }
    if key :| key in conflicts {
      var item :| item in done && item.KeyOf() == key;
      assert Recorded(item, target, mappings, actions, targets);
    }
    assert conflicts == {} <==> |conflicts| == 0;
  }

  lemma ConsistentIsUnique(doc: Document, target: map<Key, Row>)
    requires CollectionsConsistent(doc, target)
    ensures Unique(doc)
  {
    forall c ensures UniqueIds(doc.Rows(c)) {
      AdmissibleRows(doc, target, c);
    }
  }

  predicate Blocked(issues: seq<Issue>, applySettings: bool) {
    exists issue :: issue in issues && Blocks(issue, applySettings)
  }

  /** The decision to allow the import, from the counts and the retained issues. */
  lemma CanCommit(p: Preview, planner: Planner)
    requires planner.Planned(Items(p.document))
    requires planner.source == p.document && planner.target == p.target && planner.mappings == p.mappings
    requires p.actions == planner.actions && p.targets == planner.targets
    requires p.counts.create == Tally(p.actions, p.actions.Keys, Create)
    requires p.counts.same == Tally(p.actions, p.actions.Keys, Unchanged)
    requires p.counts.conflict == Tally(p.actions, p.actions.Keys, Conflict)
    requires Blocked(Retained(planner.inspected), p.applySettings) <==>
             !(CollectionsConsistent(p.document, p.target) && (p.applySettings ==> SettingsConsistent(p.document)))
    requires p.canCommit <==> p.counts.conflict == 0 && !Blocked(planner.issues, p.applySettings)
    ensures Sound(p)
  {
    hide CollectionsConsistent, SettingsConsistent, Decided, Tally, NoConflict;
    RetainedMore(planner.inspected, planner.found);
    if Blocked(Retained(planner.inspected), p.applySettings) {
      var issue :| issue in Retained(planner.inspected) && Blocks(issue, p.applySettings);
      assert issue in planner.issues;
    } else {
      ConsistentIsUnique(p.document, p.target);
      ConflictCounted(Items(p.document), p.target, p.mappings, p.actions, p.targets);
    }
  }

  /** What is retained of the first issues stays so when more are found. */
  lemma RetainedMore(first: seq<Issue>, more: seq<Issue>)
    ensures Retained(first) <= Retained(first + more)
    ensures more == [] ==> Retained(first + more) == Retained(first)
  {
    assert more == [] ==> first + more == first;
  }

  method PreviewDocument(
    source: Document, target: map<Key, Row>, targetSettings: Settings, mappings: map<Key, Entry>, applySettings: bool
  ) returns (p: Preview, issues: seq<Issue>, issueCount: nat, ghost cycles: Cycles)
    ensures Sound(p)
    ensures var all := ReportOf(source, target, cycles) + ChangedIn(source, target, mappings, COLLECTIONS);
            CyclesReported(source, cycles) && issues == Retained(all) && issueCount == |all|
    ensures p.document == source && p.applySettings == applySettings
    ensures p.target == target && p.targetSettings == targetSettings && p.mappings == mappings
  {
    hide Sound, CyclesReported, DocumentIssues, SettingsIssues, ChangedIn;
    var inspector := new Inspector(source, target);
    ghost var m;
    m, cycles := inspector.Inspect();
    RetainedDecide(inspector, m, applySettings);
    var planner := new Planner(source, target, mappings, inspector.issues, inspector.issueCount, inspector.all);
    planner.Plan();
    var counts := CountActions(planner.actions, applySettings);
    p := Preview(
      source, applySettings, target, targetSettings, mappings, planner.actions, planner.targets, counts,
      counts.conflict == 0 && !Blocked(planner.issues, applySettings));
    issues, issueCount := planner.issues, planner.issueCount;
    CanCommit(p, planner);
  }
}
