/** Documents with which an import does something that its preview does not tell. */
module ConfigurationWitnesses {
  import opened Common
  import opened ReferenceGraph
  import opened ConfigurationDocument
  import opened ConfigurationImport
  import opened ConfigurationInspection
  import opened ConfigurationPreview
  import opened ConfigurationRules
  import opened ConfigurationRun

  // ----- a preview that can be committed and a commit that is refused -----

  function ThreeHosts(a: Row, b: Row, c: Row, settings: Settings): Document {
    Document(map[Hosts := [a, b, c]], settings)
  }

  /** A host that refers to nothing. */
  predicate Direct(row: Row) {
    row.Host? && row.groupId.None? && row.jumpHostId.None? && row.jumpHostIds == []
  }

  /** Host c refers to a and b only, which refer to nothing; all ids are different. */
  predicate JumpsBehind(a: Row, b: Row, c: Row) {
    && Direct(a) && Direct(b) && c.Host? && c.groupId.None?
    && a.id != b.id && a.id != c.id && b.id != c.id
    && forall id :: id in Siblings(Hosts, c) ==> id == a.id || id == b.id
  }

  lemma HostReferences(c: Row, id: Id, r: Reference)
    requires c.Host? && c.groupId.None? && r in References(Hosts, c)
    ensures r.target.collection == Hosts && r.target.id in Siblings(Hosts, c)
  {
    SiblingsAreReferences(Hosts, c, r.target.id);
  }

  lemma HostsRanked(a: Row, b: Row, c: Row, settings: Settings)
    requires JumpsBehind(a, b, c)
    ensures !HasCycle(SiblingGraph(ThreeHosts(a, b, c, settings), Hosts))
  {
    var rows := [a, b, c];
    var g := FirstSiblings(Hosts, rows);
    FirstSiblingsOf(Hosts, rows, 0);
    FirstSiblingsOf(Hosts, rows, 1);
    FirstSiblingsOf(Hosts, rows, 2);
    SiblingsKeys(Hosts, rows);
    hide FirstSiblings;
    var order := [a.id, b.id, c.id];
    assert order[..2] == [a.id, b.id];
    RankedAcyclic(g, order);
  }

  lemma HostsConsistent(a: Row, b: Row, c: Row, settings: Settings, target: map<Key, Row>)
    requires JumpsBehind(a, b, c)
    requires forall row :: row in [a, b, c] && Key(Hosts, row.id) in target ==> target[Key(Hosts, row.id)] == row
    ensures CollectionsConsistent(ThreeHosts(a, b, c, settings), target)
  {
    var doc := ThreeHosts(a, b, c, settings);
    HostsRanked(a, b, c, settings);
    forall d | d == BookmarkGroups || d == QuickCommandGroups ensures !HasCycle(SiblingGraph(doc, d)) {
      assert SiblingGraph(doc, d) == map[];
      RankedAcyclic(SiblingGraph(doc, d), []);
    }
    hide HasCycle, SiblingGraph;
    forall row, r | row in doc.Rows(Hosts) && r in References(Hosts, row) ensures Names(doc, r.target) {
      assert row.Host? && row.groupId.None?;
      HostReferences(row, r.target.id, r);
      assert row == c && doc.Rows(Hosts)[0] == a && doc.Rows(Hosts)[1] == b;
    }
    forall d ensures RowsAdmissible(doc, target, d) && ReferencesPresent(doc, d) {
    }
  }

  lemma HostItems(a: Row, b: Row, c: Row, settings: Settings)
    ensures Items(ThreeHosts(a, b, c, settings)) == {Item(Hosts, a), Item(Hosts, b), Item(Hosts, c)}
  {
  }

  /** Without the settings a consistent document without a conflict may be committed. */
  lemma MayCommit(p: Preview)
    requires Sound(p) && !p.applySettings && CollectionsConsistent(p.document, p.target)
    ensures Decided(Items(p.document), p.target, p.mappings, p.actions, p.targets)
    ensures NoConflict(Items(p.document), p.target, p.mappings) ==> p.canCommit
  {
    ConsistentIsUnique(p.document, p.target);
  }

  lemma DecidedOn(p: Preview, item: Item)
    requires Decided(Items(p.document), p.target, p.mappings, p.actions, p.targets) && item in Items(p.document)
    ensures Recorded(item, p.target, p.mappings, p.actions, p.targets)
  {
  }

  /** A host with both kinds of jump settings passes the preview, and the repository refuses it. */
  lemma BothKindsOfJumps(valid: Validation, a: Row, b: Row, c: Row, p: Preview)
    requires JumpsBehind(a, b, c) && c.jumpHostId == Some(a.id) && c.jumpHostIds == [b.id]
    requires Sound(p) && p.document == ThreeHosts(a, b, c, p.document.settings) && !p.applySettings
    requires p.target == map[] && p.mappings == map[]
    ensures p.canCommit && !Admits(valid, p, ToCreate(p))
  {
    HostsConsistent(a, b, c, p.document.settings, p.target);
    ConsistentIsUnique(p.document, p.target);
    HostItems(a, b, c, p.document.settings);
    hide CollectionsConsistent, SettingsConsistent, Unique, Items, Tally, NoConflict, Decided, ThreeHosts, JumpsBehind;
    NothingKnown(Items(p.document), p);
    assert Item(Hosts, c) in ToCreate(p);
    assert !ItemAdmitted(valid, p, Item(Hosts, c));
  }

  /**
   A host that is listed together with the copy of it that an earlier import made gives a jump list with one
   target twice: the preview takes both for unchanged, and the repository refuses the list.
   */
  lemma ListedWithItsCopy(valid: Validation, a: Row, b: Row, c: Row, p: Preview)
    requires JumpsBehind(a, b, c) && c.jumpHostId.None? && c.jumpHostIds == [a.id, b.id]
    requires Sound(p) && p.document == ThreeHosts(a, b, c, p.document.settings) && !p.applySettings
    requires p.target == map[Key(Hosts, b.id) := b] && p.mappings == map[Key(Hosts, a.id) := Entry(a, b.id)]
    ensures p.canCommit && !Admits(valid, p, ToCreate(p))
  {
    HostsConsistent(a, b, c, p.document.settings, p.target);
    HostItems(a, b, c, p.document.settings);
    hide CollectionsConsistent, SettingsConsistent, Unique, Items, Tally, NoConflict, Decided, ThreeHosts, Sound;
    MayCommit(p);
    DecidedOn(p, Item(Hosts, a));
    DecidedOn(p, Item(Hosts, b));
    DecidedOn(p, Item(Hosts, c));
    NoneConflicts(p, Item(Hosts, a), Item(Hosts, b), Item(Hosts, c));
    assert !ApartTargets(p.targets, c.jumpHostIds[0], c.jumpHostIds[1]);
    assert !ItemAdmitted(valid, p, Item(Hosts, c));
    assert Item(Hosts, c) in ToCreate(p);
  }

  lemma NoneConflicts(p: Preview, a: Item, b: Item, c: Item)
    requires Items(p.document) == {a, b, c}
    requires forall item :: item in {a, b, c} ==> Classify(item, p.target, p.mappings).action != Conflict
    ensures NoConflict(Items(p.document), p.target, p.mappings)
  {
  }

  /** A group whose name another group of the target has passes the preview, which compares ids only. */
  lemma NameTaken(valid: Validation, a: Row, saved: Row, p: Preview)
    requires a.Plain? && saved.Plain? && a.id != saved.id && a.name == saved.name
    requires Sound(p) && p.document == Document(map[HostGroups := [a]], p.document.settings) && !p.applySettings
    requires p.target == map[Key(HostGroups, saved.id) := saved] && p.mappings == map[]
    ensures p.canCommit && !Admits(valid, p, ToCreate(p))
  {
    hide CollectionsConsistent, SettingsConsistent, Unique, Items, Tally, NoConflict, Decided, Sound;
    OneGroupConsistent(a, p.document.settings, p.target);
    MayCommit(p);
    DecidedOn(p, Item(HostGroups, a));
    NoneConflicts(p, Item(HostGroups, a), Item(HostGroups, a), Item(HostGroups, a));
    assert Label(HostGroups, p.target[Key(HostGroups, saved.id)]) == Label(HostGroups, a);
    assert !ItemAdmitted(valid, p, Item(HostGroups, a));
    assert Item(HostGroups, a) in ToCreate(p);
  }

  lemma OneGroupConsistent(a: Row, settings: Settings, target: map<Key, Row>)
    requires a.Plain? && Key(HostGroups, a.id) !in target
    ensures CollectionsConsistent(Document(map[HostGroups := [a]], settings), target)
    ensures Items(Document(map[HostGroups := [a]], settings)) == {Item(HostGroups, a)}
  {
    var doc := Document(map[HostGroups := [a]], settings);
    forall c ensures RowsAdmissible(doc, target, c) && ReferencesPresent(doc, c) {
    }
    forall c | c in {Hosts, BookmarkGroups, QuickCommandGroups} ensures !HasCycle(SiblingGraph(doc, c)) {
      assert SiblingGraph(doc, c) == map[];
      RankedAcyclic(SiblingGraph(doc, c), []);
    }
  }

  // ----- a document that cannot be committed a second time -----

  /** Two groups of which the second has the id that the first one is going to get. */
  function TwoGroups(a: Row, b: Row, settings: Settings): Document {
    Document(map[HostGroups := [a, b]], settings)
  }

  /**
   A document that cannot be committed a second time: its first group is created under the id of its second,
   where the next preview takes it for a changed copy of that one.
   */
  lemma ReusedId(valid: Validation, a: Row, b: Row, p: Preview, start: State, q: Preview)
    requires a.Plain? && b.Plain? && a.name != b.name && a.id != b.id
    requires start == State(map[], map[], map[], b.id.number)
    requires Sound(p) && p.document == TwoGroups(a, b, p.document.settings) && !p.applySettings
    requires p.target == map[] && p.mappings == map[]
    requires var end := Run(start, [Item(HostGroups, a), Item(HostGroups, b)]);
             Sound(q) && q.document == p.document && q.target == end.rows && q.mappings == end.entries
    ensures p.canCommit && !q.canCommit
    ensures valid(HostGroups, a) && valid(HostGroups, b) ==> Admits(valid, p, ToCreate(p))
    ensures var log := [Item(HostGroups, a), Item(HostGroups, b)];
            Imported(p, start, Run(start, log), log)
  {
    var log := [Item(HostGroups, a), Item(HostGroups, b)];
    GroupsConsistent(a, b, p.document.settings);
    GroupItems(a, b, p.document.settings);
    hide CollectionsConsistent, Run, Items, Sound, InTurn, ShouldCreate, TwoGroups, Imported;
    GroupsCreated(a, b, p);
    GroupsAdmitted(valid, a, b, p);
    GroupsRun(a, b, start);
    GroupReplaced(p.document, b, Run(start, log).rows, q);
    GroupsImported(a, b, p, start);
  }

  lemma GroupsAdmitted(valid: Validation, a: Row, b: Row, p: Preview)
    requires a.Plain? && b.Plain? && a.name != b.name && p.target == map[]
    requires Items(p.document) == {Item(HostGroups, a), Item(HostGroups, b)}
    ensures valid(HostGroups, a) && valid(HostGroups, b) ==> Admits(valid, p, ToCreate(p))
  {
    hide Items, ShouldCreate;
    forall c ensures Fits(p, ToCreate(p), c) {
      assert InPool(ToCreate(p), c) == {};
    }
    assert forall item :: item in ToCreate(p) ==> item == Item(HostGroups, a) || item == Item(HostGroups, b);
  }

  lemma GroupsImported(a: Row, b: Row, p: Preview, start: State)
    requires Items(p.document) == {Item(HostGroups, a), Item(HostGroups, b)} && start.targets == p.targets == map[]
    requires forall item :: item in Items(p.document) ==> ShouldCreate(p, item)
    requires InTurn({}, [Item(HostGroups, a), Item(HostGroups, b)])
    ensures var log := [Item(HostGroups, a), Item(HostGroups, b)];
            Imported(p, start, Run(start, log), log)
  {
    hide Items, InTurn, Run, ShouldCreate;
    assert p.targets.Keys == {};
  }

  /** A saved row that differs from the row of the document under its key forbids the import. */
  lemma GroupReplaced(doc: Document, b: Row, after: map<Key, Row>, q: Preview)
    requires Item(HostGroups, b) in Items(doc) && CollectionsConsistent(doc, map[])
    requires Key(HostGroups, b.id) in after && after[Key(HostGroups, b.id)] != b
    requires Sound(q) && q.document == doc && q.target == after
    ensures !q.canCommit
  {
    hide CollectionsConsistent, SettingsConsistent, Items, Tally, Decided, Unique, NoConflict;
    StillConsistent(doc, map[], after);
    assert Item(HostGroups, b).KeyOf() == Key(HostGroups, b.id);
  }

  lemma GroupsRun(a: Row, b: Row, start: State)
    requires a.Plain? && b.Plain? && a.name != b.name && a.id != b.id
    requires start == State(map[], map[], map[], b.id.number)
    ensures var log := [Item(HostGroups, a), Item(HostGroups, b)];
            && InTurn({}, log)
            && Key(HostGroups, b.id) in Run(start, log).rows && Run(start, log).rows[Key(HostGroups, b.id)] != b
  {
    var log := [Item(HostGroups, a), Item(HostGroups, b)];
    assert log[..0] == [] && log[..1] == [log[0]] && log[..|log| - 1] == [log[0]] && [log[0]][..0] == [];
    assert Run(start, [log[0]]) == CreateRow(start, log[0]);
    assert Id(b.id.number) == b.id;
  }

  lemma GroupsCreated(a: Row, b: Row, p: Preview)
    requires a.Plain? && b.Plain? && a.id != b.id
    requires Sound(p) && p.document == TwoGroups(a, b, p.document.settings)
    requires p.target == map[] && p.mappings == map[]
    requires CollectionsConsistent(p.document, p.target)
    requires Items(p.document) == {Item(HostGroups, a), Item(HostGroups, b)}
    ensures forall item :: item in Items(p.document) ==> ShouldCreate(p, item)
    ensures p.targets == map[] && (!p.applySettings ==> p.canCommit)
  {
    ConsistentIsUnique(p.document, p.target);
    assert Decided(Items(p.document), p.target, p.mappings, p.actions, p.targets);
    hide CollectionsConsistent, SettingsConsistent, Unique, Items, Tally, NoConflict, Decided, ShouldCreate;
    NothingKnown(Items(p.document), p);
  }

  /** Against an empty target without remembered imports every row is to be created. */
  lemma NothingKnown(done: set<Item>, p: Preview)
    requires Decided(done, map[], map[], p.actions, p.targets) && p.targets.Keys <= p.actions.Keys
    ensures forall item :: item in done ==> ShouldCreate(p, item)
    ensures p.targets == map[] && NoConflict(done, map[], map[])
  {
    forall item | item in done ensures ShouldCreate(p, item) && item.KeyOf() !in p.targets {
      assert Recorded(item, map[], map[], p.actions, p.targets);
    }
    forall key ensures key !in p.targets {
      assert key in p.actions ==> exists item :: item in done && item.KeyOf() == key;
    }
  }

  lemma GroupItems(a: Row, b: Row, settings: Settings)
    ensures Items(TwoGroups(a, b, settings)) == {Item(HostGroups, a), Item(HostGroups, b)}
  {
  }

  lemma GroupsConsistent(a: Row, b: Row, settings: Settings)
    requires a.Plain? && b.Plain? && a.id != b.id
    ensures CollectionsConsistent(TwoGroups(a, b, settings), map[])
  {
    var doc := TwoGroups(a, b, settings);
    forall c ensures RowsAdmissible(doc, map[], c) && ReferencesPresent(doc, c) {
    }
    forall c | c in {Hosts, BookmarkGroups, QuickCommandGroups} ensures !HasCycle(SiblingGraph(doc, c)) {
      assert SiblingGraph(doc, c) == map[];
      RankedAcyclic(SiblingGraph(doc, c), []);
    }
  }
}
