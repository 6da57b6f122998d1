/**
 The inspection of a configuration before it is imported: duplicates, missing references and
 reference cycles, reported in a list that keeps at most 256 entries.
 */
module ConfigurationInspection {
  import opened Common
  import opened ReferenceGraph
  import opened SuccessorGraph
  import opened ConfigurationDocument

  const RETAINED := 256

  datatype Kind = DuplicateId | TargetConflict | MissingReference | ReferenceCycle

  datatype Path =
    | IdPath(c: Collection, index: nat)
    | ReferencePath(c: Collection, index: nat, field: string)
    | JumpPath(host: Id, edge: nat)
    | ParentPath(c: Collection, group: Id)
    | SettingsPath(field: string)

  datatype Issue = Issue(kind: Kind, path: Path)

  predicate InSettings(issue: Issue) {
    issue.path.SettingsPath?
  }

  function Retained(issues: seq<Issue>): seq<Issue> {
    if |issues| <= RETAINED then issues else issues[..RETAINED]
  }

  /** The groups whose parent is also a group of the document, with that parent. */
  function Parents(g: Graph): map<Id, Id> {
    map id | id in g && g[id] != [] && g[id][0] in g :: g[id][0]
  }

  /** Reported groups: one for each cycle of parents. */
  ghost predicate OnePerCycle(next: map<Id, Id>, reported: seq<Id>) {
    && (forall r: Id :: r in reported ==> Leads(next, r, r))
    && (forall i, j :: 0 <= i < j < |reported| ==> !SameCycle(next, reported[i], reported[j]))
    && (forall x: Id :: Leads(next, x, x) ==> exists r: Id :: r in reported && SameCycle(next, x, r))
  }

  // ----- what is found -----

  function When(found: bool, issue: Issue): seq<Issue> {
    if found then [issue] else []
  }

  function Missing(doc: Document, c: Collection, id: Option<Id>, path: Path): seq<Issue> {
    When(!Present(doc, c, id), Issue(MissingReference, path))
  }

  function RowIssues(target: map<Key, Row>, c: Collection, rows: seq<Row>, i: nat): seq<Issue>
    requires i < |rows|
  {
    When(rows[i].id in Ids(rows[..i]), Issue(DuplicateId, IdPath(c, i)))
    + When(
      Key(c, rows[i].id) in target && target[Key(c, rows[i].id)] != rows[i], Issue(TargetConflict, IdPath(c, i)))
  }

  function RowsIssues(target: map<Key, Row>, c: Collection, rows: seq<Row>, n: nat): seq<Issue>
    requires n <= |rows|
  {
    if n == 0 then [] else RowsIssues(target, c, rows, n - 1) + RowIssues(target, c, rows, n - 1)
  }

  function CollectionsIssues(doc: Document, target: map<Key, Row>, list: seq<Collection>): seq<Issue> {
    if list == [] then []
    else
      var c := list[|list| - 1];
      CollectionsIssues(doc, target, list[..|list| - 1]) + RowsIssues(target, c, doc.Rows(c), |doc.Rows(c)|)
  }

  function FieldIssues(doc: Document, c: Collection, refs: seq<Reference>, index: nat, n: nat): seq<Issue>
    requires n <= |refs|
  {
    if n == 0 then []
    else
      FieldIssues(doc, c, refs, index, n - 1)
      + Missing(
        doc, refs[n - 1].target.collection, Some(refs[n - 1].target.id), ReferencePath(c, index, refs[n - 1].field))
  }

  function ReferenceIssues(doc: Document, c: Collection, n: nat): seq<Issue>
    requires n <= |doc.Rows(c)|
  {
    if n == 0 then []
    else
      var refs := References(c, doc.Rows(c)[n - 1]);
      ReferenceIssues(doc, c, n - 1) + FieldIssues(doc, c, refs, n - 1, |refs|)
  }

  function AllReferenceIssues(doc: Document, c: Collection): seq<Issue> {
    ReferenceIssues(doc, c, |doc.Rows(c)|)
  }

  /** The edge from a to b lies on a cycle. */
  ghost predicate OnCycle(g: Graph, a: Id, b: Id) {
    IsEdge(g, a, b) && exists path :: path != [] && IsPath(g, path) && path[0] == b && path[|path| - 1] == a
  }

  /** The issue names a reference that lies on a cycle. */
  ghost predicate ClosesCycle(g: Graph, issue: Issue) {
    && issue.kind == ReferenceCycle
    && match issue.path
       case JumpPath(a, j) => a in g && j < |g[a]| && OnCycle(g, a, g[a][j])
       case ParentPath(_, a) => a in g && g[a] != [] && OnCycle(g, a, g[a][0])
       case _ => false
  }

  function TabIssues(doc: Document, tabs: seq<Tab>, i: nat): seq<Issue>
    requires i < |tabs|
  {
    When(tabs[i].id in TabIds(tabs[..i]), Issue(DuplicateId, SettingsPath("tabs.id")))
    + Missing(doc, Hosts, tabs[i].hostId, SettingsPath("tabs.hostId"))
    + Missing(doc, Bookmarks, tabs[i].bookmarkId, SettingsPath("tabs.bookmarkId"))
    + Missing(doc, TerminalProfiles, tabs[i].profileId, SettingsPath("tabs.profileId"))
  }

  function TabsIssues(doc: Document, tabs: seq<Tab>, n: nat): seq<Issue>
    requires n <= |tabs|
  {
    if n == 0 then [] else TabsIssues(doc, tabs, n - 1) + TabIssues(doc, tabs, n - 1)
  }

  function TerminalIssues(tabs: seq<Tab>, id: Option<Id>, field: string): seq<Issue> {
    When(!InTabs(tabs, id), Issue(MissingReference, SettingsPath(field)))
  }

  function PaneIssues(tabs: seq<Tab>, panes: seq<Option<Id>>, n: nat): seq<Issue>
    requires n <= |panes|
  {
    if n == 0 then [] else PaneIssues(tabs, panes, n - 1) + TerminalIssues(tabs, panes[n - 1], "paneTerminalIds")
  }

  function LayoutIssues(doc: Document, layout: Layout): seq<Issue> {
    TabsIssues(doc, layout.tabs, |layout.tabs|)
    + TerminalIssues(layout.tabs, layout.activeTerminalId, "activeTerminalId")
    + TerminalIssues(layout.tabs, layout.secondaryTerminalId, "secondaryTerminalId")
    + PaneIssues(layout.tabs, layout.paneTerminalIds, |layout.paneTerminalIds|)
  }

  function WorkspacesIssues(doc: Document, workspaces: seq<Workspace>, n: nat): seq<Issue>
    requires n <= |workspaces|
  {
    if n == 0 then []
    else
      var w := workspaces[n - 1];
      WorkspacesIssues(doc, workspaces, n - 1)
      + When(w.id in WorkspaceIds(workspaces[..n - 1]), Issue(DuplicateId, SettingsPath("namedWorkspaces.id")))
      + LayoutIssues(doc, w.layout)
  }

  function AddressIssues(doc: Document, hosts: seq<Option<Id>>, n: nat): seq<Issue>
    requires n <= |hosts|
  {
    if n == 0 then []
    else
      AddressIssues(doc, hosts, n - 1) + Missing(doc, Hosts, hosts[n - 1], SettingsPath("remoteAddressBookmarks"))
  }

  function SettingsIssues(doc: Document): seq<Issue> {
    var s := doc.settings;
    var active := s.activeWorkspaceId;
    Missing(doc, TerminalProfiles, s.defaultProfileId, SettingsPath("defaultProfileId"))
    + AddressIssues(doc, s.addressHosts, |s.addressHosts|)
    + WorkspacesIssues(doc, s.namedWorkspaces, |s.namedWorkspaces|)
    + When(
      active.Some? && active.value !in WorkspaceIds(s.namedWorkspaces),
      Issue(MissingReference, SettingsPath("activeWorkspaceId")))
    + if s.layout.Some? then LayoutIssues(doc, s.layout.value) else []
  }

  /** What the searches for cycles report: references of hosts, and groups. */
  datatype Cycles = Cycles(jumps: seq<Issue>, bookmarkGroups: seq<Id>, commandGroups: seq<Id>)

  /** Every reported reference of a host closes a cycle, and every cycle of groups is reported once. */
  ghost predicate CyclesReported(doc: Document, cycles: Cycles) {
    && (forall k :: 0 <= k < |cycles.jumps| ==> ClosesCycle(SiblingGraph(doc, Hosts), cycles.jumps[k]))
    && (cycles.jumps == [] <==> !HasCycle(SiblingGraph(doc, Hosts)))
    && OnePerCycle(Parents(SiblingGraph(doc, BookmarkGroups)), cycles.bookmarkGroups)
    && (cycles.bookmarkGroups == [] <==> !HasCycle(SiblingGraph(doc, BookmarkGroups)))
    && OnePerCycle(Parents(SiblingGraph(doc, QuickCommandGroups)), cycles.commandGroups)
    && (cycles.commandGroups == [] <==> !HasCycle(SiblingGraph(doc, QuickCommandGroups)))
  }

  /** The issues of the collections, in the order of the report. */
  function DocumentIssues(doc: Document, target: map<Key, Row>, cycles: Cycles): seq<Issue> {
    CollectionsIssues(doc, target, COLLECTIONS)
    + AllReferenceIssues(doc, Hosts) + cycles.jumps
    + AllReferenceIssues(doc, BookmarkGroups) + CycleIssues(BookmarkGroups, cycles.bookmarkGroups)
    + AllReferenceIssues(doc, Bookmarks) + AllReferenceIssues(doc, TunnelProfiles)
    + AllReferenceIssues(doc, QuickCommandGroups) + CycleIssues(QuickCommandGroups, cycles.commandGroups)
    + AllReferenceIssues(doc, QuickCommands)
  }

  class Inspector {
    const source: Document
    const target: map<Key, Row>
    var issues: seq<Issue>
    var issueCount: nat
    var ids: map<Collection, set<Id>>
    var visited: set<Id>
    var active: set<Id>
    /** Every issue found, retained or not. */
    ghost var all: seq<Issue>
    /** The nodes of the current search in the order they were finished. */
    ghost var order: seq<Id>

    constructor (source: Document, target: map<Key, Row>)
      ensures this.source == source && this.target == target && all == [] && ids == map[] && Counted()
    {
      this.source := source;
      this.target := target;
      issues, issueCount, all := [], 0, [];
      ids, visited, active := map[], {}, {};
      order := [];
    }

    /** The retained list and the count are those of all issues. */
    ghost predicate Counted()
      reads this
    {
      issueCount == |all| && issues == Retained(all)
    }

    ghost predicate IdsCollected()
      reads this
    {
      forall c :: c in ids && ids[c] == Ids(source.Rows(c))
    }

    /** The issues added since there were `before`, none of them about the settings. */
    ghost predicate AddedRows(before: seq<Issue>)
      reads this
    {
      before <= all && forall k :: |before| <= k < |all| ==> !InSettings(all[k])
    }

    method Add(issue: Issue)
      requires Counted()
      modifies `issues, `issueCount, `all
      ensures Counted() && all == old(all) + [issue]
    {
      issueCount := issueCount + 1;
      all := all + [issue];
      if |issues| < RETAINED {
        issues := issues + [issue];
      }
    }

    // ----- duplicates and conflicts with the target -----

    method CheckRow(c: Collection, rows: seq<Row>, i: nat, seen: set<Id>)
      requires Counted() && i < |rows| && seen == Ids(rows[..i])
      modifies `issues, `issueCount, `all
      ensures Counted()
      ensures all == old(all) <==> RowAdmissible(target, c, rows, i)
      ensures all == old(all) + RowIssues(target, c, rows, i)
    {
      var row := rows[i];
      if row.id in seen {
        Add(Issue(DuplicateId, IdPath(c, i)));
      }
      if Key(c, row.id) in target && target[Key(c, row.id)] != row {
        Add(Issue(TargetConflict, IdPath(c, i)));
      }
    }

    method CheckRows(c: Collection)
      requires Counted()
      modifies `issues, `issueCount, `all, `ids
      ensures Counted()
      ensures ids == old(ids)[c := Ids(source.Rows(c))]
      ensures all == old(all) <==> RowsAdmissible(source, target, c)
      ensures all == old(all) + RowsIssues(target, c, source.Rows(c), |source.Rows(c)|)
    {
      hide RowIssues, RowsIssues, RowAdmissible;
      var rows := source.Rows(c);
      var seen: set<Id> := {};
      ghost var before := all;
      NoRows(target, c, rows);
      for i := 0 to |rows|
        invariant Counted() && ids == old(ids) && seen == Ids(rows[..i])
        invariant all == before + RowsIssues(target, c, rows, i)
      {
        CheckRow(c, rows, i, seen);
        OneMoreRow(before, target, c, rows, i);
        assert rows[..i + 1] == rows[..i] + [rows[i]];
        seen := seen + {rows[i].id};
      }
      assert rows[..|rows|] == rows;
      RowsFound(target, c, rows, |rows|);
      AddedEnd(before, RowsIssues(target, c, rows, |rows|));
      ids := ids[c := seen];
    }

    method CheckCollections()
      requires Counted() && all == [] && ids == map[]
      modifies `issues, `issueCount, `all, `ids
      ensures Counted() && AddedRows([]) && IdsCollected()
      ensures all == [] <==> forall c :: RowsAdmissible(source, target, c)
      ensures all == CollectionsIssues(source, target, COLLECTIONS)
    {
      hide RowsIssues, RowsAdmissible, CollectionsIssues;
      NoCollections(source, target);
      for i := 0 to |COLLECTIONS|
        invariant Counted() && all == CollectionsIssues(source, target, COLLECTIONS[..i])
        invariant forall c :: c in COLLECTIONS[..i] ==> c in ids && ids[c] == Ids(source.Rows(c))
      {
        assert COLLECTIONS[..i + 1] == COLLECTIONS[..i] + [COLLECTIONS[i]];
        CheckRows(COLLECTIONS[i]);
        OneMoreCollection(source, target, COLLECTIONS[..i], COLLECTIONS[i]);
      }
      assert COLLECTIONS[..|COLLECTIONS|] == COLLECTIONS;
      CollectionsFound(source, target, COLLECTIONS);
      AllListed();
    }

    // ----- references -----

    method CheckReference(id: Option<Id>, c: Collection, issue: Issue)
      requires Counted() && IdsCollected()
      modifies `issues, `issueCount, `all
      ensures Counted()
      ensures all == old(all) + if Present(source, c, id) then [] else [issue]
    {
      if id.Some? && id.value !in ids[c] {
        Add(issue);
      }
    }

    method CheckRowReferences(c: Collection, row: Row, index: nat)
      requires Counted() && IdsCollected()
      modifies `issues, `issueCount, `all
      ensures Counted()
      ensures all == old(all) <==> ReferencesFound(source, c, row)
      ensures all == old(all) + FieldIssues(source, c, References(c, row), index, |References(c, row)|)
    {
      hide References, FieldIssues, Missing;
      var refs := References(c, row);
      ghost var before := all;
      NoFields(source, c, refs, index);
      for j := 0 to |refs|
        invariant Counted() && all == before + FieldIssues(source, c, refs, index, j)
      {
        OneMoreField(before, source, c, refs, index, j);
        CheckReference(
          Some(refs[j].target.id), refs[j].target.collection,
          Issue(MissingReference, ReferencePath(c, index, refs[j].field)));
      }
      FieldsFound(source, c, refs, index, |refs|);
      AddedEnd(before, FieldIssues(source, c, refs, index, |refs|));
    }

    method CheckReferences(c: Collection)
      requires Counted() && IdsCollected()
      modifies `issues, `issueCount, `all
      ensures Counted()
      ensures all == old(all) <==> ReferencesPresent(source, c)
      ensures all == old(all) + AllReferenceIssues(source, c)
    {
      hide References, ReferencesFound, FieldIssues, ReferenceIssues;
      var rows := source.Rows(c);
      ghost var before := all;
      NoReferences(source, c);
      for i := 0 to |rows|
        invariant Counted() && all == before + ReferenceIssues(source, c, i)
      {
        CheckRowReferences(c, rows[i], i);
        OneMoreReference(before, source, c, i);
      }
      ReferencesAllFound(source, c, |rows|);
      AddedEnd(before, AllReferenceIssues(source, c));
    }

    // ----- cycles of jump hosts -----

    /** The state of a search: the ids being visited form a path, the finished ones are listed in order. */
    ghost predicate Searching(g: Graph, stack: seq<Id>)
      reads this
    {
      && Counted()
      && IsPath(g, stack) && (forall a :: a in stack ==> a in g)
      && (forall a :: a in active <==> a in stack)
      && (forall a :: a in visited <==> a in order)
      && active !! visited
    }

    /** What the search has found since there were `before` issues: nothing yet, or a cycle. */
    ghost predicate Found(g: Graph, before: seq<Issue>)
      reads this
    {
      && AddedRows(before)
      && (all == before ==> Ranked(g, order))
      && (all != before ==> HasCycle(g))
      && (forall k :: |before| <= k < |all| ==> ClosesCycle(g, all[k]))
    }

    method Finish(id: Id, g: Graph, ghost stack: seq<Id>, ghost before: seq<Issue>)
      requires Searching(g, stack + [id]) && Found(g, before) && id !in stack
      requires all == before ==> forall b :: IsEdge(g, id, b) ==> b in visited
      modifies `visited, `active, `order
      ensures Searching(g, stack) && Found(g, before)
      ensures visited == old(visited) + {id} && active == old(active) - {id}
    {
      hide HasCycle, Ranked, ClosesCycle;
      PathInit(g, stack, id);
      active := active - {id};
      if all == before {
        ExtendRanked(g, order, id);
      }
      visited := visited + {id};
      order := order + [id];
    }

    method VisitHost(id: Id, g: Graph, ghost stack: seq<Id>, ghost before: seq<Issue>)
      requires Searching(g, stack) && Found(g, before)
      requires id in g && (stack != [] ==> IsEdge(g, stack[|stack| - 1], id))
      modifies `issues, `issueCount, `all, `visited, `active, `order
      ensures Searching(g, stack) && Found(g, before)
      ensures old(all) <= all && old(visited) <= visited && (id in visited || id in active)
      decreases g.Keys - active
    {
      hide HasCycle, Ranked, IsPath, ClosesCycle;
      if id in visited || id in active { return; }
      ghost var inner := stack + [id];
      ExtendPath(g, stack, id);
      active := active + {id};
      var edges := g[id];
      for j := 0 to |edges|
        invariant Searching(g, inner) && Found(g, before)
        invariant active == old(active) + {id}
        invariant old(all) <= all && old(visited) <= visited
        invariant all == before ==> forall k :: 0 <= k < j && edges[k] in g ==> edges[k] in visited
      {
        if edges[j] in active {
          BackEdge(g, inner, edges[j]);
          BackEdgeCloses(g, inner, edges[j], Issue(ReferenceCycle, JumpPath(id, j)));
          Add(Issue(ReferenceCycle, JumpPath(id, j)));
        } else if edges[j] in g {
          VisitHost(edges[j], g, inner, before);
        }
      }
      Finish(id, g, stack, before);
    }

    method CheckHostCycles()
      requires Counted()
      modifies `issues, `issueCount, `all, `visited, `active, `order
      ensures Counted() && AddedRows(old(all))
      ensures all == old(all) <==> !HasCycle(SiblingGraph(source, Hosts))
      ensures forall k :: |old(all)| <= k < |all| ==> ClosesCycle(SiblingGraph(source, Hosts), all[k])
    {
      hide ClosesCycle;
      var g := SiblingGraph(source, Hosts);
      visited, active, order := {}, {}, [];
      var remaining := g.Keys;
      while remaining != {}
        invariant Searching(g, []) && Found(g, old(all))
        invariant forall a :: a in g && a !in remaining ==> a in visited
      {
        var id :| id in remaining;
        VisitHost(id, g, [], old(all));
        remaining := remaining - {id};
      }
      if all == old(all) {
        RankedAcyclic(g, order);
      }
    }

    // ----- cycles of groups -----

    /** Finished groups lead only to finished groups, or into the current path. */
    ghost predicate Closed(next: map<Id, Id>)
      reads this
    {
      forall a :: a in visited && a in next ==> next[a] in visited || next[a] in active
    }

    /** A visit follows one path of parents; hit is the group it reported, if it ran into that path. */
    method VisitGroup(id: Id, g: Graph, c: Collection, ghost stack: seq<Id>, ghost before: seq<Issue>)
      returns (ghost hit: Option<Id>)
      requires Searching(g, stack) && Found(g, before) && ParentsOnly(g)
      requires forall a :: a in visited && a in Parents(g) ==> Parents(g)[a] in visited
      requires id in g && (stack != [] ==> IsEdge(g, stack[|stack| - 1], id))
      modifies `issues, `issueCount, `all, `visited, `active, `order
      ensures Searching(g, stack) && Found(g, before) && Closed(Parents(g))
      ensures old(visited) <= visited && (id in visited || id in active)
      ensures all == old(all) + if hit.Some? then [Issue(ReferenceCycle, ParentPath(c, hit.value))] else []
      ensures HitIn(Parents(g), visited - old(visited), hit)
      decreases g.Keys - active
    {
      hide HitIn, Leads, HasCycle, Ranked, IsPath, ClosesCycle;
      NothingVisited(g);
      hit := None;
      if id in visited || id in active {
        assert visited - old(visited) == {};
        return;
      }
      LoneGroup(g, id);
      ghost var inner := stack + [id];
      ExtendPath(g, stack, id);
      active := active + {id};
      if g[id] != [] {
        var parent := g[id][0];
        if parent in active {
          BackEdge(g, inner, parent);
          BackToParent(g, inner);
          BackEdgeCloses(g, inner, parent, Issue(ReferenceCycle, ParentPath(c, id)));
          hit := Some(id);
          Add(Issue(ReferenceCycle, ParentPath(c, id)));
        } else if parent in g {
          hit := VisitGroup(parent, g, c, inner, before);
          HitThroughParent(g, old(visited), visited, id, hit);
          assert visited + {id} - old(visited) == (visited - old(visited)) + {id};
        }
      }
      Finish(id, g, stack, before);
      assert hit.None? && old(visited) + {id} == visited ==> visited - old(visited) == {id};
    }

    method CheckGroupCycles(c: Collection) returns (ghost reported: seq<Id>)
      requires Counted() && (c == BookmarkGroups || c == QuickCommandGroups)
      modifies `issues, `issueCount, `all, `visited, `active, `order
      ensures Counted() && AddedRows(old(all))
      ensures all == old(all) <==> !HasCycle(SiblingGraph(source, c))
      ensures all == old(all) + CycleIssues(c, reported)
      ensures OnePerCycle(Parents(SiblingGraph(source, c)), reported)
      ensures forall k :: |old(all)| <= k < |all| ==> ClosesCycle(SiblingGraph(source, c), all[k])
    {
      var g := SiblingGraph(source, c);
      hide ClosesCycle;
      hide Leads, SameCycle, HitIn, Ranked, HasCycle, OnePerCycleIn, OnePerCycle;
      NothingVisited(g);
      GroupsHaveOneParent(c, source.Rows(c));
      visited, active, order, reported := {}, {}, [], [];
      var remaining := g.Keys;
      while remaining != {}
        invariant Searching(g, []) && Found(g, old(all)) && Closed(Parents(g))
        invariant forall a :: a in g && a !in remaining ==> a in visited
        invariant all == old(all) + CycleIssues(c, reported)
        invariant OnePerCycleIn(Parents(g), visited, reported)
      {
        ghost var seen := visited;
        var id :| id in remaining;
        ghost var hit := VisitGroup(id, g, c, [], old(all));
        ReportHit(Parents(g), seen, visited, reported, hit);
        reported := if hit.Some? then reported + [hit.value] else reported;
        remaining := remaining - {id};
      }
      if all == old(all) {
        RankedAcyclic(g, order);
      }
      CyclesAreVisited(g, visited, reported);
    }

    // ----- settings -----

    /** The issues added since there were `before`, all of them about the settings. */
    ghost predicate AddedSettings(before: seq<Issue>)
      reads this
    {
      before <= all && forall k :: |before| <= k < |all| ==> InSettings(all[k])
    }

    method CheckTab(tab: Tab, tabIds: set<Id>, ghost tabs: seq<Tab>, ghost i: nat)
      requires Counted() && IdsCollected()
      requires i < |tabs| && tabs[i] == tab && tabIds == TabIds(tabs[..i])
      modifies `issues, `issueCount, `all
      ensures Counted() && all == old(all) + TabIssues(source, tabs, i)
    {
      if tab.id in tabIds {
        Add(Issue(DuplicateId, SettingsPath("tabs.id")));
      }
      CheckReference(tab.hostId, Hosts, Issue(MissingReference, SettingsPath("tabs.hostId")));
      CheckReference(tab.bookmarkId, Bookmarks, Issue(MissingReference, SettingsPath("tabs.bookmarkId")));
      CheckReference(tab.profileId, TerminalProfiles, Issue(MissingReference, SettingsPath("tabs.profileId")));
    }

    method CheckTabs(tabs: seq<Tab>) returns (tabIds: set<Id>)
      requires Counted() && IdsCollected()
      modifies `issues, `issueCount, `all
      ensures Counted() && AddedSettings(old(all)) && tabIds == TabIds(tabs)
      ensures all == old(all) <==> TabsConsistent(source, tabs)
      ensures all == old(all) + TabsIssues(source, tabs, |tabs|)
    {
      hide TabIssues, TabsIssues, TabsConsistent;
      ghost var before := all;
      tabIds := {};
      NoTabs(source, tabs);
      for i := 0 to |tabs|
        invariant Counted() && tabIds == TabIds(tabs[..i]) && all == before + TabsIssues(source, tabs, i)
      {
        assert tabs[..i + 1] == tabs[..i] + [tabs[i]];
        CheckTab(tabs[i], tabIds, tabs, i);
        OneMoreTab(before, source, tabs, i);
        NextTab(source, tabs[..i], tabs[i]);
        tabIds := tabIds + {tabs[i].id};
      }
      assert tabs[..|tabs|] == tabs;
      TabsFound(source, tabs, |tabs|);
      AddedEnd(before, TabsIssues(source, tabs, |tabs|));
    }

    method CheckTerminal(id: Option<Id>, tabIds: set<Id>, field: string)
      requires Counted()
      modifies `issues, `issueCount, `all
      ensures Counted()
      ensures all == old(all) + When(id.Some? && id.value !in tabIds, Issue(MissingReference, SettingsPath(field)))
    {
      if id.Some? && id.value !in tabIds {
        Add(Issue(MissingReference, SettingsPath(field)));
      }
    }

    method CheckPanes(panes: seq<Option<Id>>, tabIds: set<Id>, ghost tabs: seq<Tab>)
      requires Counted() && tabIds == TabIds(tabs)
      modifies `issues, `issueCount, `all
      ensures Counted() && all == old(all) + PaneIssues(tabs, panes, |panes|)
    {
      for i := 0 to |panes|
        invariant Counted() && all == old(all) + PaneIssues(tabs, panes, i)
      {
        CheckTerminal(panes[i], tabIds, "paneTerminalIds");
        OneMorePane(old(all), tabs, panes, i);
      }
    }

    method InspectLayout(layout: Layout)
      requires Counted() && IdsCollected()
      modifies `issues, `issueCount, `all
      ensures Counted() && AddedSettings(old(all))
      ensures all == old(all) <==> LayoutConsistent(source, layout)
      ensures all == old(all) + LayoutIssues(source, layout)
    {
      hide TabsConsistent, TabsIssues, PaneIssues, LayoutConsistent, TabIds, When;
      ghost var before := all;
      var tabIds := CheckTabs(layout.tabs);
      SameTerminal(layout.tabs, layout.activeTerminalId, "activeTerminalId");
      SameTerminal(layout.tabs, layout.secondaryTerminalId, "secondaryTerminalId");
      CheckTerminal(layout.activeTerminalId, tabIds, "activeTerminalId");
      CheckTerminal(layout.secondaryTerminalId, tabIds, "secondaryTerminalId");
      CheckPanes(layout.paneTerminalIds, tabIds, layout.tabs);
      LayoutJoined(before, source, layout);
      LayoutFound(source, layout);
      AddedEnd(before, LayoutIssues(source, layout));
    }

    method InspectWorkspaces(workspaces: seq<Workspace>) returns (namedIds: set<Id>)
      requires Counted() && IdsCollected()
      modifies `issues, `issueCount, `all
      ensures Counted() && AddedSettings(old(all))
      ensures namedIds == WorkspaceIds(workspaces)
      ensures all == old(all) <==> WorkspacesConsistent(source, workspaces)
      ensures all == old(all) + WorkspacesIssues(source, workspaces, |workspaces|)
    {
      hide LayoutConsistent, LayoutIssues, WorkspacesIssues, WorkspacesConsistent;
      ghost var before := all;
      namedIds := {};
      NoWorkspaces(source, workspaces);
      for i := 0 to |workspaces|
        invariant Counted() && namedIds == WorkspaceIds(workspaces[..i])
        invariant all == before + WorkspacesIssues(source, workspaces, i)
      {
        assert workspaces[..i + 1] == workspaces[..i] + [workspaces[i]];
        NextWorkspace(source, workspaces[..i], workspaces[i]);
        OneMoreWorkspace(before, source, workspaces, i);
        if workspaces[i].id in namedIds {
          Add(Issue(DuplicateId, SettingsPath("namedWorkspaces.id")));
        }
        namedIds := namedIds + {workspaces[i].id};
        InspectLayout(workspaces[i].layout);
      }
      assert workspaces[..|workspaces|] == workspaces;
      WorkspacesFound(source, workspaces, |workspaces|);
      AddedEnd(before, WorkspacesIssues(source, workspaces, |workspaces|));
    }

    method InspectAddresses(hosts: seq<Option<Id>>)
      requires Counted() && IdsCollected()
      modifies `issues, `issueCount, `all
      ensures Counted() && all == old(all) + AddressIssues(source, hosts, |hosts|)
    {
      for i := 0 to |hosts|
        invariant Counted() && all == old(all) + AddressIssues(source, hosts, i)
      {
        CheckReference(hosts[i], Hosts, Issue(MissingReference, SettingsPath("remoteAddressBookmarks")));
        OneMoreAddress(old(all), source, hosts, i);
      }
    }

    method InspectSettings()
      requires Counted() && IdsCollected()
      modifies `issues, `issueCount, `all
      ensures Counted() && AddedSettings(old(all))
      ensures all == old(all) <==> SettingsConsistent(source)
      ensures all == old(all) + SettingsIssues(source)
    {
      hide Present, WorkspacesConsistent, LayoutConsistent, AddressIssues, WorkspacesIssues, LayoutIssues,
        SettingsConsistent, WorkspaceIds;
      ghost var before := all;
      var s := source.settings;
      CheckReference(s.defaultProfileId, TerminalProfiles, Issue(MissingReference, SettingsPath("defaultProfileId")));
      InspectAddresses(s.addressHosts);
      var namedIds := InspectWorkspaces(s.namedWorkspaces);
      if s.activeWorkspaceId.Some? && s.activeWorkspaceId.value !in namedIds {
        Add(Issue(MissingReference, SettingsPath("activeWorkspaceId")));
      }
      if s.layout.Some? {
        InspectLayout(s.layout.value);
      }
      SettingsJoined(before, source);
      assert all == before + SettingsIssues(source);
      SettingsFound(source);
      AddedEnd(before, SettingsIssues(source));
    }

    // ----- the whole inspection -----

    /** The first m issues are about the collections, the others about the settings. */
    ghost predicate Report(m: nat)
      reads this
    {
      && Counted() && m <= |all|
      && (forall k :: 0 <= k < |all| ==> (InSettings(all[k]) <==> m <= k))
      && (m == 0 <==> CollectionsConsistent(source, target))
      && (m == |all| <==> SettingsConsistent(source))
    }

    method InspectCollections() returns (ghost cycles: Cycles)
      requires Counted() && all == [] && ids == map[]
      modifies this
      ensures Counted() && AddedRows([]) && IdsCollected()
      ensures all == [] <==> CollectionsConsistent(source, target)
      ensures all == DocumentIssues(source, target, cycles) && CyclesReported(source, cycles)
    {
      hide ReferencesPresent, RowsAdmissible, HasCycle, SiblingGraph, OnePerCycle, ClosesCycle;
      hide CollectionsIssues, AllReferenceIssues, CollectionsConsistent;
      CheckCollections();
      CheckReferences(Hosts);
      ghost var before := all;
      CheckHostCycles();
      ghost var jumps := all[|before|..];
      assert all == before + jumps;
      CheckReferences(BookmarkGroups);
      ghost var bookmarks := CheckGroupCycles(BookmarkGroups);
      CheckReferences(Bookmarks);
      CheckReferences(TunnelProfiles);
      CheckReferences(QuickCommandGroups);
      ghost var commands := CheckGroupCycles(QuickCommandGroups);
      CheckReferences(QuickCommands);
      cycles := Cycles(jumps, bookmarks, commands);
      DocumentFound(source, target, cycles);
    }

    method Inspect() returns (ghost m: nat, ghost cycles: Cycles)
      requires Counted() && all == [] && ids == map[]
      modifies this
      ensures Report(m)
      ensures all == DocumentIssues(source, target, cycles) + SettingsIssues(source) && CyclesReported(source, cycles)
    {
      hide CollectionsConsistent, SettingsConsistent, DocumentIssues, CyclesReported, SettingsIssues;
      cycles := InspectCollections();
      m := |all|;
      InspectSettings();
    }
  }

  // ----- what the lists of issues say -----

  predicate RowsOnly(issues: seq<Issue>) {
    forall k :: 0 <= k < |issues| ==> !InSettings(issues[k])
  }

  lemma AddedEnd(before: seq<Issue>, issues: seq<Issue>)
    ensures before <= before + issues && (before + issues == before <==> issues == [])
    ensures RowsOnly(issues) ==> forall k :: |before| <= k < |before + issues| ==> !InSettings((before + issues)[k])
    ensures SettingsOnly(issues) ==> forall k :: |before| <= k < |before + issues| ==> InSettings((before + issues)[k])
  {
    assert issues != [] ==> |before + issues| > |before|;
  }

  predicate SettingsOnly(issues: seq<Issue>) {
    forall k :: 0 <= k < |issues| ==> InSettings(issues[k])
  }

  lemma NoRows(target: map<Key, Row>, c: Collection, rows: seq<Row>)
    ensures RowsIssues(target, c, rows, 0) == []
  {
  }

  lemma OneMoreRow(before: seq<Issue>, target: map<Key, Row>, c: Collection, rows: seq<Row>, i: nat)
    requires i < |rows|
    ensures before + RowsIssues(target, c, rows, i + 1) ==
            before + RowsIssues(target, c, rows, i) + RowIssues(target, c, rows, i)
  {
    hide RowIssues;
  }

  lemma {:induction false} RowsFound(target: map<Key, Row>, c: Collection, rows: seq<Row>, n: nat)
    requires n <= |rows|
    ensures RowsOnly(RowsIssues(target, c, rows, n))
    ensures RowsIssues(target, c, rows, n) == [] <==> forall k :: 0 <= k < n ==> RowAdmissible(target, c, rows, k)
  {
    hide RowIssues, RowAdmissible;
    if n > 0 {
      RowsFound(target, c, rows, n - 1);
      RowFound(target, c, rows, n - 1);
    }
  }

  lemma RowFound(target: map<Key, Row>, c: Collection, rows: seq<Row>, i: nat)
    requires i < |rows|
    ensures RowsOnly(RowIssues(target, c, rows, i))
    ensures RowIssues(target, c, rows, i) == [] <==> RowAdmissible(target, c, rows, i)
  {
  }

  lemma NoCollections(doc: Document, target: map<Key, Row>)
    ensures CollectionsIssues(doc, target, []) == []
  {
  }

  lemma OneMoreCollection(doc: Document, target: map<Key, Row>, list: seq<Collection>, c: Collection)
    ensures CollectionsIssues(doc, target, list + [c]) ==
            CollectionsIssues(doc, target, list) + RowsIssues(target, c, doc.Rows(c), |doc.Rows(c)|)
  {
    hide RowsIssues;
    assert (list + [c])[..|list|] == list;
  }

  lemma {:induction false} CollectionsFound(doc: Document, target: map<Key, Row>, list: seq<Collection>)
    ensures RowsOnly(CollectionsIssues(doc, target, list))
    ensures CollectionsIssues(doc, target, list) == [] <==> forall c :: c in list ==> RowsAdmissible(doc, target, c)
  {
    hide RowsIssues, RowsAdmissible;
    if list != [] {
      var init, c := list[..|list| - 1], list[|list| - 1];
      CollectionsFound(doc, target, init);
      AllRowsFound(doc, target, c);
      assert list == init + [c];
    }
  }

  lemma AllRowsFound(doc: Document, target: map<Key, Row>, c: Collection)
    ensures RowsOnly(RowsIssues(target, c, doc.Rows(c), |doc.Rows(c)|))
    ensures RowsIssues(target, c, doc.Rows(c), |doc.Rows(c)|) == [] <==> RowsAdmissible(doc, target, c)
  {
    hide RowsIssues, RowAdmissible;
    RowsFound(target, c, doc.Rows(c), |doc.Rows(c)|);
  }

  lemma NoFields(doc: Document, c: Collection, refs: seq<Reference>, index: nat)
    ensures FieldIssues(doc, c, refs, index, 0) == []
  {
  }

  lemma OneMoreField(
    before: seq<Issue>, doc: Document, c: Collection, refs: seq<Reference>, index: nat, j: nat)
    requires j < |refs|
    ensures var target := refs[j].target;
            var issue := Issue(MissingReference, ReferencePath(c, index, refs[j].field));
            before + FieldIssues(doc, c, refs, index, j + 1) ==
            before + FieldIssues(doc, c, refs, index, j)
            + if Present(doc, target.collection, Some(target.id)) then [] else [issue]
  {
    hide Present;
  }

  lemma {:induction false} FieldsFound(doc: Document, c: Collection, refs: seq<Reference>, index: nat, n: nat)
    requires n <= |refs|
    ensures RowsOnly(FieldIssues(doc, c, refs, index, n))
    ensures FieldIssues(doc, c, refs, index, n) == [] <==> forall k :: 0 <= k < n ==> Names(doc, refs[k].target)
  {
    hide Names;
    if n > 0 {
      FieldsFound(doc, c, refs, index, n - 1);
    }
  }

  lemma NoReferences(doc: Document, c: Collection)
    ensures ReferenceIssues(doc, c, 0) == []
  {
  }

  lemma OneMoreReference(before: seq<Issue>, doc: Document, c: Collection, i: nat)
    requires i < |doc.Rows(c)|
    ensures var refs := References(c, doc.Rows(c)[i]);
            before + ReferenceIssues(doc, c, i + 1) ==
            before + ReferenceIssues(doc, c, i) + FieldIssues(doc, c, refs, i, |refs|)
  {
    hide FieldIssues, References;
  }

  lemma {:induction false} ReferencesAllFound(doc: Document, c: Collection, n: nat)
    requires n <= |doc.Rows(c)|
    ensures RowsOnly(ReferenceIssues(doc, c, n))
    ensures ReferenceIssues(doc, c, n) == [] <==>
            forall k :: 0 <= k < n ==> ReferencesFound(doc, c, doc.Rows(c)[k])
  {
    hide FieldIssues, References, Names;
    if n > 0 {
      ReferencesAllFound(doc, c, n - 1);
      var refs := References(c, doc.Rows(c)[n - 1]);
      FieldsFound(doc, c, refs, n - 1, |refs|);
    }
  }

  // ----- what the report tells -----

  /** An earlier row has the id of row i. */
  predicate Repeats(rows: seq<Row>, i: nat) {
    i < |rows| && exists j :: 0 <= j < i && rows[j].id == rows[i].id
  }

  predicate Differs(target: map<Key, Row>, c: Collection, rows: seq<Row>, i: nat) {
    i < |rows| && Key(c, rows[i].id) in target && target[Key(c, rows[i].id)] != rows[i]
  }

  predicate Dangles(doc: Document, c: Collection, i: nat, field: string) {
    i < |doc.Rows(c)| && exists r :: r in References(c, doc.Rows(c)[i]) && r.field == field && !Names(doc, r.target)
  }

  predicate AboutIds(issues: seq<Issue>, c: Collection) {
    forall k :: 0 <= k < |issues| ==> issues[k].path.IdPath? && issues[k].path.c == c
  }

  lemma {:induction false} RowReported(target: map<Key, Row>, c: Collection, rows: seq<Row>, n: nat, i: nat)
    requires n <= |rows|
    ensures AboutIds(RowsIssues(target, c, rows, n), c)
    ensures Issue(DuplicateId, IdPath(c, i)) in RowsIssues(target, c, rows, n) <==> i < n && Repeats(rows, i)
    ensures Issue(TargetConflict, IdPath(c, i)) in RowsIssues(target, c, rows, n) <==>
            i < n && Differs(target, c, rows, i)
  {
    hide RowIssues, Repeats, Differs;
    if n > 0 {
      RowReported(target, c, rows, n - 1, i);
      OneRowReported(target, c, rows, n - 1, i);
      var before, own := RowsIssues(target, c, rows, n - 1), RowIssues(target, c, rows, n - 1);
      var both := Joined(before, own, Issue(DuplicateId, IdPath(c, i)));
      both := Joined(before, own, Issue(TargetConflict, IdPath(c, i)));
      assert RowsIssues(target, c, rows, n) == both;
    }
  }

  lemma OneRowReported(target: map<Key, Row>, c: Collection, rows: seq<Row>, n: nat, i: nat)
    requires n < |rows|
    ensures AboutIds(RowIssues(target, c, rows, n), c)
    ensures Issue(DuplicateId, IdPath(c, i)) in RowIssues(target, c, rows, n) <==> i == n && Repeats(rows, i)
    ensures Issue(TargetConflict, IdPath(c, i)) in RowIssues(target, c, rows, n) <==>
            i == n && Differs(target, c, rows, i)
  {
    if rows[n].id in Ids(rows[..n]) {
      var row :| row in rows[..n] && row.id == rows[n].id;
      var j :| 0 <= j < n && rows[..n][j] == row;
      assert rows[j].id == rows[n].id;
    }
    if Repeats(rows, n) {
      var j :| 0 <= j < n && rows[j].id == rows[n].id;
      assert rows[j] in rows[..n];
    }
  }

  predicate AboutCollections(issues: seq<Issue>) {
    forall k :: 0 <= k < |issues| ==> issues[k].path.IdPath?
  }

  lemma RowsReported(target: map<Key, Row>, d: Collection, rows: seq<Row>, c: Collection, i: nat)
    ensures forall k :: 0 <= k < |RowsIssues(target, d, rows, |rows|)| ==>
              var path := RowsIssues(target, d, rows, |rows|)[k].path; path.IdPath? && path.c == d
    ensures Issue(DuplicateId, IdPath(c, i)) in RowsIssues(target, d, rows, |rows|) <==> c == d && Repeats(rows, i)
    ensures Issue(TargetConflict, IdPath(c, i)) in RowsIssues(target, d, rows, |rows|) <==>
            c == d && Differs(target, d, rows, i)
  {
    hide RowsIssues;
    RowReported(target, d, rows, |rows|, i);
  }

  lemma {:induction false} CollectionReported(
    doc: Document, target: map<Key, Row>, list: seq<Collection>, c: Collection, i: nat)
    ensures AboutCollections(CollectionsIssues(doc, target, list))
    ensures Issue(DuplicateId, IdPath(c, i)) in CollectionsIssues(doc, target, list) <==>
            c in list && Repeats(doc.Rows(c), i)
    ensures Issue(TargetConflict, IdPath(c, i)) in CollectionsIssues(doc, target, list) <==>
            c in list && Differs(target, c, doc.Rows(c), i)
  {
    hide RowsIssues, Repeats, Differs;
    if list != [] {
      var init, d := list[..|list| - 1], list[|list| - 1];
      CollectionReported(doc, target, init, c, i);
      RowsReported(target, d, doc.Rows(d), c, i);
      var before, own := CollectionsIssues(doc, target, init), RowsIssues(target, d, doc.Rows(d), |doc.Rows(d)|);
      var both := Joined(before, own, Issue(DuplicateId, IdPath(c, i)));
      both := Joined(before, own, Issue(TargetConflict, IdPath(c, i)));
      assert CollectionsIssues(doc, target, list) == both && list == init + [d];
    }
  }

  predicate AboutReferences(issues: seq<Issue>, c: Collection) {
    forall k :: 0 <= k < |issues| ==>
      issues[k].kind == MissingReference && issues[k].path.ReferencePath? && issues[k].path.c == c
  }

  lemma {:induction false} FieldReported(
    doc: Document, c: Collection, refs: seq<Reference>, index: nat, n: nat, i: nat, field: string)
    requires n <= |refs|
    ensures AboutReferences(FieldIssues(doc, c, refs, index, n), c)
    ensures Issue(MissingReference, ReferencePath(c, i, field)) in FieldIssues(doc, c, refs, index, n) <==>
            i == index && exists k :: 0 <= k < n && refs[k].field == field && !Names(doc, refs[k].target)
  {
    hide Names;
    if n > 0 {
      FieldReported(doc, c, refs, index, n - 1, i, field);
    }
  }

  lemma {:induction false} ReferenceReported(doc: Document, c: Collection, n: nat, i: nat, field: string)
    requires n <= |doc.Rows(c)|
    ensures AboutReferences(ReferenceIssues(doc, c, n), c)
    ensures Issue(MissingReference, ReferencePath(c, i, field)) in ReferenceIssues(doc, c, n) <==>
            i < n && Dangles(doc, c, i, field)
  {
    hide FieldIssues, References, Names;
    if n > 0 {
      ReferenceReported(doc, c, n - 1, i, field);
      var refs := References(c, doc.Rows(c)[n - 1]);
      FieldReported(doc, c, refs, n - 1, |refs|, i, field);
      assert (exists r :: r in refs && r.field == field && !Names(doc, r.target)) <==>
             exists k :: 0 <= k < |refs| && refs[k].field == field && !Names(doc, refs[k].target);
    }
  }

  /** The whole report of a document. */
  function ReportOf(doc: Document, target: map<Key, Row>, cycles: Cycles): seq<Issue> {
    DocumentIssues(doc, target, cycles) + SettingsIssues(doc)
  }

  predicate AboutCycles(issues: seq<Issue>) {
    forall k :: 0 <= k < |issues| ==> issues[k].kind == ReferenceCycle
  }

  /** The references of a collection are reported in one place. */
  lemma NotElsewhere(issues: seq<Issue>, other: Collection, c: Collection, i: nat, field: string)
    requires AboutReferences(issues, other) && c != other
    ensures Issue(MissingReference, ReferencePath(c, i, field)) !in issues
  {
  }

  lemma CyclesAreCycles(doc: Document, cycles: Cycles)
    requires CyclesReported(doc, cycles)
    ensures AboutCycles(cycles.jumps) && AboutCycles(CycleIssues(BookmarkGroups, cycles.bookmarkGroups))
    ensures AboutCycles(CycleIssues(QuickCommandGroups, cycles.commandGroups))
    ensures RowsOnly(cycles.jumps) && RowsOnly(CycleIssues(BookmarkGroups, cycles.bookmarkGroups))
    ensures RowsOnly(CycleIssues(QuickCommandGroups, cycles.commandGroups))
  {
  }

  /** The collections are consistent exactly if there is nothing to report about them. */
  lemma DocumentFound(doc: Document, target: map<Key, Row>, cycles: Cycles)
    requires CyclesReported(doc, cycles)
    ensures RowsOnly(DocumentIssues(doc, target, cycles))
    ensures DocumentIssues(doc, target, cycles) == [] <==> CollectionsConsistent(doc, target)
  {
    hide CollectionsIssues, ReferenceIssues, RowsAdmissible, ReferencesPresent, HasCycle, OnePerCycle, SiblingGraph;
    CollectionsFound(doc, target, COLLECTIONS);
    AllListed();
    CyclesAreCycles(doc, cycles);
    forall c: Collection
      ensures RowsOnly(AllReferenceIssues(doc, c)) && (AllReferenceIssues(doc, c) == [] <==> ReferencesPresent(doc, c))
    {
      AllReferencesFound(doc, c);
    }
    InspectedReferences(doc);
    hide AllReferenceIssues, ClosesCycle;
  }

  lemma AllReferencesFound(doc: Document, c: Collection)
    ensures RowsOnly(AllReferenceIssues(doc, c)) && (AllReferenceIssues(doc, c) == [] <==> ReferencesPresent(doc, c))
  {
    hide ReferenceIssues, ReferencesFound;
    ReferencesAllFound(doc, c, |doc.Rows(c)|);
  }

  /** Where an issue that is about rows, and not about a cycle, stands in the report. */
  lemma ReportParts(doc: Document, target: map<Key, Row>, cycles: Cycles, issue: Issue)
    requires CyclesReported(doc, cycles) && issue.kind != ReferenceCycle && !InSettings(issue)
    ensures issue in ReportOf(doc, target, cycles) <==>
            issue in CollectionsIssues(doc, target, COLLECTIONS)
            || issue in AllReferenceIssues(doc, Hosts) || issue in AllReferenceIssues(doc, BookmarkGroups)
            || issue in AllReferenceIssues(doc, Bookmarks) || issue in AllReferenceIssues(doc, TunnelProfiles)
            || issue in AllReferenceIssues(doc, QuickCommandGroups) || issue in AllReferenceIssues(doc, QuickCommands)
  {
    hide CollectionsIssues, AllReferenceIssues, SettingsIssues, CycleIssues, CyclesReported, SettingsConsistent;
    CyclesAreCycles(doc, cycles);
    SettingsFound(doc);
    var p1 := CollectionsIssues(doc, target, COLLECTIONS);
    var p2 := Joined(p1, AllReferenceIssues(doc, Hosts), issue);
    var p3 := Joined(p2, cycles.jumps, issue);
    var p4 := Joined(p3, AllReferenceIssues(doc, BookmarkGroups), issue);
    var p5 := Joined(p4, CycleIssues(BookmarkGroups, cycles.bookmarkGroups), issue);
    var p6 := Joined(p5, AllReferenceIssues(doc, Bookmarks), issue);
    var p7 := Joined(p6, AllReferenceIssues(doc, TunnelProfiles), issue);
    var p8 := Joined(p7, AllReferenceIssues(doc, QuickCommandGroups), issue);
    var p9 := Joined(p8, CycleIssues(QuickCommandGroups, cycles.commandGroups), issue);
    var p10 := Joined(p9, AllReferenceIssues(doc, QuickCommands), issue);
    var _ := Joined(p10, SettingsIssues(doc), issue);
  }

  lemma Joined(left: seq<Issue>, right: seq<Issue>, issue: Issue) returns (both: seq<Issue>)
    ensures both == left + right && (issue in both <==> issue in left || issue in right)
  {
    both := left + right;
  }

  /**
   The report names exactly the rows whose id is repeated, the rows that the target has another version of, and the
   references that lead nowhere.
   */
  lemma ReportTells(doc: Document, target: map<Key, Row>, cycles: Cycles, c: Collection, i: nat, field: string)
    requires CyclesReported(doc, cycles)
    ensures var report := ReportOf(doc, target, cycles);
            && (Issue(DuplicateId, IdPath(c, i)) in report <==> Repeats(doc.Rows(c), i))
            && (Issue(TargetConflict, IdPath(c, i)) in report <==> Differs(target, c, doc.Rows(c), i))
            && (Issue(MissingReference, ReferencePath(c, i, field)) in report <==> Dangles(doc, c, i, field))
  {
    hide ReportOf, CyclesReported, CollectionsIssues, ReferenceIssues, Repeats, Differs, Dangles;
    CollectionReported(doc, target, COLLECTIONS, c, i);
    Listed(c);
    ReportParts(doc, target, cycles, Issue(DuplicateId, IdPath(c, i)));
    ReportParts(doc, target, cycles, Issue(TargetConflict, IdPath(c, i)));
    ReportParts(doc, target, cycles, Issue(MissingReference, ReferencePath(c, i, field)));
    forall d: Collection
      ensures AboutReferences(AllReferenceIssues(doc, d), d)
      ensures Issue(MissingReference, ReferencePath(c, i, field)) in AllReferenceIssues(doc, d) <==>
              c == d && Dangles(doc, d, i, field)
    {
      DanglingReported(doc, d, c, i, field);
    }
    NothingDangles(doc, c, i, field);
  }

  lemma DanglingReported(doc: Document, d: Collection, c: Collection, i: nat, field: string)
    ensures AboutReferences(AllReferenceIssues(doc, d), d)
    ensures Issue(MissingReference, ReferencePath(c, i, field)) in AllReferenceIssues(doc, d) <==>
            c == d && Dangles(doc, d, i, field)
  {
    hide ReferenceIssues, References;
    ReferenceReported(doc, d, |doc.Rows(d)|, i, field);
    if c != d {
      NotElsewhere(AllReferenceIssues(doc, d), d, c, i, field);
    }
  }

  lemma NothingDangles(doc: Document, c: Collection, i: nat, field: string)
    ensures Dangles(doc, c, i, field) ==>
              c in {Hosts, BookmarkGroups, Bookmarks, TunnelProfiles, QuickCommandGroups, QuickCommands}
  {
  }

  lemma NoTabs(doc: Document, tabs: seq<Tab>)
    ensures TabsIssues(doc, tabs, 0) == []
  {
  }

  lemma OneMoreTab(before: seq<Issue>, doc: Document, tabs: seq<Tab>, i: nat)
    requires i < |tabs|
    ensures before + TabsIssues(doc, tabs, i + 1) == before + TabsIssues(doc, tabs, i) + TabIssues(doc, tabs, i)
  {
    hide TabIssues;
  }

  lemma TabFound(doc: Document, tabs: seq<Tab>, i: nat)
    requires i < |tabs|
    ensures SettingsOnly(TabIssues(doc, tabs, i))
    ensures TabIssues(doc, tabs, i) == [] <==> tabs[i].id !in TabIds(tabs[..i]) && TabConsistent(doc, tabs[i])
  {
    hide Present;
  }

  lemma {:induction false} TabsFound(doc: Document, tabs: seq<Tab>, n: nat)
    requires n <= |tabs|
    ensures SettingsOnly(TabsIssues(doc, tabs, n))
    ensures TabsIssues(doc, tabs, n) == [] <==> TabsConsistent(doc, tabs[..n])
  {
    hide TabIssues, TabConsistent;
    if n > 0 {
      TabsFound(doc, tabs, n - 1);
      TabFound(doc, tabs, n - 1);
      assert tabs[..n] == tabs[..n - 1] + [tabs[n - 1]];
      NextTab(doc, tabs[..n - 1], tabs[n - 1]);
      hide TabsConsistent;
    }
  }

  lemma SameTerminal(tabs: seq<Tab>, id: Option<Id>, field: string)
    ensures TerminalIssues(tabs, id, field) ==
            When(id.Some? && id.value !in TabIds(tabs), Issue(MissingReference, SettingsPath(field)))
  {
  }

  lemma OneMorePane(before: seq<Issue>, tabs: seq<Tab>, panes: seq<Option<Id>>, i: nat)
    requires i < |panes|
    ensures before + PaneIssues(tabs, panes, i + 1) ==
            before + PaneIssues(tabs, panes, i)
            + When(panes[i].Some? && panes[i].value !in TabIds(tabs),
                   Issue(MissingReference, SettingsPath("paneTerminalIds")))
  {
    SameTerminal(tabs, panes[i], "paneTerminalIds");
    hide When, TabIds, TerminalIssues;
  }

  lemma {:induction false} PanesFound(tabs: seq<Tab>, panes: seq<Option<Id>>, n: nat)
    requires n <= |panes|
    ensures SettingsOnly(PaneIssues(tabs, panes, n))
    ensures PaneIssues(tabs, panes, n) == [] <==> forall k :: 0 <= k < n ==> InTabs(tabs, panes[k])
  {
    hide InTabs;
    if n > 0 {
      PanesFound(tabs, panes, n - 1);
    }
  }

  lemma LayoutJoined(before: seq<Issue>, doc: Document, layout: Layout)
    ensures before + LayoutIssues(doc, layout) ==
            before + TabsIssues(doc, layout.tabs, |layout.tabs|)
            + TerminalIssues(layout.tabs, layout.activeTerminalId, "activeTerminalId")
            + TerminalIssues(layout.tabs, layout.secondaryTerminalId, "secondaryTerminalId")
            + PaneIssues(layout.tabs, layout.paneTerminalIds, |layout.paneTerminalIds|)
  {
    hide TabsIssues, TerminalIssues, PaneIssues;
  }

  lemma LayoutFound(doc: Document, layout: Layout)
    ensures SettingsOnly(LayoutIssues(doc, layout))
    ensures LayoutIssues(doc, layout) == [] <==> LayoutConsistent(doc, layout)
  {
    hide TabsConsistent, InTabs, TabsIssues, PaneIssues;
    var panes := layout.paneTerminalIds;
    TabsFound(doc, layout.tabs, |layout.tabs|);
    assert layout.tabs[..|layout.tabs|] == layout.tabs;
    PanesFound(layout.tabs, panes, |panes|);
    assert (forall k :: 0 <= k < |panes| ==> InTabs(layout.tabs, panes[k])) <==>
           (forall id :: id in panes ==> InTabs(layout.tabs, id));
  }

  lemma NoWorkspaces(doc: Document, workspaces: seq<Workspace>)
    ensures WorkspacesIssues(doc, workspaces, 0) == []
  {
  }

  lemma OneMoreWorkspace(before: seq<Issue>, doc: Document, workspaces: seq<Workspace>, i: nat)
    requires i < |workspaces|
    ensures var w := workspaces[i];
            before + WorkspacesIssues(doc, workspaces, i + 1) ==
            before + WorkspacesIssues(doc, workspaces, i)
            + (if w.id in WorkspaceIds(workspaces[..i])
               then [Issue(DuplicateId, SettingsPath("namedWorkspaces.id"))] else [])
            + LayoutIssues(doc, w.layout)
  {
    hide LayoutIssues, WorkspaceIds;
  }

  lemma {:induction false} WorkspacesFound(doc: Document, workspaces: seq<Workspace>, n: nat)
    requires n <= |workspaces|
    ensures SettingsOnly(WorkspacesIssues(doc, workspaces, n))
    ensures WorkspacesIssues(doc, workspaces, n) == [] <==> WorkspacesConsistent(doc, workspaces[..n])
  {
    hide LayoutIssues, LayoutConsistent, WorkspaceIds;
    if n > 0 {
      WorkspacesFound(doc, workspaces, n - 1);
      LayoutFound(doc, workspaces[n - 1].layout);
      assert workspaces[..n] == workspaces[..n - 1] + [workspaces[n - 1]];
      NextWorkspace(doc, workspaces[..n - 1], workspaces[n - 1]);
      hide WorkspacesConsistent;
    }
  }

  lemma OneMoreAddress(before: seq<Issue>, doc: Document, hosts: seq<Option<Id>>, i: nat)
    requires i < |hosts|
    ensures before + AddressIssues(doc, hosts, i + 1) ==
            before + AddressIssues(doc, hosts, i)
            + if Present(doc, Hosts, hosts[i]) then []
              else [Issue(MissingReference, SettingsPath("remoteAddressBookmarks"))]
  {
    hide Present;
  }

  lemma {:induction false} AddressesFound(doc: Document, hosts: seq<Option<Id>>, n: nat)
    requires n <= |hosts|
    ensures SettingsOnly(AddressIssues(doc, hosts, n))
    ensures AddressIssues(doc, hosts, n) == [] <==> forall k :: 0 <= k < n ==> Present(doc, Hosts, hosts[k])
  {
    hide Present;
    if n > 0 {
      AddressesFound(doc, hosts, n - 1);
    }
  }

  lemma SettingsJoined(before: seq<Issue>, doc: Document)
    ensures var s := doc.settings;
            var active := s.activeWorkspaceId;
            before + SettingsIssues(doc) ==
            before
            + (if Present(doc, TerminalProfiles, s.defaultProfileId) then []
               else [Issue(MissingReference, SettingsPath("defaultProfileId"))])
            + AddressIssues(doc, s.addressHosts, |s.addressHosts|)
            + WorkspacesIssues(doc, s.namedWorkspaces, |s.namedWorkspaces|)
            + (if active.Some? && active.value !in WorkspaceIds(s.namedWorkspaces)
               then [Issue(MissingReference, SettingsPath("activeWorkspaceId"))] else [])
            + (if s.layout.Some? then LayoutIssues(doc, s.layout.value) else [])
  {
    hide Present, AddressIssues, WorkspacesIssues, LayoutIssues, WorkspaceIds;
  }

  lemma SettingsFound(doc: Document)
    ensures SettingsOnly(SettingsIssues(doc))
    ensures SettingsIssues(doc) == [] <==> SettingsConsistent(doc)
  {
    hide Present, AddressIssues, WorkspacesIssues, LayoutIssues, LayoutConsistent, WorkspacesConsistent;
    var s := doc.settings;
    AddressesFound(doc, s.addressHosts, |s.addressHosts|);
    assert (forall k :: 0 <= k < |s.addressHosts| ==> Present(doc, Hosts, s.addressHosts[k])) <==>
           (forall id :: id in s.addressHosts ==> Present(doc, Hosts, id));
    WorkspacesFound(doc, s.namedWorkspaces, |s.namedWorkspaces|);
    assert s.namedWorkspaces[..|s.namedWorkspaces|] == s.namedWorkspaces;
    if s.layout.Some? {
      LayoutFound(doc, s.layout.value);
    }
  }

  /** An edge back into a path closes a cycle. */
  lemma BackEdgeCloses(g: Graph, path: seq<Id>, b: Id, issue: Issue)
    requires path != [] && IsPath(g, path) && b in path && IsEdge(g, path[|path| - 1], b)
    requires issue.kind == ReferenceCycle
    requires var a := path[|path| - 1];
             (issue.path.JumpPath? && issue.path.host == a && issue.path.edge < |g[a]| && g[a][issue.path.edge] == b)
             || (issue.path.ParentPath? && issue.path.group == a && g[a] != [] && g[a][0] == b)
    ensures ClosesCycle(g, issue)
  {
    var k :| 0 <= k < |path| && path[k] == b;
    var back := path[k..];
    forall i | 0 <= i < |back| - 1 ensures StepAt(g, back, i) {
      assert StepAt(g, path, k + i);
    }
    assert back != [] && IsPath(g, back) && back[0] == b && back[|back| - 1] == path[|path| - 1];
  }

  /** The collections whose references are not inspected have none. */
  lemma InspectedReferences(doc: Document)
    ensures (forall c :: ReferencesPresent(doc, c)) <==>
            && ReferencesPresent(doc, Hosts) && ReferencesPresent(doc, BookmarkGroups)
            && ReferencesPresent(doc, Bookmarks) && ReferencesPresent(doc, TunnelProfiles)
            && ReferencesPresent(doc, QuickCommandGroups) && ReferencesPresent(doc, QuickCommands)
  {
    forall c: Collection |
      c !in {Hosts, BookmarkGroups, Bookmarks, TunnelProfiles, QuickCommandGroups, QuickCommands}
      ensures ReferencesPresent(doc, c)
    {
      forall row | row in doc.Rows(c) ensures ReferencesFound(doc, c, row) {
        assert References(c, row) == [];
      }
    }
  }

  // ----- facts about the settings -----

  lemma NextTab(doc: Document, tabs: seq<Tab>, tab: Tab)
    ensures TabIds(tabs + [tab]) == TabIds(tabs) + {tab.id}
    ensures TabsConsistent(doc, tabs + [tab]) <==>
            TabsConsistent(doc, tabs) && tab.id !in TabIds(tabs) && TabConsistent(doc, tab)
  {
    var longer := tabs + [tab];
    if TabsConsistent(doc, longer) {
      assert forall i :: 0 <= i < |tabs| ==> longer[i] == tabs[i];
      assert forall t :: t in tabs ==> t in longer;
      forall t | t in tabs ensures t.id != tab.id {
        var i :| 0 <= i < |tabs| && tabs[i] == t;
        assert longer[i].id != longer[|tabs|].id;
      }
      assert longer[|tabs|] in longer;
    }
  }

  function WorkspaceIds(workspaces: seq<Workspace>): set<Id> {
    set w | w in workspaces :: w.id
  }

  lemma NextWorkspace(doc: Document, before: seq<Workspace>, w: Workspace)
    ensures WorkspaceIds(before + [w]) == WorkspaceIds(before) + {w.id}
    ensures WorkspacesConsistent(doc, before + [w]) <==>
            WorkspacesConsistent(doc, before) && w.id !in WorkspaceIds(before) && LayoutConsistent(doc, w.layout)
  {
    hide LayoutConsistent;
    var longer := before + [w];
    if WorkspacesConsistent(doc, longer) {
      assert forall i :: 0 <= i < |before| ==> longer[i] == before[i];
      assert forall v :: v in before ==> v in longer;
      forall v | v in before ensures v.id != w.id {
        var i :| 0 <= i < |before| && before[i] == v;
        assert longer[i].id != longer[|before|].id;
      }
      assert longer[|before|] in longer;
    }
  }

  // ----- the retained issues -----

  /** An issue that forbids the import. */
  predicate Blocks(issue: Issue, applySettings: bool) {
    applySettings || !InSettings(issue)
  }

  /**
   Looking at the retained issues only is enough: the settings come last, so a blocking issue that was
   dropped has a blocking issue retained before it.
   */
  lemma RetainedDecide(inspector: Inspector, m: nat, applySettings: bool)
    requires inspector.Report(m)
    ensures (exists issue :: issue in inspector.issues && Blocks(issue, applySettings)) <==>
            !(CollectionsConsistent(inspector.source, inspector.target)
              && (applySettings ==> SettingsConsistent(inspector.source)))
  {
    var all := inspector.all;
    var issues := inspector.issues;
    assert forall k :: 0 <= k < |issues| ==> issues[k] == all[k];
    if all != [] {
      assert issues[0] == all[0] && issues[0] in issues;
    }
    if exists issue :: issue in issues && Blocks(issue, applySettings) {
      var issue :| issue in issues && Blocks(issue, applySettings);
      var k :| 0 <= k < |issues| && issues[k] == issue;
      assert InSettings(all[k]) <==> m <= k;
    }
  }

  // ----- facts about the group search -----

  /** The issues of a group search. */
  function CycleIssues(c: Collection, reported: seq<Id>): seq<Issue> {
    seq(|reported|, i requires 0 <= i < |reported| => Issue(ReferenceCycle, ParentPath(c, reported[i])))
  }

  predicate ParentsOnly(g: Graph) {
    forall a :: a in g ==> |g[a]| <= 1
  }

  lemma {:induction false} GroupsHaveOneParent(c: Collection, rows: seq<Row>)
    requires c == BookmarkGroups || c == QuickCommandGroups
    ensures ParentsOnly(LastSiblings(c, rows))
  {
    if rows != [] {
      GroupsHaveOneParent(c, rows[..|rows| - 1]);
    }
  }

  /** The only group reported, if any, is on a cycle that every new group on a cycle shares. */
  ghost predicate HitIn(next: map<Id, Id>, added: set<Id>, hit: Option<Id>) {
    && (hit.Some? ==> hit.value in added && Leads(next, hit.value, hit.value))
    && (forall x: Id :: x in added && Leads(next, x, x) ==> hit.Some? && SameCycle(next, x, hit.value))
  }

  lemma PathIsWalk(g: Graph, path: seq<Id>)
    requires ParentsOnly(g) && IsPath(g, path)
    ensures IsWalk(Parents(g), path)
  {
    forall i | 0 <= i < |path| - 1 ensures path[i] in Parents(g) && Parents(g)[path[i]] == path[i + 1] {
      assert StepAt(g, path, i);
    }
  }

  /** A group whose parent is on its own path is on a cycle. */
  lemma BackToParent(g: Graph, path: seq<Id>)
    requires ParentsOnly(g) && path != [] && IsPath(g, path) && forall a :: a in path ==> a in g
    requires g[path[|path| - 1]] != [] && g[path[|path| - 1]][0] in path
    ensures Leads(Parents(g), path[|path| - 1], path[|path| - 1])
  {
    var next := Parents(g);
    var id := path[|path| - 1];
    var k :| 0 <= k < |path| && path[k] == g[id][0];
    PathIsWalk(g, path);
    var round := [id] + path[k..];
    forall i | 0 <= i < |round| - 1 ensures round[i] in next && next[round[i]] == round[i + 1] {
      assert i > 0 ==> path[k + i - 1] in next && next[path[k + i - 1]] == path[k + i - 1 + 1];
    }
    assert |round| >= 2 && IsWalk(next, round) && round[0] == id && round[|round| - 1] == id;
  }

  lemma NothingVisited(g: Graph)
    ensures Ranked(g, []) && OnePerCycleIn(Parents(g), {}, []) && HitIn(Parents(g), {}, None)
  {
  }

  /** A group visited alone: it has no parent among the groups, or was found to be on a cycle. */
  lemma LoneGroup(g: Graph, id: Id)
    ensures id !in Parents(g) ==> HitIn(Parents(g), {id}, None)
    ensures Leads(Parents(g), id, id) ==> HitIn(Parents(g), {id}, Some(id))
  {
    if Leads(Parents(g), id, id) {
      CycleOfSuccessor(Parents(g), id, id);
    }
  }

  /** A child on a cycle shares it with its parent, which the visit has just finished. */
  lemma HitThroughParent(g: Graph, before: set<Id>, after: set<Id>, id: Id, hit: Option<Id>)
    requires id in g && g[id] != [] && g[id][0] in g && id !in before && id !in after
    requires before <= after && g[id][0] in after
    requires forall a :: a in before && a in Parents(g) ==> Parents(g)[a] in before
    requires HitIn(Parents(g), after - before, hit)
    ensures HitIn(Parents(g), after + {id} - before, hit)
  {
    hide Leads;
    var next := Parents(g);
    var r := if hit.Some? then hit.value else id;
    forall x: Id | x in after + {id} - before && Leads(next, x, x)
      ensures hit.Some? && SameCycle(next, x, hit.value)
    {
      if x == id {
        CycleOfSuccessor(next, id, r);
        if next[id] in before {
          LeadsInside(next, before, next[id], id);
        }
        assert next[id] in after - before;
      }
    }
  }

  /** OnePerCycle for the groups finished so far. */
  ghost predicate OnePerCycleIn(next: map<Id, Id>, seen: set<Id>, reported: seq<Id>) {
    && (forall r: Id :: r in reported ==> r in seen && Leads(next, r, r))
    && (forall i, j :: 0 <= i < j < |reported| ==> !SameCycle(next, reported[i], reported[j]))
    && (forall x: Id :: x in seen && Leads(next, x, x) ==> exists r: Id :: r in reported && SameCycle(next, x, r))
  }

  lemma ReportHit(next: map<Id, Id>, seen: set<Id>, after: set<Id>, reported: seq<Id>, hit: Option<Id>)
    requires OnePerCycleIn(next, seen, reported) && seen <= after
    requires forall a :: a in seen && a in next ==> next[a] in seen
    requires HitIn(next, after - seen, hit)
    ensures OnePerCycleIn(next, after, if hit.Some? then reported + [hit.value] else reported)
  {
    hide Leads;
    HitIsNew(next, seen, after, reported, hit);
    HitCovers(next, seen, after, reported, hit);
  }

  lemma HitIsNew(next: map<Id, Id>, seen: set<Id>, after: set<Id>, reported: seq<Id>, hit: Option<Id>)
    requires OnePerCycleIn(next, seen, reported)
    requires forall a :: a in seen && a in next ==> next[a] in seen
    requires HitIn(next, after - seen, hit)
    ensures hit.Some? ==> forall r: Id :: r in reported ==> !SameCycle(next, r, hit.value)
  {
    hide Leads;
    if hit.Some? {
      forall r: Id | r in reported ensures !SameCycle(next, r, hit.value) {
        if SameCycle(next, r, hit.value) {
          LeadsInside(next, seen, r, hit.value);
        }
      }
    }
  }

  lemma HitCovers(next: map<Id, Id>, seen: set<Id>, after: set<Id>, reported: seq<Id>, hit: Option<Id>)
    requires OnePerCycleIn(next, seen, reported) && seen <= after && HitIn(next, after - seen, hit)
    ensures var longer := if hit.Some? then reported + [hit.value] else reported;
            forall x: Id :: x in after && Leads(next, x, x) ==> exists r: Id :: r in longer && SameCycle(next, x, r)
  {
    hide Leads;
    var longer := if hit.Some? then reported + [hit.value] else reported;
    forall x: Id | x in after && Leads(next, x, x) ensures exists r: Id :: r in longer && SameCycle(next, x, r) {
      if x in seen {
        var r: Id :| r in reported && SameCycle(next, x, r);
        assert r in longer;
      } else {
        assert hit.value in longer;
      }
    }
  }

  lemma CyclesAreVisited(g: Graph, visited: set<Id>, reported: seq<Id>)
    requires forall a :: a in g ==> a in visited
    requires OnePerCycleIn(Parents(g), visited, reported)
    ensures OnePerCycle(Parents(g), reported)
  {
    hide Leads;
    forall x: Id | Leads(Parents(g), x, x) ensures x in visited {
      CycleOfSuccessor(Parents(g), x, x);
    }
  }

  lemma AllListed()
    ensures forall c: Collection :: c in COLLECTIONS
  {
    forall c: Collection ensures c in COLLECTIONS {
      Listed(c);
    }
  }

  lemma Listed(c: Collection)
    ensures c in COLLECTIONS
  {
    var k := match c
      case HostGroups => 0 case Hosts => 1 case BookmarkGroups => 2 case Bookmarks => 3
      case ConnectionProfiles => 4 case TerminalProfiles => 5 case TunnelProfiles => 6
      case QuickCommandGroups => 7 case QuickCommands => 8 case TerminalThemes => 9 case Triggers => 10;
    assert COLLECTIONS[k] == c;
  }
}
