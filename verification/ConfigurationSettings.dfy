/** What an import leaves in the stored settings: none of their references is broken. */
module ConfigurationSettings {
  import opened Common
  import opened ReferenceGraph
  import opened ConfigurationDocument
  import opened ConfigurationInspection
  import opened ConfigurationPreview
  import opened ConfigurationRun
  import opened ConfigurationImport

  predicate IsSaved(rows: map<Key, Row>, c: Collection, id: Option<Id>) {
    id.Some? ==> Key(c, id.value) in rows
  }

  predicate IsTab(tabs: seq<Tab>, id: Option<Id>) {
    id.Some? ==> exists i :: 0 <= i < |tabs| && tabs[i].id == id.value
  }

  /** Tabs open saved rows under ids of their own, and what is shown is one of them. */
  predicate LayoutSound(rows: map<Key, Row>, layout: Layout) {
    && (forall i, j :: 0 <= i < j < |layout.tabs| ==> layout.tabs[i].id != layout.tabs[j].id)
    && (forall i :: 0 <= i < |layout.tabs| ==>
          && IsSaved(rows, Hosts, layout.tabs[i].hostId) && IsSaved(rows, Bookmarks, layout.tabs[i].bookmarkId)
          && IsSaved(rows, TerminalProfiles, layout.tabs[i].profileId))
    && IsTab(layout.tabs, layout.activeTerminalId) && IsTab(layout.tabs, layout.secondaryTerminalId)
    && (forall i :: 0 <= i < |layout.paneTerminalIds| ==> IsTab(layout.tabs, layout.paneTerminalIds[i]))
  }

  predicate WorkspaceNamed(workspaces: seq<Workspace>, id: Option<Id>) {
    id.Some? ==> exists i :: 0 <= i < |workspaces| && workspaces[i].id == id.value
  }

  /** The settings refer to saved rows, and to tabs and workspaces of their own. */
  predicate SettingsSound(rows: map<Key, Row>, s: Settings) {
    && IsSaved(rows, TerminalProfiles, s.defaultProfileId)
    && (forall i :: 0 <= i < |s.addressHosts| ==> IsSaved(rows, Hosts, s.addressHosts[i]))
    && (forall i, j :: 0 <= i < j < |s.namedWorkspaces| ==> s.namedWorkspaces[i].id != s.namedWorkspaces[j].id)
    && (forall i :: 0 <= i < |s.namedWorkspaces| ==> LayoutSound(rows, s.namedWorkspaces[i].layout))
    && WorkspaceNamed(s.namedWorkspaces, s.activeWorkspaceId)
    && (s.layout.Some? ==> LayoutSound(rows, s.layout.value))
  }

  lemma LeadsToSaved(targets: map<Key, Id>, rows: map<Key, Row>, c: Collection, was: Option<Id>, now: Option<Id>)
    requires TargetsSaved(targets, rows) && Leads(targets, c, was, now)
    ensures IsSaved(rows, c, now)
  {
  }

  lemma SameTab(tabs: seq<Tab>, now: seq<Tab>, id: Option<Id>)
    requires InTabs(tabs, id) && |now| == |tabs| && forall i :: 0 <= i < |tabs| ==> now[i].id == tabs[i].id
    ensures IsTab(now, id)
  {
    if id.Some? {
      var tab :| tab in tabs && tab.id == id.value;
      var i :| 0 <= i < |tabs| && tabs[i] == tab;
      assert now[i].id == id.value;
    }
  }

  lemma LayoutStaysSound(
    doc: Document, targets: map<Key, Id>, rows: map<Key, Row>, current: Id, was: Layout, now: Layout)
    requires LayoutConsistent(doc, was) && TargetsSaved(targets, rows)
    requires LayoutTells(targets, rows, current, was, now)
    ensures LayoutSound(rows, now)
  {
    hide TargetsSaved, IsSaved, Leads, InTabs, IsTab;
    forall i | 0 <= i < |now.tabs|
      ensures IsSaved(rows, Hosts, now.tabs[i].hostId) && IsSaved(rows, Bookmarks, now.tabs[i].bookmarkId)
      ensures IsSaved(rows, TerminalProfiles, now.tabs[i].profileId) && now.tabs[i].id == was.tabs[i].id
    {
      assert TabTells(targets, rows, current, was.tabs[i], now.tabs[i]);
      LeadsToSaved(targets, rows, Hosts, was.tabs[i].hostId, now.tabs[i].hostId);
      LeadsToSaved(targets, rows, Bookmarks, was.tabs[i].bookmarkId, now.tabs[i].bookmarkId);
      LeadsToSaved(targets, rows, TerminalProfiles, was.tabs[i].profileId, now.tabs[i].profileId);
    }
    SameTab(was.tabs, now.tabs, was.activeTerminalId);
    SameTab(was.tabs, now.tabs, was.secondaryTerminalId);
    forall i | 0 <= i < |now.paneTerminalIds| ensures IsTab(now.tabs, now.paneTerminalIds[i]) {
      assert was.paneTerminalIds[i] in was.paneTerminalIds;
      SameTab(was.tabs, now.tabs, was.paneTerminalIds[i]);
    }
  }

  /** Settings of a consistent document are sound once their references lead to saved targets. */
  lemma SettingsStaySound(doc: Document, targets: map<Key, Id>, rows: map<Key, Row>, current: Id, now: Settings)
    requires SettingsConsistent(doc) && TargetsSaved(targets, rows)
    requires SettingsTell(doc, targets, rows, current, now)
    ensures SettingsSound(rows, now)
  {
    hide TargetsSaved, IsSaved, Leads, LayoutConsistent, LayoutTells, LayoutSound, StartupTells, ThemeTells, Present;
    var was := doc.settings;
    LeadsToSaved(targets, rows, TerminalProfiles, was.defaultProfileId, now.defaultProfileId);
    forall i | 0 <= i < |now.addressHosts| ensures IsSaved(rows, Hosts, now.addressHosts[i]) {
      LeadsToSaved(targets, rows, Hosts, was.addressHosts[i], now.addressHosts[i]);
    }
    forall i | 0 <= i < |now.namedWorkspaces| ensures LayoutSound(rows, now.namedWorkspaces[i].layout) {
      assert was.namedWorkspaces[i] in was.namedWorkspaces;
      LayoutStaysSound(
        doc, targets, rows, current, was.namedWorkspaces[i].layout, now.namedWorkspaces[i].layout);
    }
    if was.layout.Some? {
      LayoutStaysSound(doc, targets, rows, current, was.layout.value, now.layout.value);
    }
    if was.activeWorkspaceId.Some? {
      var w :| w in was.namedWorkspaces && w.id == was.activeWorkspaceId.value;
      var i :| 0 <= i < |was.namedWorkspaces| && was.namedWorkspaces[i] == w;
      assert now.namedWorkspaces[i].id == was.activeWorkspaceId.value;
    }
  }

  lemma MoreRowsSound(rows: map<Key, Row>, more: map<Key, Row>, s: Settings)
    requires SettingsSound(rows, s) && forall key :: key in rows ==> key in more
    ensures SettingsSound(more, s)
  {
    forall i | 0 <= i < |s.namedWorkspaces| ensures LayoutSound(more, s.namedWorkspaces[i].layout) {
      assert LayoutSound(rows, s.namedWorkspaces[i].layout);
    }
  }

  lemma {:induction false} RunExtends(start: State, log: seq<Item>, n: nat)
    requires n <= |log|
    ensures forall key :: key in Run(start, log[..n]).rows ==> key in Run(start, log).rows
  {
    if n < |log| {
      RunExtends(start, log[..|log| - 1], n);
      assert log[..|log| - 1][..n] == log[..n];
    } else {
      assert log[..n] == log;
    }
  }

  lemma PrefixUnderway(p: Preview, start: State, end: State, log: seq<Item>, n: nat)
    requires Committable(p) && Fresh(start) && start.rows == p.target && Imported(p, start, end, log) && n <= |log|
    ensures Underway(p, start, Run(start, log[..n]), log[..n])
  {
    hide Committable, Run, ShouldCreate, Items, Fresh, References;
    forall k | 0 <= k < n ensures CreatedInTurn(p.targets.Keys, log[..n], k) {
      assert CreatedInTurn(p.targets.Keys, log, k) && log[..n][..k] == log[..k];
    }
    forall item | item in log[..n] ensures item in Items(p.document) && ShouldCreate(p, item) {
      assert item in log;
    }
  }

  /** After an import that applies the settings, none of them refers to a row that is not there. */
  lemma ImportedSettingsSound(
    p: Preview, start: State, end: State, log: seq<Item>, n: nat, current: Settings, now: Settings)
    requires Committable(p) && p.applySettings && Fresh(start) && start.rows == p.target
    requires Imported(p, start, end, log) && n <= |log|
    requires SettingsApplied(p, Run(start, log[..n]), current, now)
    ensures SettingsSound(end.rows, now)
  {
    var s := Run(start, log[..n]);
    assert SettingsConsistent(p.document);
    hide SettingsConsistent, SettingsTell, SettingsSound, Committable, Run, Underway, TargetsSaved;
    PrefixUnderway(p, start, end, log, n);
    TargetsSavedSoFar(p, start, s, log[..n]);
    SettingsStaySound(p.document, s.targets, s.rows, current.themeId, now);
    RunExtends(start, log, n);
    MoreRowsSound(s.rows, end.rows, now);
  }
}
