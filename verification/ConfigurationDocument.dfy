/**
 An exported configuration: rows in eleven collections and the portable settings. Ids are numbers, an
 absent or empty reference is None, and a fingerprint is the row itself (hashes are taken to be free
 of collisions). Names are trimmed, and the shortcut of a command is in lower case; what else a row holds
 is its content.
 */
module ConfigurationDocument {
  import opened Common
  import opened ReferenceGraph

  datatype Collection =
    | HostGroups | Hosts | BookmarkGroups | Bookmarks | ConnectionProfiles | TerminalProfiles
    | TunnelProfiles | QuickCommandGroups | QuickCommands | TerminalThemes | Triggers

  const COLLECTIONS: seq<Collection> := [
    HostGroups, Hosts, BookmarkGroups, Bookmarks, ConnectionProfiles, TerminalProfiles,
    TunnelProfiles, QuickCommandGroups, QuickCommands, TerminalThemes, Triggers]

  datatype Row =
    | Plain(id: Id, name: string, content: string)
    | Host(
        id: Id, name: string, groupId: Option<Id>, jumpHostId: Option<Id>, jumpHostIds: seq<Id>,
        content: string)
    | Group(id: Id, parentId: Option<Id>, position: int, content: string)
    | Bookmark(
        id: Id, groupId: Option<Id>, hostId: Option<Id>, profileId: Option<Id>, connectionProfileId: Option<Id>,
        rdpJump: Option<Id>, vncJump: Option<Id>, spiceJump: Option<Id>, position: int, content: string)
    | Tunnel(id: Id, hostId: Option<Id>, content: string)
    | Command(id: Id, groupId: Option<Id>, shortcut: Option<string>, position: int, content: string)

  datatype Tab = Tab(id: Id, hostId: Option<Id>, bookmarkId: Option<Id>, profileId: Option<Id>, themeId: Option<Id>)

  datatype Layout = Layout(
    tabs: seq<Tab>, activeTerminalId: Option<Id>, secondaryTerminalId: Option<Id>, paneTerminalIds: seq<Option<Id>>)

  datatype Workspace = Workspace(id: Id, layout: Layout)

  datatype Settings = Settings(
    defaultProfileId: Option<Id>, addressHosts: seq<Option<Id>>, namedWorkspaces: seq<Workspace>,
    activeWorkspaceId: Option<Id>, layout: Option<Layout>, startupSessions: seq<Id>, themeId: Id)

  datatype Document = Document(collections: map<Collection, seq<Row>>, settings: Settings) {
    function Rows(c: Collection): seq<Row> {
      if c in collections then collections[c] else []
    }
  }

  datatype Key = Key(collection: Collection, id: Id)

  /** A reference field of a row: which one it is, and the row it names. */
  datatype Reference = Reference(field: string, target: Key)

  function Optional(field: string, c: Collection, id: Option<Id>): seq<Reference> {
    if id.None? then [] else [Reference(field, Key(c, id.value))]
  }

  function JumpReferences(ids: seq<Id>): seq<Reference> {
    seq(|ids|, i requires 0 <= i < |ids| => Reference("jumpHostIds", Key(Hosts, ids[i])))
  }

  /** The references a row of collection c holds, in the order they are inspected. */
  function References(c: Collection, row: Row): seq<Reference> {
    match (c, row)
    case (Hosts, Host(_, _, groupId, jumpHostId, jumpHostIds, _)) =>
      Optional("groupId", HostGroups, groupId) + Optional("jumpHostId", Hosts, jumpHostId)
      + JumpReferences(jumpHostIds)
    case (BookmarkGroups, Group(_, parentId, _, _)) => Optional("parentId", BookmarkGroups, parentId)
    case (Bookmarks, Bookmark(_, groupId, hostId, profileId, connectionProfileId, rdp, vnc, spice, _, _)) =>
      Optional("groupId", BookmarkGroups, groupId) + Optional("hostId", Hosts, hostId)
      + Optional("profileId", TerminalProfiles, profileId)
      + Optional("connectionProfileId", ConnectionProfiles, connectionProfileId)
      + Optional("rdp.jumpHostId", Hosts, rdp) + Optional("vnc.jumpHostId", Hosts, vnc)
      + Optional("spice.jumpHostId", Hosts, spice)
    case (TunnelProfiles, Tunnel(_, hostId, _)) => Optional("hostId", Hosts, hostId)
    case (QuickCommandGroups, Group(_, parentId, _, _)) => Optional("parentId", QuickCommandGroups, parentId)
    case (QuickCommands, Command(_, groupId, _, _, _)) => Optional("groupId", QuickCommandGroups, groupId)
    case _ => []
  }

  /** The rows of its own collection that a row names: jump hosts, or the parent group. */
  function Siblings(c: Collection, row: Row): seq<Id> {
    match (c, row)
    case (Hosts, Host(_, _, _, jumpHostId, jumpHostIds, _)) =>
      (if jumpHostId.Some? then [jumpHostId.value] else []) + jumpHostIds
    case (BookmarkGroups, Group(_, parentId, _, _)) => if parentId.Some? then [parentId.value] else []
    case (QuickCommandGroups, Group(_, parentId, _, _)) => if parentId.Some? then [parentId.value] else []
    case _ => []
  }

  /** Siblings are exactly the references into the row's own collection. */
  lemma SiblingsAreReferences(c: Collection, row: Row, id: Id)
    ensures id in Siblings(c, row) <==> exists r :: r in References(c, row) && r.target == Key(c, id)
  {
    if c == Hosts && row.Host? {
      HostSiblings(row, id);
    } else if (c == BookmarkGroups || c == QuickCommandGroups) && row.Group? && row.parentId.Some? {
      assert References(c, row)[0] == Reference("parentId", Key(c, row.parentId.value));
    } else {
      assert Siblings(c, row) == [];
    }
  }

  lemma HostSiblings(row: Row, id: Id)
    requires row.Host?
    ensures id in Siblings(Hosts, row) <==> exists r :: r in References(Hosts, row) && r.target == Key(Hosts, id)
  {
    var group := Optional("groupId", HostGroups, row.groupId);
    var jump := Optional("jumpHostId", Hosts, row.jumpHostId);
    var jumps := JumpReferences(row.jumpHostIds);
    assert row.jumpHostId == Some(id) ==> jump[0].target == Key(Hosts, id);
    assert (exists r :: r in jump && r.target == Key(Hosts, id)) <==> row.jumpHostId == Some(id);
    assert !(exists r :: r in group && r.target == Key(Hosts, id));
    hide Optional, JumpReferences;
    assert References(Hosts, row) == group + jump + jumps;
    JumpReferencesOf(row.jumpHostIds, id);
  }

  lemma JumpReferencesOf(ids: seq<Id>, id: Id)
    ensures id in ids <==> exists r :: r in JumpReferences(ids) && r.target == Key(Hosts, id)
  {
    if id in ids {
      var i :| 0 <= i < |ids| && ids[i] == id;
      assert JumpReferences(ids)[i].target == Key(Hosts, id);
    }
  }

  function Ids(rows: seq<Row>): set<Id> {
    set r | r in rows :: r.id
  }

  predicate UniqueIds(rows: seq<Row>) {
    forall i, j :: 0 <= i < j < |rows| ==> rows[i].id != rows[j].id
  }

  predicate Names(doc: Document, key: Key) {
    key.id in Ids(doc.Rows(key.collection))
  }

  predicate ReferencesFound(doc: Document, c: Collection, row: Row) {
    forall r :: r in References(c, row) ==> Names(doc, r.target)
  }

  predicate ReferencesPresent(doc: Document, c: Collection) {
    forall row :: row in doc.Rows(c) ==> ReferencesFound(doc, c, row)
  }

  /** Row i does not repeat an earlier id and does not differ from the target row of its id. */
  predicate RowAdmissible(target: map<Key, Row>, c: Collection, rows: seq<Row>, i: nat)
    requires i < |rows|
  {
    && rows[i].id !in Ids(rows[..i])
    && (Key(c, rows[i].id) in target ==> target[Key(c, rows[i].id)] == rows[i])
  }

  predicate RowsAdmissible(doc: Document, target: map<Key, Row>, c: Collection) {
    forall i :: 0 <= i < |doc.Rows(c)| ==> RowAdmissible(target, c, doc.Rows(c), i)
  }

  lemma AdmissibleRows(doc: Document, target: map<Key, Row>, c: Collection)
    requires RowsAdmissible(doc, target, c)
    ensures UniqueIds(doc.Rows(c))
    ensures forall row :: row in doc.Rows(c) && Key(c, row.id) in target ==> target[Key(c, row.id)] == row
  {
    var rows := doc.Rows(c);
    forall i, j | 0 <= i < j < |rows| ensures rows[i].id != rows[j].id {
      assert RowAdmissible(target, c, rows, j);
      assert rows[i] in rows[..j];
    }
    forall row | row in rows && Key(c, row.id) in target ensures target[Key(c, row.id)] == row {
      var i :| 0 <= i < |rows| && rows[i] == row;
      assert RowAdmissible(target, c, rows, i);
    }
  }

  /** The first row of each id with its siblings: the graph of the host search. */
  function FirstSiblings(c: Collection, rows: seq<Row>): Graph {
    if rows == [] then map[] else
      var g := FirstSiblings(c, rows[..|rows| - 1]);
      var row := rows[|rows| - 1];
      if row.id in g then g else g[row.id := Siblings(c, row)]
  }

  /** The last row of each id with its siblings: the graph of the group search. */
  function LastSiblings(c: Collection, rows: seq<Row>): Graph {
    if rows == [] then map[] else
      LastSiblings(c, rows[..|rows| - 1])[rows[|rows| - 1].id := Siblings(c, rows[|rows| - 1])]
  }

  function SiblingGraph(doc: Document, c: Collection): Graph {
    if c == Hosts then FirstSiblings(c, doc.Rows(c)) else LastSiblings(c, doc.Rows(c))
  }

  lemma {:induction false} SiblingsKeys(c: Collection, rows: seq<Row>)
    ensures FirstSiblings(c, rows).Keys == LastSiblings(c, rows).Keys == Ids(rows)
  {
    if rows != [] {
      SiblingsKeys(c, rows[..|rows| - 1]);
      assert Ids(rows) == Ids(rows[..|rows| - 1]) + {rows[|rows| - 1].id};
    }
  }

  lemma {:induction false} FirstSiblingsOf(c: Collection, rows: seq<Row>, i: nat)
    requires UniqueIds(rows) && i < |rows|
    ensures rows[i].id in FirstSiblings(c, rows) && FirstSiblings(c, rows)[rows[i].id] == Siblings(c, rows[i])
  {
    hide Siblings;
    var init := rows[..|rows| - 1];
    if i < |init| {
      FirstSiblingsOf(c, init, i);
    } else {
      SiblingsKeys(c, init);
      assert rows[i].id !in Ids(init);
    }
  }

  lemma {:induction false} LastSiblingsOf(c: Collection, rows: seq<Row>, i: nat)
    requires UniqueIds(rows) && i < |rows|
    ensures rows[i].id in LastSiblings(c, rows) && LastSiblings(c, rows)[rows[i].id] == Siblings(c, rows[i])
  {
    hide Siblings;
    if i < |rows| - 1 {
      LastSiblingsOf(c, rows[..|rows| - 1], i);
    }
  }

  lemma SiblingsOf(doc: Document, c: Collection, row: Row)
    requires UniqueIds(doc.Rows(c)) && row in doc.Rows(c)
    ensures row.id in SiblingGraph(doc, c) && SiblingGraph(doc, c)[row.id] == Siblings(c, row)
  {
    hide Siblings, FirstSiblings, LastSiblings;
    var i :| 0 <= i < |doc.Rows(c)| && doc.Rows(c)[i] == row;
    FirstSiblingsOf(c, doc.Rows(c), i);
    LastSiblingsOf(c, doc.Rows(c), i);
  }

  /** The eleven collections agree with themselves and with the target. */
  ghost predicate CollectionsConsistent(doc: Document, target: map<Key, Row>) {
    && (forall c :: RowsAdmissible(doc, target, c)) && (forall c :: ReferencesPresent(doc, c))
    && !HasCycle(SiblingGraph(doc, Hosts))
    && !HasCycle(SiblingGraph(doc, BookmarkGroups))
    && !HasCycle(SiblingGraph(doc, QuickCommandGroups))
  }

  predicate Present(doc: Document, c: Collection, id: Option<Id>) {
    id.Some? ==> Names(doc, Key(c, id.value))
  }

  predicate TabConsistent(doc: Document, tab: Tab) {
    Present(doc, Hosts, tab.hostId) && Present(doc, Bookmarks, tab.bookmarkId)
    && Present(doc, TerminalProfiles, tab.profileId)
  }

  function TabIds(tabs: seq<Tab>): set<Id> {
    set tab | tab in tabs :: tab.id
  }

  predicate TabsConsistent(doc: Document, tabs: seq<Tab>) {
    && (forall i, j :: 0 <= i < j < |tabs| ==> tabs[i].id != tabs[j].id)
    && (forall tab :: tab in tabs ==> TabConsistent(doc, tab))
  }

  predicate InTabs(tabs: seq<Tab>, id: Option<Id>) {
    id.Some? ==> id.value in TabIds(tabs)
  }

  predicate LayoutConsistent(doc: Document, layout: Layout) {
    && TabsConsistent(doc, layout.tabs)
    && InTabs(layout.tabs, layout.activeTerminalId) && InTabs(layout.tabs, layout.secondaryTerminalId)
    && (forall id :: id in layout.paneTerminalIds ==> InTabs(layout.tabs, id))
  }

  predicate WorkspacesConsistent(doc: Document, workspaces: seq<Workspace>) {
    && (forall i, j :: 0 <= i < j < |workspaces| ==> workspaces[i].id != workspaces[j].id)
    && (forall w :: w in workspaces ==> LayoutConsistent(doc, w.layout))
  }

  predicate SettingsConsistent(doc: Document) {
    var s := doc.settings;
    && Present(doc, TerminalProfiles, s.defaultProfileId)
    && (forall id :: id in s.addressHosts ==> Present(doc, Hosts, id))
    && WorkspacesConsistent(doc, s.namedWorkspaces)
    && (s.activeWorkspaceId.Some? ==> exists w :: w in s.namedWorkspaces && w.id == s.activeWorkspaceId.value)
    && (s.layout.Some? ==> LayoutConsistent(doc, s.layout.value))
  }

  // ----- order by position -----

  function PositionOf(row: Row): int {
    match row
    case Group(_, _, position, _) => position
    case Bookmark(_, _, _, _, _, _, _, _, position, _) => position
    case Command(_, _, _, position, _) => position
    case _ => 0
  }

  function InsertByPosition(row: Row, sorted: seq<Row>): seq<Row> {
    if sorted == [] || PositionOf(sorted[|sorted| - 1]) <= PositionOf(row) then sorted + [row]
    else InsertByPosition(row, sorted[..|sorted| - 1]) + [sorted[|sorted| - 1]]
  }

  /** A stable sort. */
  function SortByPosition(rows: seq<Row>): seq<Row> {
    if rows == [] then [] else InsertByPosition(rows[|rows| - 1], SortByPosition(rows[..|rows| - 1]))
  }

  lemma {:induction false} InsertKeeps(row: Row, sorted: seq<Row>)
    ensures multiset(InsertByPosition(row, sorted)) == multiset(sorted) + multiset{row}
  {
    if sorted != [] {
      assert sorted == sorted[..|sorted| - 1] + [sorted[|sorted| - 1]];
      InsertKeeps(row, sorted[..|sorted| - 1]);
    }
  }

  lemma {:induction false} SortKeeps(rows: seq<Row>)
    ensures multiset(SortByPosition(rows)) == multiset(rows)
  {
    if rows != [] {
      assert rows == rows[..|rows| - 1] + [rows[|rows| - 1]];
      SortKeeps(rows[..|rows| - 1]);
      InsertKeeps(rows[|rows| - 1], SortByPosition(rows[..|rows| - 1]));
    }
  }

  /** The rows at one position, in order. */
  function AtPosition(rows: seq<Row>, position: int): seq<Row> {
    if rows == [] then []
    else
      AtPosition(rows[..|rows| - 1], position)
      + if PositionOf(rows[|rows| - 1]) == position then [rows[|rows| - 1]] else []
  }

  predicate Ascending(rows: seq<Row>) {
    forall i, j :: 0 <= i < j < |rows| ==> PositionOf(rows[i]) <= PositionOf(rows[j])
  }

  lemma {:induction false} InsertAscending(row: Row, sorted: seq<Row>)
    requires Ascending(sorted)
    ensures Ascending(InsertByPosition(row, sorted))
  {
    hide PositionOf;
    if sorted != [] && PositionOf(sorted[|sorted| - 1]) > PositionOf(row) {
      var init, last := sorted[..|sorted| - 1], sorted[|sorted| - 1];
      InsertAscending(row, init);
      InsertKeeps(row, init);
      var inserted := InsertByPosition(row, init);
      forall r | r in inserted ensures PositionOf(r) <= PositionOf(last) {
        assert r in multiset(inserted);
        assert r in init || r == row;
      }
    }
  }

  lemma {:induction false} InsertStable(row: Row, sorted: seq<Row>, position: int)
    ensures AtPosition(InsertByPosition(row, sorted), position) ==
            AtPosition(sorted, position) + if PositionOf(row) == position then [row] else []
  {
    hide PositionOf;
    if sorted == [] || PositionOf(sorted[|sorted| - 1]) <= PositionOf(row) {
      assert (sorted + [row])[..|sorted|] == sorted;
    } else {
      var init, last := sorted[..|sorted| - 1], sorted[|sorted| - 1];
      InsertStable(row, init, position);
      var inserted := InsertByPosition(row, init);
      assert (inserted + [last])[..|inserted|] == inserted;
      assert PositionOf(last) != PositionOf(row);
    }
  }

  /** The rows come in the order of their positions, and rows of one position in the order they had. */
  lemma {:induction false} SortOrders(rows: seq<Row>, position: int)
    ensures Ascending(SortByPosition(rows))
    ensures AtPosition(SortByPosition(rows), position) == AtPosition(rows, position)
  {
    if rows != [] {
      SortOrders(rows[..|rows| - 1], position);
      InsertAscending(rows[|rows| - 1], SortByPosition(rows[..|rows| - 1]));
      InsertStable(rows[|rows| - 1], SortByPosition(rows[..|rows| - 1]), position);
    }
  }

  /** Rows with distinct ids stay so under any rearrangement. */
  lemma RearrangedIds(rows: seq<Row>, other: seq<Row>)
    requires UniqueIds(rows) && multiset(rows) == multiset(other)
    ensures UniqueIds(other)
    ensures forall row :: row in other <==> row in rows
  {
    forall row ensures row in other <==> row in rows {
      assert row in multiset(rows) <==> row in multiset(other);
    }
    forall i, j | 0 <= i < j < |other| ensures other[i].id != other[j].id {
      if other[i].id == other[j].id {
        assert other[i] in rows && other[j] in rows;
        var a :| 0 <= a < |rows| && rows[a] == other[i];
        var b :| 0 <= b < |rows| && rows[b] == other[j];
        assert a == b;
        Twice(other, i, j);
        Once(rows, a);
      }
    }
  }

  lemma Twice(rows: seq<Row>, i: nat, j: nat)
    requires i < j < |rows| && rows[i] == rows[j]
    ensures multiset(rows)[rows[i]] >= 2
  {
    assert rows == rows[..i] + [rows[i]] + rows[i + 1..j] + [rows[j]] + rows[j + 1..];
  }

  lemma Once(rows: seq<Row>, i: nat)
    requires UniqueIds(rows) && i < |rows|
    ensures multiset(rows)[rows[i]] == 1
  {
    assert rows == rows[..i] + [rows[i]] + rows[i + 1..];
    assert rows[i] !in rows[..i] && rows[i] !in rows[i + 1..];
  }
}
