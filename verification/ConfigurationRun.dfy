/** What an import of a configuration has done once it has created a list of rows, one after the other. */
module ConfigurationRun {
  import opened Common
  import opened ReferenceGraph
  import opened ConfigurationDocument
  import opened ConfigurationInspection
  import opened ConfigurationPreview

  /** The saved rows, the remembered imports, and the targets known to the import in progress. */
  datatype State = State(rows: map<Key, Row>, entries: map<Key, Entry>, targets: map<Key, Id>, nextId: nat)

  // ----- one created row -----

  predicate Resolvable(item: Item, targets: map<Key, Id>) {
    forall r :: r in References(item.collection, item.row) ==> r.target in targets
  }

  function Mapped(targets: map<Key, Id>, c: Collection, id: Option<Id>): Option<Id> {
    if id.Some? && Key(c, id.value) in targets then Some(targets[Key(c, id.value)]) else None
  }

  function MappedJumps(targets: map<Key, Id>, ids: seq<Id>): seq<Id> {
    seq(|ids|, i requires 0 <= i < |ids| =>
      if Key(Hosts, ids[i]) in targets then targets[Key(Hosts, ids[i])] else ids[i])
  }

  function WithId(row: Row, id: Id): Row {
    row.(id := id)
  }

  /** The row as it is stored: a new id, and every reference replaced by its target. */
  function Remap(item: Item, targets: map<Key, Id>, id: Id): Row {
    match (item.collection, item.row)
    case (Hosts, Host(_, name, groupId, jumpHostId, jumpHostIds, content)) =>
      Host(
        id, name, Mapped(targets, HostGroups, groupId), Mapped(targets, Hosts, jumpHostId),
        MappedJumps(targets, jumpHostIds), content)
    case (BookmarkGroups, Group(_, parentId, position, content)) =>
      Group(id, Mapped(targets, BookmarkGroups, parentId), position, content)
    case (
        Bookmarks,
        Bookmark(_, groupId, hostId, profileId, connectionProfileId, rdp, vnc, spice, position, content)) =>
      Bookmark(
        id, Mapped(targets, BookmarkGroups, groupId), Mapped(targets, Hosts, hostId),
        Mapped(targets, TerminalProfiles, profileId), Mapped(targets, ConnectionProfiles, connectionProfileId),
        Mapped(targets, Hosts, rdp), Mapped(targets, Hosts, vnc), Mapped(targets, Hosts, spice), position, content)
    case (TunnelProfiles, Tunnel(_, hostId, content)) => Tunnel(id, Mapped(targets, Hosts, hostId), content)
    case (QuickCommandGroups, Group(_, parentId, position, content)) =>
      Group(id, Mapped(targets, QuickCommandGroups, parentId), position, content)
    case (QuickCommands, Command(_, groupId, shortcut, position, content)) =>
      Command(id, Mapped(targets, QuickCommandGroups, groupId), shortcut, position, content)
    case _ => WithId(item.row, id)
  }

  function CreateRow(s: State, item: Item): State {
    var id := Id(s.nextId);
    State(
      s.rows[Key(item.collection, id) := Remap(item, s.targets, id)],
      s.entries[item.KeyOf() := Entry(item.row, id)],
      s.targets[item.KeyOf() := id],
      s.nextId + 1)
  }

  /** The state after creating the rows of log, in that order. */
  function Run(s: State, log: seq<Item>): State {
    if log == [] then s else CreateRow(Run(s, log[..|log| - 1]), log[|log| - 1])
  }

  /** No saved row has an id that is still to be given out. */
  ghost predicate Fresh(s: State) {
    forall key :: key in s.rows ==> key.id.number < s.nextId
  }

  // ----- what a log of created rows promises -----

  function Keys(log: seq<Item>): set<Key> {
    set item | item in log :: item.KeyOf()
  }

  /** Row k is new to the import, and everything it refers to was known or created before it. */
  ghost predicate CreatedInTurn(known: set<Key>, log: seq<Item>, k: nat)
    requires k < |log|
  {
    && log[k].KeyOf() !in known + Keys(log[..k])
    && forall r :: r in References(log[k].collection, log[k].row) ==> r.target in known + Keys(log[..k])
  }

  ghost predicate InTurn(known: set<Key>, log: seq<Item>) {
    forall k :: 0 <= k < |log| ==> CreatedInTurn(known, log, k)
  }

  lemma InTurnNext(known: set<Key>, log: seq<Item>, item: Item)
    requires InTurn(known, log)
    requires item.KeyOf() !in known + Keys(log)
    requires forall r :: r in References(item.collection, item.row) ==> r.target in known + Keys(log)
    ensures InTurn(known, log + [item])
    ensures Keys(log + [item]) == Keys(log) + {item.KeyOf()}
  {
    var longer := log + [item];
    forall k | 0 <= k < |longer| ensures CreatedInTurn(known, longer, k) {
      assert longer[..k] == log[..k];
      if k < |log| {
        assert CreatedInTurn(known, log, k);
      } else {
        assert log[..k] == log;
      }
    }
  }

  lemma InTurnInit(known: set<Key>, log: seq<Item>)
    requires InTurn(known, log) && log != []
    ensures InTurn(known, log[..|log| - 1]) && CreatedInTurn(known, log, |log| - 1)
    ensures Keys(log) == Keys(log[..|log| - 1]) + {log[|log| - 1].KeyOf()}
  {
    var init := log[..|log| - 1];
    assert log == init + [log[|log| - 1]];
    forall k | 0 <= k < |init| ensures CreatedInTurn(known, init, k) {
      assert CreatedInTurn(known, log, k) && init[..k] == log[..k];
    }
  }

  lemma {:induction false} RunTargets(s: State, log: seq<Item>)
    ensures Run(s, log).targets.Keys == s.targets.Keys + Keys(log)
    ensures Run(s, log).nextId == s.nextId + |log|
  {
    if log != [] {
      RunTargets(s, log[..|log| - 1]);
      assert log == log[..|log| - 1] + [log[|log| - 1]];
    }
  }

  /** Rows, entries and targets from before the import stay as they were. */
  lemma {:induction false} RunKeeps(s: State, log: seq<Item>)
    requires Fresh(s)
    ensures Fresh(Run(s, log))
    ensures forall key :: key in s.rows ==> key in Run(s, log).rows && Run(s, log).rows[key] == s.rows[key]
    ensures forall key :: key in Run(s, log).rows && key !in s.rows ==> key.id.number >= s.nextId
  {
    if log != [] {
      RunKeeps(s, log[..|log| - 1]);
      RunTargets(s, log[..|log| - 1]);
    }
  }

  /** An import touches the target and the entry of a key only when it creates that key's row. */
  lemma {:induction false} RunUntouched(s: State, log: seq<Item>, key: Key)
    requires key !in Keys(log)
    ensures key in Run(s, log).targets <==> key in s.targets
    ensures key in s.targets ==> Run(s, log).targets[key] == s.targets[key]
    ensures key in Run(s, log).entries <==> key in s.entries
    ensures key in s.entries ==> Run(s, log).entries[key] == s.entries[key]
  {
    if log != [] {
      assert forall item :: item in log[..|log| - 1] ==> item in log;
      assert log[|log| - 1] in log;
      RunUntouched(s, log[..|log| - 1], key);
    }
  }

  predicate Resolves(keys: set<Key>, c: Collection, id: Option<Id>) {
    id.Some? ==> Key(c, id.value) in keys
  }

  /** Every reference field of the row names one of the keys. */
  predicate FieldsIn(keys: set<Key>, c: Collection, row: Row) {
    match (c, row)
    case (Hosts, Host(_, _, groupId, jumpHostId, jumpHostIds, _)) =>
      Resolves(keys, HostGroups, groupId) && Resolves(keys, Hosts, jumpHostId)
      && forall i :: 0 <= i < |jumpHostIds| ==> Key(Hosts, jumpHostIds[i]) in keys
    case (BookmarkGroups, Group(_, parentId, _, _)) => Resolves(keys, BookmarkGroups, parentId)
    case (Bookmarks, Bookmark(_, groupId, hostId, profileId, connectionProfileId, rdp, vnc, spice, _, _)) =>
      Resolves(keys, BookmarkGroups, groupId) && Resolves(keys, Hosts, hostId)
      && Resolves(keys, TerminalProfiles, profileId) && Resolves(keys, ConnectionProfiles, connectionProfileId)
      && Resolves(keys, Hosts, rdp) && Resolves(keys, Hosts, vnc) && Resolves(keys, Hosts, spice)
    case (TunnelProfiles, Tunnel(_, hostId, _)) => Resolves(keys, Hosts, hostId)
    case (QuickCommandGroups, Group(_, parentId, _, _)) => Resolves(keys, QuickCommandGroups, parentId)
    case (QuickCommands, Command(_, groupId, _, _, _)) => Resolves(keys, QuickCommandGroups, groupId)
    case _ => true
  }

  predicate AllIn(refs: seq<Reference>, keys: set<Key>) {
    forall r :: r in refs ==> r.target in keys
  }

  lemma AllInConcat(left: seq<Reference>, right: seq<Reference>, keys: set<Key>)
    ensures AllIn(left + right, keys) <==> AllIn(left, keys) && AllIn(right, keys)
  {
    assert forall r :: r in left + right <==> r in left || r in right;
  }

  lemma OptionalResolves(field: string, c: Collection, id: Option<Id>, keys: set<Key>)
    ensures AllIn(Optional(field, c, id), keys) <==> Resolves(keys, c, id)
  {
    if id.Some? {
      assert Optional(field, c, id)[0].target == Key(c, id.value);
    }
  }

  lemma JumpsResolve(ids: seq<Id>, keys: set<Key>)
    ensures AllIn(JumpReferences(ids), keys) <==> forall i :: 0 <= i < |ids| ==> Key(Hosts, ids[i]) in keys
  {
    var refs := JumpReferences(ids);
    if AllIn(refs, keys) {
      forall i | 0 <= i < |ids| ensures Key(Hosts, ids[i]) in keys {
        assert refs[i] in refs && refs[i].target == Key(Hosts, ids[i]);
      }
    }
  }

  lemma HostFields(row: Row, keys: set<Key>)
    requires row.Host?
    ensures AllIn(References(Hosts, row), keys) <==> FieldsIn(keys, Hosts, row)
  {
    var group := Optional("groupId", HostGroups, row.groupId);
    var jump := Optional("jumpHostId", Hosts, row.jumpHostId);
    var jumps := JumpReferences(row.jumpHostIds);
    hide Optional, JumpReferences;
    AllInConcat(group + jump, jumps, keys);
    AllInConcat(group, jump, keys);
    OptionalResolves("groupId", HostGroups, row.groupId, keys);
    OptionalResolves("jumpHostId", Hosts, row.jumpHostId, keys);
    JumpsResolve(row.jumpHostIds, keys);
    assert References(Hosts, row) == group + jump + jumps;
  }

  lemma BookmarkFields(b: Row, keys: set<Key>)
    requires b.Bookmark?
    ensures AllIn(References(Bookmarks, b), keys) <==> FieldsIn(keys, Bookmarks, b)
  {
    var f1 := Optional("groupId", BookmarkGroups, b.groupId);
    var f2 := Optional("hostId", Hosts, b.hostId);
    var f3 := Optional("profileId", TerminalProfiles, b.profileId);
    var f4 := Optional("connectionProfileId", ConnectionProfiles, b.connectionProfileId);
    var f5 := Optional("rdp.jumpHostId", Hosts, b.rdpJump);
    var f6 := Optional("vnc.jumpHostId", Hosts, b.vncJump);
    var f7 := Optional("spice.jumpHostId", Hosts, b.spiceJump);
    OptionalResolves("groupId", BookmarkGroups, b.groupId, keys);
    OptionalResolves("hostId", Hosts, b.hostId, keys);
    OptionalResolves("profileId", TerminalProfiles, b.profileId, keys);
    OptionalResolves("connectionProfileId", ConnectionProfiles, b.connectionProfileId, keys);
    OptionalResolves("rdp.jumpHostId", Hosts, b.rdpJump, keys);
    OptionalResolves("vnc.jumpHostId", Hosts, b.vncJump, keys);
    OptionalResolves("spice.jumpHostId", Hosts, b.spiceJump, keys);
    hide Optional, Resolves;
    AllInConcat(f1, f2, keys);
    AllInConcat(f1 + f2, f3, keys);
    AllInConcat(f1 + f2 + f3, f4, keys);
    AllInConcat(f1 + f2 + f3 + f4, f5, keys);
    AllInConcat(f1 + f2 + f3 + f4 + f5, f6, keys);
    AllInConcat(f1 + f2 + f3 + f4 + f5 + f6, f7, keys);
    assert References(Bookmarks, b) == f1 + f2 + f3 + f4 + f5 + f6 + f7;
  }

  /** The list of references and the reference fields say the same. */
  lemma ReferenceFields(c: Collection, row: Row, keys: set<Key>)
    ensures AllIn(References(c, row), keys) <==> FieldsIn(keys, c, row)
  {
    if c == Hosts && row.Host? {
      HostFields(row, keys);
    } else if c == Bookmarks && row.Bookmark? {
      BookmarkFields(row, keys);
    } else if row.Group? {
      OptionalResolves("parentId", c, row.parentId, keys);
    } else if row.Tunnel? {
      OptionalResolves("hostId", Hosts, row.hostId, keys);
    } else if row.Command? {
      OptionalResolves("groupId", QuickCommandGroups, row.groupId, keys);
    }
  }

  /** Remapping only looks at the targets of the row's own references. */
  lemma RemapStable(item: Item, before: map<Key, Id>, after: map<Key, Id>, id: Id)
    requires Resolvable(item, before)
    requires forall key :: key in before ==> key in after && after[key] == before[key]
    ensures Remap(item, before, id) == Remap(item, after, id)
  {
    assert AllIn(References(item.collection, item.row), before.Keys);
    ReferenceFields(item.collection, item.row, before.Keys);
    hide Resolvable;
    if item.collection == Hosts && item.row.Host? {
      assert MappedJumps(before, item.row.jumpHostIds) == MappedJumps(after, item.row.jumpHostIds);
    }
  }

  // ----- what becomes of references -----

  /** Each reference leads to the target of what it led to, field by field and in order. */
  predicate Redirected(was: seq<Reference>, now: seq<Reference>, targets: map<Key, Id>) {
    && |now| == |was|
    && forall i :: 0 <= i < |was| ==>
         was[i].target in targets
         && now[i] == Reference(was[i].field, Key(was[i].target.collection, targets[was[i].target]))
  }

  /** Whatever is not a reference stays the row's own, under the new id. */
  predicate RestKept(row: Row, stored: Row, id: Id) {
    stored.id == id
    && match row
       case Plain(_, name, content) => stored.Plain? && stored.name == name && stored.content == content
       case Host(_, name, _, _, _, content) => stored.Host? && stored.name == name && stored.content == content
       case Group(_, _, position, content) => stored.Group? && stored.position == position && stored.content == content
       case Bookmark(_, _, _, _, _, _, _, _, position, content) =>
         stored.Bookmark? && stored.position == position && stored.content == content
       case Tunnel(_, _, content) => stored.Tunnel? && stored.content == content
       case Command(_, _, shortcut, position, content) =>
         stored.Command? && stored.shortcut == shortcut && stored.position == position && stored.content == content
  }

  lemma RedirectedConcat(
    was: seq<Reference>, now: seq<Reference>, more: seq<Reference>, rest: seq<Reference>, targets: map<Key, Id>)
    requires Redirected(was, now, targets) && Redirected(more, rest, targets)
    ensures Redirected(was + more, now + rest, targets)
  {
  }

  lemma OptionalRedirected(field: string, c: Collection, id: Option<Id>, targets: map<Key, Id>)
    requires Resolves(targets.Keys, c, id)
    ensures Redirected(Optional(field, c, id), Optional(field, c, Mapped(targets, c, id)), targets)
  {
  }

  lemma JumpsRedirected(ids: seq<Id>, targets: map<Key, Id>)
    requires forall i :: 0 <= i < |ids| ==> Key(Hosts, ids[i]) in targets
    ensures Redirected(JumpReferences(ids), JumpReferences(MappedJumps(targets, ids)), targets)
  {
  }

  lemma HostRedirected(row: Row, targets: map<Key, Id>, id: Id)
    requires row.Host? && FieldsIn(targets.Keys, Hosts, row)
    ensures Redirected(References(Hosts, row), References(Hosts, Remap(Item(Hosts, row), targets, id)), targets)
  {
    hide Optional, JumpReferences, Mapped, MappedJumps, Redirected;
    OptionalRedirected("groupId", HostGroups, row.groupId, targets);
    OptionalRedirected("jumpHostId", Hosts, row.jumpHostId, targets);
    JumpsRedirected(row.jumpHostIds, targets);
    var group, jump := Mapped(targets, HostGroups, row.groupId), Mapped(targets, Hosts, row.jumpHostId);
    var f1, g1 := Optional("groupId", HostGroups, row.groupId), Optional("groupId", HostGroups, group);
    var f2, g2 := Optional("jumpHostId", Hosts, row.jumpHostId), Optional("jumpHostId", Hosts, jump);
    RedirectedConcat(f1, g1, f2, g2, targets);
    RedirectedConcat(f1 + f2, g1 + g2, JumpReferences(row.jumpHostIds),
                     JumpReferences(MappedJumps(targets, row.jumpHostIds)), targets);
  }

  lemma BookmarkRedirected(b: Row, targets: map<Key, Id>, id: Id)
    requires b.Bookmark? && FieldsIn(targets.Keys, Bookmarks, b)
    ensures Redirected(References(Bookmarks, b), References(Bookmarks, Remap(Item(Bookmarks, b), targets, id)), targets)
  {
    var t := Remap(Item(Bookmarks, b), targets, id);
    hide Optional, Redirected, Mapped;
    OptionalRedirected("groupId", BookmarkGroups, b.groupId, targets);
    OptionalRedirected("hostId", Hosts, b.hostId, targets);
    OptionalRedirected("profileId", TerminalProfiles, b.profileId, targets);
    OptionalRedirected("connectionProfileId", ConnectionProfiles, b.connectionProfileId, targets);
    OptionalRedirected("rdp.jumpHostId", Hosts, b.rdpJump, targets);
    OptionalRedirected("vnc.jumpHostId", Hosts, b.vncJump, targets);
    OptionalRedirected("spice.jumpHostId", Hosts, b.spiceJump, targets);
    var f, g := Optional("groupId", BookmarkGroups, b.groupId), Optional("groupId", BookmarkGroups, t.groupId);
    f, g := Joined(f, g, "hostId", Hosts, b.hostId, t.hostId, targets);
    f, g := Joined(f, g, "profileId", TerminalProfiles, b.profileId, t.profileId, targets);
    f, g := Joined(
      f, g, "connectionProfileId", ConnectionProfiles, b.connectionProfileId, t.connectionProfileId, targets);
    f, g := Joined(f, g, "rdp.jumpHostId", Hosts, b.rdpJump, t.rdpJump, targets);
    f, g := Joined(f, g, "vnc.jumpHostId", Hosts, b.vncJump, t.vncJump, targets);
    f, g := Joined(f, g, "spice.jumpHostId", Hosts, b.spiceJump, t.spiceJump, targets);
  }

  lemma Joined(
    was: seq<Reference>, now: seq<Reference>, field: string, c: Collection, before: Option<Id>, after: Option<Id>,
    targets: map<Key, Id>) returns (f: seq<Reference>, g: seq<Reference>)
    requires Redirected(was, now, targets)
    requires Redirected(Optional(field, c, before), Optional(field, c, after), targets)
    ensures f == was + Optional(field, c, before) && g == now + Optional(field, c, after)
    ensures Redirected(f, g, targets)
  {
    f, g := was + Optional(field, c, before), now + Optional(field, c, after);
    RedirectedConcat(was, now, Optional(field, c, before), Optional(field, c, after), targets);
  }

  /** A stored row holds the references of its source, each replaced by its target, and nothing else is changed. */
  lemma RemapRedirects(item: Item, targets: map<Key, Id>, id: Id)
    requires Resolvable(item, targets)
    ensures var stored := Remap(item, targets, id);
            && Redirected(References(item.collection, item.row), References(item.collection, stored), targets)
            && RestKept(item.row, stored, id)
  {
    var c, row := item.collection, item.row;
    assert AllIn(References(c, row), targets.Keys);
    ReferenceFields(c, row, targets.Keys);
    if c == Hosts && row.Host? {
      HostRedirected(row, targets, id);
    } else if c == Bookmarks && row.Bookmark? {
      BookmarkRedirected(row, targets, id);
    }
  }

  /** What the k-th created row is stored as, once the whole import is done. */
  ghost predicate StoredAs(s: State, log: seq<Item>, end: State, k: nat)
    requires k < |log|
  {
    var key, id := log[k].KeyOf(), Id(s.nextId + k);
    && key in end.targets && end.targets[key] == id
    && Resolvable(log[k], end.targets)
    && Key(log[k].collection, id) in end.rows
    && end.rows[Key(log[k].collection, id)] == Remap(log[k], end.targets, id)
    && Redirected(
      References(log[k].collection, log[k].row),
      References(log[k].collection, end.rows[Key(log[k].collection, id)]), end.targets)
    && RestKept(log[k].row, end.rows[Key(log[k].collection, id)], id)
    && key in end.entries && end.entries[key] == Entry(log[k].row, id)
  }

  /** The row created last is stored with the targets known at that time. */
  lemma StoredLast(s: State, log: seq<Item>)
    requires Fresh(s) && InTurn(s.targets.Keys, log) && log != []
    ensures StoredAs(s, log, Run(s, log), |log| - 1)
  {
    var init, last := log[..|log| - 1], log[|log| - 1];
    InTurnInit(s.targets.Keys, log);
    RunTargets(s, init);
    var before, after := Run(s, init), Run(s, log);
    hide Remap, InTurn, Run, References;
    assert Resolvable(last, before.targets);
    RemapStable(last, before.targets, after.targets, Id(before.nextId));
    RemapRedirects(last, after.targets, Id(before.nextId));
  }

  /** Creating one more row does not disturb a stored one. */
  lemma StoredStays(s: State, log: seq<Item>, k: nat, last: Item)
    requires Fresh(s) && k < |log| && last.KeyOf() !in Run(s, log).targets
    requires StoredAs(s, log, Run(s, log), k)
    ensures StoredAs(s, log + [last], CreateRow(Run(s, log), last), k)
  {
    RunTargets(s, log);
    var before, after := Run(s, log), CreateRow(Run(s, log), last);
    hide Remap, Run, References;
    RemapStable(log[k], before.targets, after.targets, Id(s.nextId + k));
    RemapRedirects(log[k], after.targets, Id(s.nextId + k));
  }

  /** Every created row ends up stored with all its references replaced by their final targets. */
  lemma {:induction false} AllStored(s: State, log: seq<Item>, k: nat)
    requires Fresh(s) && InTurn(s.targets.Keys, log) && k < |log|
    ensures StoredAs(s, log, Run(s, log), k)
  {
    if k == |log| - 1 {
      StoredLast(s, log);
    } else {
      var init, last := log[..|log| - 1], log[|log| - 1];
      assert log == init + [last];
      InTurnInit(s.targets.Keys, log);
      AllStored(s, init, k);
      RunTargets(s, init);
      hide StoredAs, InTurn;
      StoredStays(s, init, k, last);
    }
  }

  // ----- imports that follow a preview -----

  predicate ShouldCreate(p: Preview, item: Item) {
    item.KeyOf() in p.actions && p.actions[item.KeyOf()] == Create
  }

  ghost predicate Committable(p: Preview) {
    Sound(p) && p.canCommit
  }

  lemma CommittableDecided(p: Preview)
    requires Committable(p)
    ensures Unique(p.document) && p.targets.Keys <= p.actions.Keys
    ensures Decided(Items(p.document), p.target, p.mappings, p.actions, p.targets)
  {
    hide CollectionsConsistent, SettingsConsistent, Unique, Items, Decided;
    ConsistentIsUnique(p.document, p.target);
  }

  /** A row is to be created, or its target is known already. */
  lemma CreateOrKnown(p: Preview, item: Item)
    requires Committable(p) && item in Items(p.document)
    ensures ShouldCreate(p, item) <==> item.KeyOf() !in p.targets
  {
    hide CollectionsConsistent, SettingsConsistent, Unique, Tally;
    ConsistentIsUnique(p.document, p.target);
    assert Recorded(item, p.target, p.mappings, p.actions, p.targets);
  }

  lemma KnownTargetSaved(p: Preview, key: Key)
    requires Committable(p) && key in p.targets
    ensures Key(key.collection, p.targets[key]) in p.target
  {
    hide Committable, Items;
    CommittableDecided(p);
    var item :| item in Items(p.document) && item.KeyOf() == key;
    assert Recorded(item, p.target, p.mappings, p.actions, p.targets);
  }

  /** The rows of log have been created since start, each in its turn and each asked for by the preview. */
  ghost predicate Progress(p: Preview, start: State, s: State, created: nat, log: seq<Item>) {
    && s == Run(start, log) && created == |log| && start.targets == p.targets
    && InTurn(p.targets.Keys, log)
    && (forall item :: item in log ==> item in Items(p.document) && ShouldCreate(p, item))
  }

  lemma ImportBegins(p: Preview, start: State)
    requires start.targets == p.targets
    ensures Progress(p, start, start, 0, [])
  {
  }

  lemma ProgressNext(p: Preview, start: State, s: State, created: nat, log: seq<Item>, item: Item)
    requires Progress(p, start, s, created, log) && Resolvable(item, s.targets)
    requires item in Items(p.document) && ShouldCreate(p, item) && item.KeyOf() !in s.targets
    ensures Progress(p, start, CreateRow(s, item), created + 1, log + [item])
  {
    hide Remap, ShouldCreate, Items, InTurn, References;
    RunTargets(start, log);
    InTurnNext(p.targets.Keys, log, item);
    assert (log + [item])[..|log|] == log;
  }

  lemma ImportIs(p: Preview, start: State, s: State, created: nat, log: seq<Item>)
    requires Progress(p, start, s, created, log)
    ensures s == Run(start, log) && created == |log|
    ensures s.targets.Keys == p.targets.Keys + Keys(log)
  {
    RunTargets(start, log);
  }

  /** The import created exactly the rows it was asked for, each in its turn. */
  ghost predicate Imported(p: Preview, start: State, end: State, log: seq<Item>) {
    && end == Run(start, log) && start.targets == p.targets
    && InTurn(p.targets.Keys, log)
    && (forall item :: item in log <==> item in Items(p.document) && ShouldCreate(p, item))
  }

  /** Every target names a saved row. */
  predicate TargetsSaved(targets: map<Key, Id>, rows: map<Key, Row>) {
    forall key :: key in targets ==> Key(key.collection, targets[key]) in rows
  }

  /** An import in progress over the rows that the preview was made for. */
  ghost predicate Underway(p: Preview, start: State, s: State, log: seq<Item>) {
    && Committable(p) && start.rows == p.target && Fresh(start)
    && Progress(p, start, s, |log|, log)
  }

  lemma UnderwayKeeps(p: Preview, start: State, s: State, log: seq<Item>)
    requires Underway(p, start, s, log)
    ensures Fresh(s) && s.nextId == start.nextId + |log|
    ensures forall key :: key in start.rows ==> key in s.rows && s.rows[key] == start.rows[key]
    ensures forall key :: key in s.rows && key !in start.rows ==> key.id.number >= start.nextId
  {
    RunKeeps(start, log);
    RunTargets(start, log);
  }

  /** A target found by the preview stays what it is, and is the id of a row saved before the import. */
  lemma KnownStays(p: Preview, start: State, s: State, log: seq<Item>, key: Key)
    requires Underway(p, start, s, log) && key in p.targets
    ensures key in s.targets && s.targets[key] == p.targets[key]
    ensures Key(key.collection, p.targets[key]) in start.rows && p.targets[key].number < start.nextId
  {
    KnownTargetSaved(p, key);
    assert key !in Keys(log) by {
      NeverKnown(p.targets.Keys, log, key);
    }
    hide Committable, InTurn, ShouldCreate;
    RunUntouched(start, log, key);
  }

  lemma NeverKnown(known: set<Key>, log: seq<Item>, key: Key)
    requires InTurn(known, log) && key in known
    ensures key !in Keys(log)
  {
    forall item | item in log ensures item.KeyOf() != key {
      var k :| 0 <= k < |log| && log[k] == item;
      assert CreatedInTurn(known, log, k);
    }
  }

  /** Any other target is the id of a created row. */
  lemma CreatedTarget(p: Preview, start: State, s: State, log: seq<Item>, key: Key) returns (k: nat)
    requires Underway(p, start, s, log) && key in s.targets && key !in p.targets
    ensures k < |log| && log[k].KeyOf() == key && StoredAs(start, log, s, k)
  {
    hide Committable, InTurn, ShouldCreate, StoredAs;
    RunTargets(start, log);
    var item :| item in log && item.KeyOf() == key;
    k :| 0 <= k < |log| && log[k] == item;
    AllStored(start, log, k);
  }

  /** Every target known to an import in progress names a saved row. */
  lemma TargetsSavedSoFar(p: Preview, start: State, s: State, log: seq<Item>)
    requires Underway(p, start, s, log)
    ensures TargetsSaved(s.targets, s.rows)
  {
    hide Underway;
    forall key | key in s.targets ensures Key(key.collection, s.targets[key]) in s.rows {
      if key in p.targets {
        KnownStays(p, start, s, log, key);
        UnderwayKeeps(p, start, s, log);
      } else {
        var k := CreatedTarget(p, start, s, log, key);
      }
    }
  }
}
