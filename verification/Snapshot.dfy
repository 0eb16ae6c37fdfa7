/** Capturing a node, restoring a snapshot onto any node, and cloning one node onto another. */
module Snapshot {
  import opened Common
  import opened Paths
  import opened MergeRun
  import opened ScalarPaths
  import opened GroupNames
  import opened GroupMerge
  import opened GroupAgreement
  import opened ItemAgreement

  datatype ListAttrs = ListAttrs(kind: string, enabled: bool, comment: string)

  /** The type, the kind and the domain itself are in the key. */
  datatype DomainAttrs = DomainAttrs(enabled: bool, comment: string)

  /** A node: its configuration, its groups and clients, its adlists and its domain overrides. */
  datatype Image = Image(config: Value, db: Db<string>, lists: map<string, Item<ListAttrs>>, domains: map<string, Item<DomainAttrs>>)

  type Settings = seq<(Path, Value)>

  /** A captured node, with group names in place of ids. */
  datatype Snap = Snap(scalars: Settings, hosts: Value, groups: seq<(string, GroupValue)>, clients: map<string, Named<string>>,
                       lists: map<string, Named<ListAttrs>>, domains: map<string, Named<DomainAttrs>>)

  /** Which calls succeed: one write each, and reading the groups again after they were written. */
  datatype Access = Access(scalars: set<Path>, hosts: bool, groups: set<string>, reread: bool, clients: set<string>,
                           lists: set<string>, domains: set<string>)

  // --- Capture ---

  function Found(config: Value, paths: seq<Path>): Settings
  {
    FilterMap(paths, p => FoundOne(config, p))
  }

  function FoundOne(config: Value, p: Path): Option<(Path, Value)>
  {
    match GetPath(config, p)
    case Some(v) => Some((p, v))
    case None => None
  }

  function HostsIn(config: Value): Value
  {
    GetPath(config, HOSTS_PATH).GetOr(Some(Lines([])))
  }

  /** `_names`: in the order of the ids. */
  function Shows<A>(groups: seq<Group>, item: Item<A>): Named<A>
  {
    Named(item.attrs, Map(item.groups, id => Shown(groups, id)))
  }

  function ItemsShown<A>(groups: seq<Group>, items: map<string, Item<A>>): map<string, Named<A>>
  {
    map k | k in items :: Shows(groups, items[k])
  }

  function GroupList(groups: seq<Group>): seq<(string, GroupValue)>
  {
    Map(groups, (g: Group) => (g.name, GroupValue(g.enabled, g.comment)))
  }

  /** Which reads of a capture succeed. Only the first is needed: what else cannot be read is taken to be
      empty. */
  datatype CaptureReads = CaptureReads(config: bool, groups: bool, clients: bool, lists: bool, domains: bool)

  function CapturedBy(n: Image, got: CaptureReads): Option<Snap>
  {
    var groups := if got.groups then n.db.groups else [];
    if !got.config then None
    else
      Some(Snap(Found(n.config, SCALAR_PATHS), HostsIn(n.config), GroupList(groups),
                ItemsShown(groups, if got.clients then n.db.items else map[]),
                ItemsShown(groups, if got.lists then n.lists else map[]),
                ItemsShown(groups, if got.domains then n.domains else map[])))
  }

  /** The capture of a node whose parts can all be read. */
  function Captured(n: Image): Snap
  {
    Snap(Found(n.config, SCALAR_PATHS), HostsIn(n.config), GroupList(n.db.groups), ItemsShown(n.db.groups, n.db.items),
         ItemsShown(n.db.groups, n.lists), ItemsShown(n.db.groups, n.domains))
  }

  // --- Writing a node ---

  function ScalarsSet(config: Value, scalars: Settings, accepts: set<Path>): Value
  {
    if scalars == [] then config
    else
      var c, (p, v) := ScalarsSet(config, scalars[..|scalars| - 1], accepts), scalars[|scalars| - 1];
      if p in accepts then SetPath(c, p, v) else c
  }

  function GroupsPosted(db: Db<string>, groups: seq<(string, GroupValue)>, accepts: set<string>): Db<string>
  {
    if groups == [] then db
    else
      var d, (name, v) := GroupsPosted(db, groups[..|groups| - 1], accepts), groups[|groups| - 1];
      if name in accepts then PostGroup(d, name, v) else d
  }

  /** Created or updated, item by item, under the ids of these groups. */
  function ItemsPushed<A>(items: map<string, Item<A>>, source: map<string, Named<A>>, groups: seq<Group>, accepts: set<string>): map<string, Item<A>>
  {
    map k | k in items.Keys + (source.Keys * accepts) ::
      if k in source && k in accepts then Pushed(groups, source[k]) else items[k]
  }

  /** A restore: settings, reservations, groups, and what is assigned to groups. Where the groups
      cannot be read again, nothing is assigned to any group. */
  function Restored(n: Image, snap: Snap, access: Access): Image
  {
    var c := ScalarsSet(n.config, snap.scalars, access.scalars);
    var db := GroupsPosted(n.db, snap.groups, access.groups);
    var known := if access.reread then db.groups else [];
    Image(if access.hosts then SetPath(c, HOSTS_PATH, snap.hosts) else c,
          db.(items := ItemsPushed(db.items, snap.clients, known, access.clients)),
          ItemsPushed(n.lists, snap.lists, known, access.lists),
          ItemsPushed(n.domains, snap.domains, known, access.domains))
  }

  /** Every write succeeds. */
  ghost predicate AllWritten(snap: Snap, access: Access)
  {
    access.hosts && AllButHostsWritten(snap, access)
  }

  /** Every write but that of the reservations, which a clone may leave out. */
  ghost predicate AllButHostsWritten(snap: Snap, access: Access)
  {
    && (forall i :: 0 <= i < |snap.scalars| ==> snap.scalars[i].0 in access.scalars)
    && (forall i :: 0 <= i < |snap.groups| ==> snap.groups[i].0 in access.groups)
    && snap.clients.Keys <= access.clients && snap.lists.Keys <= access.lists && snap.domains.Keys <= access.domains
  }

  class PiHole {
    var config: Value
    var db: Db<string>
    var lists: map<string, Item<ListAttrs>>
    var domains: map<string, Item<DomainAttrs>>

    function Current(): Image
      reads this
    {
      Image(config, db, lists, domains)
    }

    constructor (n: Image)
      ensures Current() == n
    {
      config, db, lists, domains := n.config, n.db, n.lists, n.domains;
    }

    static method CapturePaths(config: Value, paths: seq<Path>) returns (scalars: Settings)
      ensures scalars == Found(config, paths)
    {
      hide FilterMap, GetPath;
      scalars := [];
      ghost var found := p => FoundOne(config, p);
      NothingCollected(paths, found);
      for i := 0 to |paths|
        invariant scalars == FilterMap(paths[..i], found)
      {
        FilterMapStep(paths, i, found);
        var v := WalkPath(config, paths[i]);
        if v.Some? {
          scalars := scalars + [(paths[i], v.value)];
        }
      }
      assert paths[..|paths|] == paths;
      FoundSame(config, paths, found);
    }

    method CaptureConfig() returns (scalars: Settings, hosts: Value)
      ensures forall p, v :: (p, v) in scalars <==> p in SCALAR_PATHS && GetPath(config, p) == Some(v)
      ensures hosts == if GetPath(config, HOSTS_PATH).Some? then GetPath(config, HOSTS_PATH).value else Some(Lines([]))
      ensures scalars == Found(config, SCALAR_PATHS) && hosts == HostsIn(config)
    {
      SettingsFound(config);
      hide Found, SCALAR_PATHS, GetPath, HOSTS_PATH;
      scalars := CapturePaths(config, SCALAR_PATHS);
      var h := WalkPath(config, HOSTS_PATH);
      hosts := h.GetOr(Some(Lines([])));
    }

    method Capture(got: CaptureReads) returns (snap: Option<Snap>)
      ensures snap.Some? <==> got.config
      ensures snap == CapturedBy(Current(), got)
    {
      hide Found, HostsIn, ItemsShown, GroupList;
      if !got.config {
        return None;
      }
      var scalars, hosts := CaptureConfig();
      var groups := if got.groups then db.groups else [];
      var clients := if got.clients then db.items else map[];
      var adlists := if got.lists then lists else map[];
      var overrides := if got.domains then domains else map[];
      snap := Some(Snap(scalars, hosts, GroupList(groups), ItemsShown(groups, clients), ItemsShown(groups, adlists), ItemsShown(groups, overrides)));
    }

    method WriteScalars(scalars: Settings, accepts: set<Path>) returns (ok: bool)
      modifies this`config
      ensures config == ScalarsSet(old(config), scalars, accepts)
      ensures ok <==> forall i :: 0 <= i < |scalars| ==> scalars[i].0 in accepts
    {
      ok := true;
      for i := 0 to |scalars|
        invariant config == ScalarsSet(old(config), scalars[..i], accepts)
        invariant ok <==> forall j :: 0 <= j < i ==> scalars[j].0 in accepts
      {
        assert scalars[..i + 1][..i] == scalars[..i];
        var (p, v) := scalars[i];
        if p in accepts {
          config := SetPath(config, p, v);
        } else {
          ok := false;
        }
      }
      assert scalars[..|scalars|] == scalars;
    }

    method WriteGroups(groups: seq<(string, GroupValue)>, accepts: set<string>) returns (ok: bool)
      modifies this`db
      ensures db == GroupsPosted(old(db), groups, accepts)
      ensures ok <==> forall i :: 0 <= i < |groups| ==> groups[i].0 in accepts
    {
      hide PostGroup;
      ok := true;
      for i := 0 to |groups|
        invariant db == GroupsPosted(old(db), groups[..i], accepts)
        invariant ok <==> forall j :: 0 <= j < i ==> groups[j].0 in accepts
      {
        assert groups[..i + 1][..i] == groups[..i];
        var (name, v) := groups[i];
        if name in accepts {
          db := PostGroup(db, name, v);
        } else {
          ok := false;
        }
      }
      assert groups[..|groups|] == groups;
    }

    /** The items in whatever order the dictionary gives them. */
    static method WriteItems<A>(before: map<string, Item<A>>, source: map<string, Named<A>>, groups: seq<Group>, accepts: set<string>)
        returns (items: map<string, Item<A>>, ok: bool)
      ensures items == ItemsPushed(before, source, groups, accepts)
      ensures ok <==> source.Keys <= accepts
    {
      hide Pushed;
      items, ok := before, true;
      var rest := source.Keys;
      while rest != {}
        invariant rest <= source.Keys
        invariant items.Keys == before.Keys + ((source.Keys - rest) * accepts)
        invariant forall k :: k in items ==> items[k] == if k in source && k !in rest && k in accepts then Pushed(groups, source[k]) else before[k]
        invariant ok <==> source.Keys - rest <= accepts
      {
        var k :| k in rest;
        rest := rest - {k};
        if k in accepts {
          items := items[k := Pushed(groups, source[k])];
        } else {
          ok := false;
          assert k in source.Keys - rest;
        }
      }
    }

    method Restore(snap: Snap, access: Access) returns (ok: bool)
      modifies this
      ensures Current() == Restored(old(Current()), snap, access)
      ensures ok <==> AllWritten(snap, access)
    {
      hide ScalarsSet, GroupsPosted, ItemsPushed, SetPath;
      var scalarsOk := WriteScalars(snap.scalars, access.scalars);
      if access.hosts {
        config := SetPath(config, HOSTS_PATH, snap.hosts);
      }
      var groupsOk := WriteGroups(snap.groups, access.groups);
      var known := if access.reread then db.groups else [];
      var clients, clientsOk := WriteItems(db.items, snap.clients, known, access.clients);
      db := db.(items := clients);
      var listsOk, domainsOk;
      lists, listsOk := WriteItems(lists, snap.lists, known, access.lists);
      domains, domainsOk := WriteItems(domains, snap.domains, known, access.domains);
      ok := scalarsOk && access.hosts && groupsOk && clientsOk && listsOk && domainsOk;
    }
  }

  lemma FoundSame(config: Value, paths: seq<Path>, f: Path -> Option<(Path, Value)>)
    requires forall p :: f(p) == FoundOne(config, p)
    ensures FilterMap(paths, f) == Found(config, paths)
  {
    hide FoundOne;
    if paths != [] {
      FoundSame(config, paths[1..], f);
    }
  }

  // --- What a restore achieves ---

  /** A pushed item has its new settings; one whose push was refused, or that was not to be pushed, is as it was. */
  ghost predicate OnlyAccepted<A>(items: map<string, Item<A>>, after: map<string, Item<A>>, source: map<string, Named<A>>, accepts: set<string>)
  {
    && (forall k :: k in source && k in accepts ==> k in after && after[k].attrs == source[k].attrs)
    && (forall k :: !(k in source && k in accepts) ==> Get(after, k) == Get(items, k))
  }

  lemma PushesOnlyAccepted<A>(items: map<string, Item<A>>, source: map<string, Named<A>>, groups: seq<Group>, accepts: set<string>)
    ensures OnlyAccepted(items, ItemsPushed(items, source, groups, accepts), source, accepts)
  {
    hide IdsOf;
  }

  lemma {:induction false} PostsOnlyAccepted(db: Db<string>, groups: seq<(string, GroupValue)>, accepts: set<string>, n: string)
    requires Sound(db)
    ensures
      var d := GroupsPosted(db, groups, accepts);
      Sound(d) && ValueIn(d.groups, n) == if n in accepts && Listed(groups, n).Some? then Listed(groups, n) else ValueIn(db.groups, n)
  {
    if groups != [] {
      hide ValueIn, IdOf, Sound, PostGroup;
      var init, last := groups[..|groups| - 1], groups[|groups| - 1];
      PostsOnlyAccepted(db, init, accepts, n);
      PostGroupAt(GroupsPosted(db, init, accepts), last.0, last.1, n);
    }
  }

  /** Each write of a restore lands or fails by itself: what was accepted is there, and where a write was
      refused the node is as it was. */
  lemma EachWriteByItself(n: Image, snap: Snap, access: Access)
    requires Sound(n.db) && Consistent(snap.scalars)
    ensures
      var after := Restored(n, snap, access);
      && (forall i :: 0 <= i < |snap.scalars| ==>
            GetPath(after.config, snap.scalars[i].0)
            == if snap.scalars[i].0 in access.scalars then Some(snap.scalars[i].1) else GetPath(n.config, snap.scalars[i].0))
      && GetPath(after.config, HOSTS_PATH) == (if access.hosts then Some(snap.hosts) else GetPath(n.config, HOSTS_PATH))
      && (forall name :: ValueIn(after.db.groups, name)
            == if name in access.groups && Listed(snap.groups, name).Some? then Listed(snap.groups, name) else ValueIn(n.db.groups, name))
      && OnlyAccepted(n.db.items, after.db.items, snap.clients, access.clients)
      && OnlyAccepted(n.lists, after.lists, snap.lists, access.lists)
      && OnlyAccepted(n.domains, after.domains, snap.domains, access.domains)
  {
    ConfigRestored(n.config, snap, access);
    var db := GroupsPosted(n.db, snap.groups, access.groups);
    var known := if access.reread then db.groups else [];
    PostedItems(n.db, snap.groups, access.groups);
    hide Consistent, ScalarsSet, GetPath, SetPath, Apart, ItemsPushed, OnlyAccepted, GroupsPosted, ValueIn, Listed, Sound;
    forall name ensures ValueIn(db.groups, name)
        == if name in access.groups && Listed(snap.groups, name).Some? then Listed(snap.groups, name) else ValueIn(n.db.groups, name) {
      PostsOnlyAccepted(n.db, snap.groups, access.groups, name);
    }
    PushesOnlyAccepted(db.items, snap.clients, known, access.clients);
    PushesOnlyAccepted(n.lists, snap.lists, known, access.lists);
    PushesOnlyAccepted(n.domains, snap.domains, known, access.domains);
  }

  /** Settings that can be written in any order: equal paths have equal values, other paths are
      apart, and none touches the reservations. */
  ghost predicate Consistent(scalars: Settings)
  {
    && (forall i, j :: 0 <= i < j < |scalars| ==> scalars[i] == scalars[j] || Apart(scalars[i].0, scalars[j].0))
    && (forall i :: 0 <= i < |scalars| ==> Apart(scalars[i].0, HOSTS_PATH))
  }

  lemma {:induction false} ScalarsLand(config: Value, scalars: Settings, accepts: set<Path>, i: nat)
    requires Consistent(scalars) && i < |scalars| && scalars[i].0 in accepts
    ensures GetPath(ScalarsSet(config, scalars, accepts), scalars[i].0) == Some(scalars[i].1)
  {
    hide GetPath, SetPath, Apart;
    var init, last := scalars[..|scalars| - 1], scalars[|scalars| - 1];
    var c := ScalarsSet(config, init, accepts);
    GetSet(c, last.0, last.1);
    if i < |init| {
      assert init[i] == scalars[i];
      ScalarsLand(config, init, accepts, i);
      if scalars[i] != last {
        ApartSymmetric(scalars[i].0, last.0);
        GetSetApart(c, last.0, scalars[i].0, last.1);
      }
    }
  }

  lemma ApartSymmetric(p: Path, q: Path)
    ensures Apart(p, q) <==> Apart(q, p)
  {
  }

  lemma {:induction false} ScalarsFrame(config: Value, scalars: Settings, accepts: set<Path>, q: Path)
    requires forall i :: 0 <= i < |scalars| ==> Apart(scalars[i].0, q)
    ensures GetPath(ScalarsSet(config, scalars, accepts), q) == GetPath(config, q)
  {
    if scalars != [] {
      hide GetPath, SetPath, Apart;
      var init, last := scalars[..|scalars| - 1], scalars[|scalars| - 1];
      ScalarsFrame(config, init, accepts, q);
      GetSetApart(ScalarsSet(config, init, accepts), last.0, q, last.1);
    }
  }

  /** A refused write leaves its path alone, and so do all the others. */
  lemma {:induction false} ScalarRefused(config: Value, scalars: Settings, accepts: set<Path>, p: Path)
    requires p !in accepts && forall i :: 0 <= i < |scalars| ==> scalars[i].0 == p || Apart(scalars[i].0, p)
    ensures GetPath(ScalarsSet(config, scalars, accepts), p) == GetPath(config, p)
  {
    if scalars != [] {
      hide GetPath, SetPath, Apart;
      var init, last := scalars[..|scalars| - 1], scalars[|scalars| - 1];
      ScalarRefused(config, init, accepts, p);
      if last.0 in accepts {
        GetSetApart(ScalarsSet(config, init, accepts), last.0, p, last.1);
      }
    }
  }

  lemma FoundAt(config: Value, paths: seq<Path>, e: (Path, Value))
    ensures e in Found(config, paths) <==> e.0 in paths && GetPath(config, e.0) == Some(e.1)
  {
    hide GetPath;
  }

  lemma SettingsFound(config: Value)
    ensures forall p, v :: (p, v) in Found(config, SCALAR_PATHS) <==> p in SCALAR_PATHS && GetPath(config, p) == Some(v)
  {
    hide *;
    forall p, v ensures (p, v) in Found(config, SCALAR_PATHS) <==> p in SCALAR_PATHS && GetPath(config, p) == Some(v) {
      FoundAt(config, SCALAR_PATHS, (p, v));
    }
  }

  /** What was captured, of any of the managed paths, can be written back in any order. */
  lemma CapturedConsistent(config: Value, paths: seq<Path>)
    requires forall p :: p in paths ==> p in SCALAR_PATHS
    ensures Consistent(Found(config, paths))
  {
    hide *;
    var s := Found(config, paths);
    forall i | 0 <= i < |s| ensures s[i].0 in SCALAR_PATHS && GetPath(config, s[i].0) == Some(s[i].1) && Apart(s[i].0, HOSTS_PATH) {
      FoundAt(config, paths, s[i]);
      HostsApart(s[i].0);
    }
    forall i, j | 0 <= i < j < |s| ensures s[i] == s[j] || Apart(s[i].0, s[j].0) {
      if s[i].0 != s[j].0 {
        ScalarPathsApart(s[i].0, s[j].0);
      }
    }
    ConsistentIs(s);
  }

  lemma ConsistentIs(s: Settings)
    requires forall i, j :: 0 <= i < j < |s| ==> s[i] == s[j] || Apart(s[i].0, s[j].0)
    requires forall i :: 0 <= i < |s| ==> Apart(s[i].0, HOSTS_PATH)
    ensures Consistent(s)
  {
    hide Apart;
  }

  /** The value a list of groups gives a name. */
  function Listed(groups: seq<(string, GroupValue)>, n: string): Option<GroupValue>
  {
    if groups == [] then None
    else if groups[|groups| - 1].0 == n then Some(groups[|groups| - 1].1)
    else Listed(groups[..|groups| - 1], n)
  }

  /** Groups land under the node's own ids, and groups that are not written are untouched. */
  ghost predicate GroupLanded(before: seq<Group>, after: seq<Group>, list: seq<(string, GroupValue)>, n: string)
  {
    && ValueIn(after, n) == (if Listed(list, n).Some? then Listed(list, n) else ValueIn(before, n))
    && (Knows(before, n) ==> IdOf(after, n) == IdOf(before, n))
  }

  lemma {:induction false} GroupsLand(db: Db<string>, groups: seq<(string, GroupValue)>, accepts: set<string>, n: string)
    requires Sound(db) && forall i :: 0 <= i < |groups| ==> groups[i].0 in accepts
    ensures
      var d := GroupsPosted(db, groups, accepts);
      Sound(d) && d.items == db.items && GroupLanded(db.groups, d.groups, groups, n)
  {
    if groups != [] {
      hide ValueIn, IdOf, Sound, PostGroup;
      var init, last := groups[..|groups| - 1], groups[|groups| - 1];
      GroupsLand(db, init, accepts, n);
      PostGroupAt(GroupsPosted(db, init, accepts), last.0, last.1, n);
    }
  }

  /** The ids that names are turned into are ids of the node's groups. */
  lemma PushedNamed<A>(groups: seq<Group>, v: Named<A>)
    ensures AllNamed(groups, Pushed(groups, v))
  {
    hide NameOf, IdOf;
    var ids := IdsOf(groups, v.names);
    forall i | 0 <= i < |ids| ensures NameOf(groups, ids[i]).Some? {
      assert ids[i] in ids;
      var name :| name in v.names && IdOf(groups, name) == Some(ids[i]);
      IdIsNamed(groups, name);
    }
  }

  lemma IdIsNamed(groups: seq<Group>, name: string)
    requires IdOf(groups, name).Some?
    ensures NameOf(groups, IdOf(groups, name).value).Some?
  {
  }

  /** An item that was pushed shows the names it was pushed with, as far as the node knows them. */
  lemma ItemLands<A>(items: map<string, Item<A>>, source: map<string, Named<A>>, groups: seq<Group>, accepts: set<string>, k: string)
    requires WellFormed(groups) && source.Keys <= accepts
    ensures
      var r := ItemsPushed(items, source, groups, accepts);
      && (k in source ==> k in r && Shows(groups, r[k]) == Named(source[k].attrs, KnownOf(groups, source[k].names)) && AllNamed(groups, r[k]))
      && (k !in source ==> Get(r, k) == Get(items, k))
  {
    hide WellFormed, KnownOf, Shown, IdsOf, AllNamed;
    if k in source {
      PushedNamed(groups, source[k]);
      ThereAndBack(groups, source[k].names);
      assert ItemsPushed(items, source, groups, accepts)[k] == Pushed(groups, source[k]);
    }
  }

  lemma ItemUnassigned<A>(items: map<string, Item<A>>, source: map<string, Named<A>>, accepts: set<string>, k: string)
    requires source.Keys <= accepts && k in source
    ensures
      var r := ItemsPushed(items, source, [], accepts);
      k in r && r[k] == Item(source[k].attrs, [])
  {
    assert ItemsPushed(items, source, [], accepts)[k] == Pushed([], source[k]);
    NoIds(source[k].names);
  }

  lemma {:induction false} NoIds(names: seq<string>)
    ensures IdsOf([], names) == []
  {
    if names != [] {
      NoIds(names[1..]);
    }
  }

  /** Items read as the snapshot has them, with all their names; other items are the same as before and,
      since no group changes its id, show the same names. */
  ghost predicate ItemsRestored<A>(before: seq<Group>, after: seq<Group>, items: map<string, Item<A>>, items': map<string, Item<A>>,
                                   source: map<string, Named<A>>)
  {
    forall k ::
      && (k in source ==> k in items' && Shows(after, items'[k]) == source[k] && AllNamed(after, items'[k]))
      && (k !in source ==> Get(items', k) == Get(items, k))
      && (k !in source && k in items && AllNamed(before, items[k]) ==> Shows(after, items[k]) == Shows(before, items[k]))
  }

  ghost predicate AllNamed<A>(groups: seq<Group>, item: Item<A>)
  {
    forall i :: 0 <= i < |item.groups| ==> NameOf(groups, item.groups[i]).Some?
  }

  ghost predicate IdsStay(before: seq<Group>, after: seq<Group>)
  {
    forall n :: Knows(before, n) ==> IdOf(after, n) == IdOf(before, n)
  }

  lemma NamesStay<A>(before: seq<Group>, after: seq<Group>, item: Item<A>)
    requires WellFormed(before) && WellFormed(after) && IdsStay(before, after) && AllNamed(before, item)
    ensures Shows(after, item) == Shows(before, item)
  {
    hide WellFormed, IdOf, NameOf;
    forall i | 0 <= i < |item.groups| ensures Shown(after, item.groups[i]) == Shown(before, item.groups[i]) {
      var id := item.groups[i];
      IdOfName(before, id);
      NameOfId(after, Shown(before, id));
    }
  }

  /** Every name an item uses is a group of the snapshot or of the node. */
  ghost predicate NamesKnown<A>(groups: seq<Group>, source: map<string, Named<A>>)
  {
    forall k, i :: k in source && 0 <= i < |source[k].names| ==> Knows(groups, source[k].names[i])
  }

  lemma AllNamesKnown(groups: seq<Group>, names: seq<string>)
    requires forall i :: 0 <= i < |names| ==> Knows(groups, names[i])
    ensures KnownOf(groups, names) == names
  {
    hide Knows;
    FilterAll(names, name => Knows(groups, name));
  }

  lemma ItemsLand<A>(before: seq<Group>, groups: seq<Group>, items: map<string, Item<A>>, source: map<string, Named<A>>, accepts: set<string>)
    requires WellFormed(before) && WellFormed(groups) && IdsStay(before, groups)
    requires source.Keys <= accepts && NamesKnown(groups, source)
    ensures ItemsRestored(before, groups, items, ItemsPushed(items, source, groups, accepts), source)
  {
    hide WellFormed, KnownOf, Knows, Shown, ItemsPushed, Shows, IdsStay, AllNamed;
    var landed := ItemsPushed(items, source, groups, accepts);
    forall k
      ensures k in source ==> k in landed && Shows(groups, landed[k]) == source[k] && AllNamed(groups, landed[k])
      ensures k !in source ==> Get(landed, k) == Get(items, k)
      ensures k !in source && k in items && AllNamed(before, items[k]) ==> Shows(groups, items[k]) == Shows(before, items[k])
    {
      ItemLands(items, source, groups, accepts, k);
      if k in source {
        AllNamesKnown(groups, source[k].names);
      } else if k in items && AllNamed(before, items[k]) {
        NamesStay(before, groups, items[k]);
      }
    }
  }

  /** What the target looks like after every write and the second read of the groups succeeded; where the
      reservations are not written they stay as they were. */
  ghost predicate Reproduced(before: Image, after: Image, snap: Snap, withHosts: bool)
  {
    && (forall i :: 0 <= i < |snap.scalars| ==> GetPath(after.config, snap.scalars[i].0) == Some(snap.scalars[i].1))
    && GetPath(after.config, HOSTS_PATH) == (if withHosts then Some(snap.hosts) else GetPath(before.config, HOSTS_PATH))
    && (forall q :: Apart(q, HOSTS_PATH) && (forall i :: 0 <= i < |snap.scalars| ==> Apart(snap.scalars[i].0, q)) ==>
          GetPath(after.config, q) == GetPath(before.config, q))
    && (forall n :: GroupLanded(before.db.groups, after.db.groups, snap.groups, n))
    && ItemsRestored(before.db.groups, after.db.groups, before.db.items, after.db.items, snap.clients)
    && ItemsRestored(before.db.groups, after.db.groups, before.lists, after.lists, snap.lists)
    && ItemsRestored(before.db.groups, after.db.groups, before.domains, after.domains, snap.domains)
  }

  /** The names of a snapshot's items are among its groups. */
  ghost predicate Closed(snap: Snap)
  {
    && Consistent(snap.scalars)
    && NamesIn(snap.groups, snap.clients) && NamesIn(snap.groups, snap.lists) && NamesIn(snap.groups, snap.domains)
  }

  ghost predicate NamesIn<A>(groups: seq<(string, GroupValue)>, source: map<string, Named<A>>)
  {
    forall k, i :: k in source && 0 <= i < |source[k].names| ==> Listed(groups, source[k].names[i]).Some?
  }

  lemma AllApartOrSame(s: Settings, i: nat)
    requires Consistent(s) && i < |s|
    ensures forall j :: 0 <= j < |s| ==> s[j].0 == s[i].0 || Apart(s[j].0, s[i].0)
  {
    hide Apart;
    forall j | 0 <= j < |s| ensures s[j].0 == s[i].0 || Apart(s[j].0, s[i].0) {
      ApartSymmetric(s[i].0, s[j].0);
    }
  }

  lemma ConfigRestored(config: Value, snap: Snap, access: Access)
    requires Consistent(snap.scalars)
    ensures
      var c := ScalarsSet(config, snap.scalars, access.scalars);
      var after := if access.hosts then SetPath(c, HOSTS_PATH, snap.hosts) else c;
      && (forall i :: 0 <= i < |snap.scalars| ==>
            GetPath(after, snap.scalars[i].0)
            == if snap.scalars[i].0 in access.scalars then Some(snap.scalars[i].1) else GetPath(config, snap.scalars[i].0))
      && GetPath(after, HOSTS_PATH) == (if access.hosts then Some(snap.hosts) else GetPath(config, HOSTS_PATH))
      && (forall q :: Apart(q, HOSTS_PATH) && (forall i :: 0 <= i < |snap.scalars| ==> Apart(snap.scalars[i].0, q)) ==>
            GetPath(after, q) == GetPath(config, q))
  {
    hide GetPath, SetPath, Apart, ScalarsSet;
    var c := ScalarsSet(config, snap.scalars, access.scalars);
    GetSet(c, HOSTS_PATH, snap.hosts);
    ScalarsFrame(config, snap.scalars, access.scalars, HOSTS_PATH);
    forall i | 0 <= i < |snap.scalars|
      ensures GetPath(c, snap.scalars[i].0)
           == if snap.scalars[i].0 in access.scalars then Some(snap.scalars[i].1) else GetPath(config, snap.scalars[i].0)
      ensures GetPath(SetPath(c, HOSTS_PATH, snap.hosts), snap.scalars[i].0) == GetPath(c, snap.scalars[i].0)
    {
      if snap.scalars[i].0 in access.scalars {
        ScalarsLand(config, snap.scalars, access.scalars, i);
      } else {
        AllApartOrSame(snap.scalars, i);
        ScalarRefused(config, snap.scalars, access.scalars, snap.scalars[i].0);
      }
      ApartSymmetric(snap.scalars[i].0, HOSTS_PATH);
      GetSetApart(c, HOSTS_PATH, snap.scalars[i].0, snap.hosts);
    }
    forall q | Apart(q, HOSTS_PATH) && (forall i :: 0 <= i < |snap.scalars| ==> Apart(snap.scalars[i].0, q))
      ensures GetPath(c, q) == GetPath(config, q)
      ensures GetPath(SetPath(c, HOSTS_PATH, snap.hosts), q) == GetPath(config, q)
    {
      ScalarsFrame(config, snap.scalars, access.scalars, q);
      ApartSymmetric(q, HOSTS_PATH);
      GetSetApart(c, HOSTS_PATH, q, snap.hosts);
    }
  }

  lemma GroupsRestored(db: Db<string>, snap: Snap, access: Access)
    requires Sound(db) && Closed(snap) && forall i :: 0 <= i < |snap.groups| ==> snap.groups[i].0 in access.groups
    ensures
      var d := GroupsPosted(db, snap.groups, access.groups);
      && Sound(d) && d.items == db.items && (forall n :: GroupLanded(db.groups, d.groups, snap.groups, n))
      && NamesKnown(d.groups, snap.clients) && NamesKnown(d.groups, snap.lists) && NamesKnown(d.groups, snap.domains)
  {
    hide ValueIn, IdOf, Sound, GroupsPosted, Consistent, GroupLanded, NamesIn;
    var d := GroupsPosted(db, snap.groups, access.groups);
    GroupsLand(db, snap.groups, access.groups, "");
    forall n ensures GroupLanded(db.groups, d.groups, snap.groups, n) {
      GroupsLand(db, snap.groups, access.groups, n);
    }
    NamesBecomeKnown(db, d, snap.groups, snap.clients);
    NamesBecomeKnown(db, d, snap.groups, snap.lists);
    NamesBecomeKnown(db, d, snap.groups, snap.domains);
  }

  lemma LandedIdsStay(before: seq<Group>, after: seq<Group>, list: seq<(string, GroupValue)>)
    requires forall n :: GroupLanded(before, after, list, n)
    ensures IdsStay(before, after)
  {
    hide ValueIn, IdOf, Listed;
    forall n | Knows(before, n) ensures IdOf(after, n) == IdOf(before, n) {
      assert GroupLanded(before, after, list, n);
    }
  }

  lemma NamesBecomeKnown<A>(db: Db<string>, d: Db<string>, list: seq<(string, GroupValue)>, source: map<string, Named<A>>)
    requires NamesIn(list, source) && forall n :: GroupLanded(db.groups, d.groups, list, n)
    ensures NamesKnown(d.groups, source)
  {
    hide Knows, Listed, ValueIn, IdOf;
    forall k, i | k in source && 0 <= i < |source[k].names| ensures Knows(d.groups, source[k].names[i]) {
      var n := source[k].names[i];
      assert GroupLanded(db.groups, d.groups, list, n);
      KnowsIsValue(d.groups, n);
    }
  }

  /** A restore with every write and the second read succeeding reproduces the snapshot on any node,
      and leaves whatever is not in the snapshot as it was; so does one that leaves the
      reservations out, for the rest. */
  lemma RestoreReproduces(n: Image, snap: Snap, access: Access)
    requires Sound(n.db) && Closed(snap) && AllButHostsWritten(snap, access) && access.reread
    ensures Reproduced(n, Restored(n, snap, access), snap, access.hosts)
  {
    ConfigRestored(n.config, snap, access);
    GroupsRestored(n.db, snap, access);
    LandedIdsStay(n.db.groups, GroupsPosted(n.db, snap.groups, access.groups).groups, snap.groups);
    hide IdsStay, ValueIn, IdOf, Knows, GroupLanded, GroupsPosted, Consistent, GetPath, SetPath, Apart, ScalarsSet, NamesKnown, NamesIn, ItemsRestored, ItemsPushed, WellFormed;
    var db := GroupsPosted(n.db, snap.groups, access.groups);
    ItemsLand(n.db.groups, db.groups, n.db.items, snap.clients, access.clients);
    ItemsLand(n.db.groups, db.groups, n.lists, snap.lists, access.lists);
    ItemsLand(n.db.groups, db.groups, n.domains, snap.domains, access.domains);
  }

  /** What a node of sound groups captures, when only its own groups are assigned, is closed. */
  ghost predicate OwnGroups<A>(groups: seq<Group>, items: map<string, Item<A>>)
  {
    forall k :: k in items ==> AllNamed(groups, items[k])
  }

  /** A node whose items are assigned to its own groups only. */
  ghost predicate Healthy(n: Image)
  {
    Sound(n.db) && OwnGroups(n.db.groups, n.db.items) && OwnGroups(n.db.groups, n.lists) && OwnGroups(n.db.groups, n.domains)
  }

  lemma ShownIn<A>(groups: seq<Group>, items: map<string, Item<A>>)
    requires WellFormed(groups) && OwnGroups(groups, items)
    ensures NamesIn(GroupList(groups), ItemsShown(groups, items))
  {
    hide Shown, NameOf, Listed, IdOf;
    var list, source := GroupList(groups), ItemsShown(groups, items);
    forall k, i | k in source && 0 <= i < |source[k].names| ensures Listed(list, source[k].names[i]).Some? {
      var id := items[k].groups[i];
      assert source[k].names[i] == Shown(groups, id);
      IdOfName(groups, id);
      KnowsIsValue(groups, Shown(groups, id));
      ListedIsValue(groups, Shown(groups, id));
    }
  }

  /** The captured groups are the node's. */
  lemma {:induction false} ListedIsValue(groups: seq<Group>, n: string)
    ensures Listed(GroupList(groups), n) == ValueIn(groups, n)
  {
    if groups != [] {
      var init := groups[..|groups| - 1];
      ListedIsValue(init, n);
      assert GroupList(groups)[..|groups| - 1] == GroupList(init);
    }
  }

  lemma CapturedClosed(n: Image)
    requires Healthy(n)
    ensures Closed(Captured(n))
  {
    hide Found, ItemsShown, NameOf, NamesIn;
    CapturedConsistent(n.config, SCALAR_PATHS);
    ShownIn(n.db.groups, n.db.items);
    ShownIn(n.db.groups, n.lists);
    ShownIn(n.db.groups, n.domains);
  }

  /** Restoring a whole capture reproduces it. */
  lemma CaptureReproduced(source: Image, target: Image, access: Access)
    requires Healthy(source) && Sound(target.db) && AllWritten(Captured(source), access) && access.reread
    ensures Reproduced(target, Restored(target, Captured(source), access), Captured(source), true)
  {
    hide Captured, Restored, Reproduced, Closed, AllButHostsWritten;
    CapturedClosed(source);
    RestoreReproduces(target, Captured(source), access);
  }

  /** Whatever could not be read is empty on the node. */
  ghost predicate LosesNothing(n: Image, got: CaptureReads)
  {
    && (got.groups || n.db.groups == []) && (got.clients || n.db.items == map[])
    && (got.lists || n.lists == map[]) && (got.domains || n.domains == map[])
  }

  const EMPTY := Image(None, Db([], 0, map[]), map[], map[])

  lemma UnreadGroupsShow(groups: seq<Group>, accepts: set<string>)
    requires forall n :: GroupLanded([], GroupsPosted(EMPTY.db, [], accepts).groups, GroupList(groups), n)
    ensures groups == []
  {
    assert GroupsPosted(EMPTY.db, [], accepts).groups == [];
    forall g | g in groups ensures Listed(GroupList(groups), g.name).None? {
      assert GroupLanded([], [], GroupList(groups), g.name);
    }
    if groups != [] {
      LastListed(groups);
      assert false;
    }
  }

  lemma LastListed(groups: seq<Group>)
    requires groups != []
    ensures Listed(GroupList(groups), groups[|groups| - 1].name).Some?
  {
  }

  lemma UnreadItemsShow<A>(before: seq<Group>, after: seq<Group>, known: seq<Group>, groups: seq<Group>, items: map<string, Item<A>>, accepts: set<string>)
    requires ItemsRestored(before, after, map[], ItemsPushed(map[], map[], known, accepts), ItemsShown(groups, items))
    ensures items == map[]
  {
    hide Shows, AllNamed;
    forall k ensures k !in items {
      assert k in ItemsShown(groups, items) ==> k in ItemsPushed<A>(map[], map[], known, accepts);
    }
  }

  lemma {:induction false} PostedItems(db: Db<string>, groups: seq<(string, GroupValue)>, accepts: set<string>)
    ensures GroupsPosted(db, groups, accepts).items == db.items
  {
    if groups != [] {
      hide Map, Knows, Renewed;
      PostedItems(db, groups[..|groups| - 1], accepts);
    }
  }

  /** On an empty node nothing is restored that was not captured. */
  lemma NothingShown<A>(groups: seq<Group>)
    ensures GroupList([]) == [] && ItemsShown<A>(groups, map[]) == map[]
  {
  }

  lemma UnreadParts(source: Image, got: CaptureReads)
    requires got.config
    ensures
      var snap := CapturedBy(source, got).value;
      && (!got.groups ==> snap.groups == []) && (!got.clients ==> snap.clients == map[])
      && (!got.lists ==> snap.lists == map[]) && (!got.domains ==> snap.domains == map[])
  {
    hide Found, HostsIn, GroupList, ItemsShown;
    var groups := if got.groups then source.db.groups else [];
    NothingShown<string>(groups);
    NothingShown<ListAttrs>(groups);
    NothingShown<DomainAttrs>(groups);
  }

  /** What reproducing a capture on an empty node means for the parts that are written. */
  lemma PartsRestored(source: Image, snap: Snap, access: Access)
    requires Reproduced(EMPTY, Restored(EMPTY, snap, access), Captured(source), true)
    ensures
      var posted := GroupsPosted(EMPTY.db, snap.groups, access.groups).groups;
      var known := if access.reread then posted else [];
      && (forall n :: GroupLanded([], posted, GroupList(source.db.groups), n))
      && ItemsRestored([], posted, map[], ItemsPushed(map[], snap.clients, known, access.clients), ItemsShown(source.db.groups, source.db.items))
      && ItemsRestored([], posted, map[], ItemsPushed(map[], snap.lists, known, access.lists), ItemsShown(source.db.groups, source.lists))
      && ItemsRestored([], posted, map[], ItemsPushed(map[], snap.domains, known, access.domains), ItemsShown(source.db.groups, source.domains))
  {
    hide Found, HostsIn, GetPath, SetPath, ScalarsSet, GroupLanded, GroupsPosted, ItemsRestored, ItemsPushed, ItemsShown, GroupList;
    PostedItems(EMPTY.db, snap.groups, access.groups);
  }

  lemma EmptyShowsLoss(source: Image, got: CaptureReads, access: Access)
    requires got.config && Reproduced(EMPTY, Restored(EMPTY, CapturedBy(source, got).value, access), Captured(source), true)
    ensures LosesNothing(source, got)
  {
    assert CapturedBy(source, got).Some?;
    hide *;
    var snap := CapturedBy(source, got).value;
    var posted := GroupsPosted(EMPTY.db, snap.groups, access.groups).groups;
    var known := if access.reread then posted else [];
    UnreadParts(source, got);
    PartsRestored(source, snap, access);
    if !got.groups {
      UnreadGroupsShow(source.db.groups, access.groups);
    }
    if !got.clients {
      UnreadItemsShow([], posted, known, source.db.groups, source.db.items, access.clients);
    }
    if !got.lists {
      UnreadItemsShow([], posted, known, source.db.groups, source.lists, access.lists);
    }
    if !got.domains {
      UnreadItemsShow([], posted, known, source.db.groups, source.domains, access.domains);
    }
    NothingIs(source, got);
  }

  lemma NothingIs(source: Image, got: CaptureReads)
    requires (got.groups || source.db.groups == []) && (got.clients || source.db.items == map[])
    requires (got.lists || source.lists == map[]) && (got.domains || source.domains == map[])
    ensures LosesNothing(source, got)
  {
  }

  lemma NothingLost(source: Image, got: CaptureReads)
    requires got.config && LosesNothing(source, got)
    ensures CapturedBy(source, got) == Some(Captured(source))
  {
    hide Found, HostsIn, GroupList, Shows;
  }

  lemma EmptyIsSound()
    ensures Sound(EMPTY.db)
  {
  }

  /** A capture reports success whatever reads fail after the first. Restoring it reproduces the captured
      node on every node exactly when whatever could not be read was empty there. */
  lemma CaptureReproducesIff(source: Image, got: CaptureReads, access: Access)
    requires Healthy(source) && got.config && AllWritten(Captured(source), access) && access.reread
    ensures
      (forall target: Image :: Sound(target.db) ==>
         Reproduced(target, Restored(target, CapturedBy(source, got).value, access), Captured(source), true))
      <==> LosesNothing(source, got)
  {
    hide Captured, Restored, Reproduced, Closed, AllButHostsWritten, LosesNothing, Sound, OwnGroups;
    if LosesNothing(source, got) {
      NothingLost(source, got);
      forall target: Image | Sound(target.db) ensures Reproduced(target, Restored(target, Captured(source), access), Captured(source), true) {
        CaptureReproduced(source, target, access);
      }
    }
    if forall target: Image :: Sound(target.db) ==> Reproduced(target, Restored(target, CapturedBy(source, got).value, access), Captured(source), true) {
      EmptyIsSound();
      EmptyShowsLoss(source, got, access);
    }
  }

  /** Every item of the snapshot is there, and has its groups exactly when they were known to whoever wrote
      it or it had none. */
  ghost predicate GroupsKeptIff<A>(groups: seq<Group>, items: map<string, Item<A>>, source: map<string, Named<A>>, known: bool)
  {
    forall k :: k in source ==> k in items && (Shows(groups, items[k]) == source[k] <==> known || source[k].names == [])
  }

  lemma ItemsKeepGroupsIff<A>(groups: seq<Group>, items: map<string, Item<A>>, source: map<string, Named<A>>, accepts: set<string>,
                              known: bool)
    requires WellFormed(groups) && source.Keys <= accepts && NamesKnown(groups, source)
    ensures GroupsKeptIff(groups, ItemsPushed(items, source, if known then groups else [], accepts), source, known)
  {
    hide WellFormed, NamesKnown, ItemsPushed, Shown, IdsStay;
    if known {
      SameIdsStay(groups);
      ItemsLand(groups, groups, items, source, accepts);
    } else {
      var pushed := ItemsPushed(items, source, [], accepts);
      forall k | k in source ensures k in pushed && pushed[k] == Item(source[k].attrs, []) {
        ItemUnassigned(items, source, accepts, k);
      }
    }
  }

  lemma SameIdsStay(groups: seq<Group>)
    ensures IdsStay(groups, groups)
  {
  }

  /** Where the groups cannot be read again the restore still reports success, and a client, list or
      domain of the snapshot comes back with its groups exactly when it had none. */
  lemma UnreadGroupsAreLost(n: Image, snap: Snap, access: Access)
    requires Sound(n.db) && Closed(snap) && AllWritten(snap, access)
    ensures
      var r := Restored(n, snap, access);
      && GroupsKeptIff(r.db.groups, r.db.items, snap.clients, access.reread)
      && GroupsKeptIff(r.db.groups, r.lists, snap.lists, access.reread)
      && GroupsKeptIff(r.db.groups, r.domains, snap.domains, access.reread)
  {
    GroupsRestored(n.db, snap, access);
    var db := GroupsPosted(n.db, snap.groups, access.groups);
    assert WellFormed(db.groups);
    hide GroupsPosted, ItemsPushed, GroupsKeptIff, WellFormed, NamesKnown, GroupLanded, ScalarsSet, SetPath;
    ItemsKeepGroupsIff(db.groups, db.items, snap.clients, access.clients, access.reread);
    ItemsKeepGroupsIff(db.groups, n.lists, snap.lists, access.lists, access.reread);
    ItemsKeepGroupsIff(db.groups, n.domains, snap.domains, access.domains, access.reread);
  }

  // --- From node to node ---

  /** The same settings, and the same groups by name, whatever their ids on either node. */
  ghost predicate SameItem<A>(own: seq<Group>, item: Item<A>, groups: seq<Group>, copy: Item<A>)
  {
    && copy.attrs == item.attrs && |copy.groups| == |item.groups|
    && forall i :: 0 <= i < |item.groups| ==>
         NameOf(own, item.groups[i]).Some? && NameOf(groups, copy.groups[i]) == NameOf(own, item.groups[i])
  }

  ghost predicate SameItems<A>(own: seq<Group>, items: map<string, Item<A>>, groups: seq<Group>, copies: map<string, Item<A>>)
  {
    forall k :: k in items ==> k in copies && SameItem(own, items[k], groups, copies[k])
  }

  ghost predicate SameGroupsAndItems(source: Image, after: Image)
  {
    && (forall n :: ValueIn(source.db.groups, n).Some? ==> ValueIn(after.db.groups, n) == ValueIn(source.db.groups, n))
    && SameItems(source.db.groups, source.db.items, after.db.groups, after.db.items)
    && SameItems(source.db.groups, source.lists, after.db.groups, after.lists)
    && SameItems(source.db.groups, source.domains, after.db.groups, after.domains)
  }

  /** A path that was to be copied reads what the source reads, if the source has it; any other managed
      path reads as before. */
  ghost predicate SamePath(source: Value, before: Value, after: Value, p: Path, copied: bool)
  {
    GetPath(after, p) == if copied && GetPath(source, p).Some? then GetPath(source, p) else GetPath(before, p)
  }

  /** The reservations the source has, or none; or those from before where they were left out. */
  ghost predicate SameHosts(source: Value, before: Value, after: Value, copied: bool)
  {
    GetPath(after, HOSTS_PATH)
    == if !copied then GetPath(before, HOSTS_PATH)
       else if GetPath(source, HOSTS_PATH).Some? then GetPath(source, HOSTS_PATH)
       else Some(Some(Lines([])))
  }

  lemma ShownSame<A>(own: seq<Group>, item: Item<A>, groups: seq<Group>, copy: Item<A>)
    requires AllNamed(own, item) && AllNamed(groups, copy) && Shows(groups, copy) == Shows(own, item)
    ensures SameItem(own, item, groups, copy)
  {
    hide NameOf;
    var a, b := Shows(own, item).names, Shows(groups, copy).names;
    forall i | 0 <= i < |item.groups| ensures NameOf(groups, copy.groups[i]) == NameOf(own, item.groups[i]) {
      assert a[i] == Shown(own, item.groups[i]) && b[i] == Shown(groups, copy.groups[i]);
    }
  }

  lemma ItemsSame<A>(own: seq<Group>, items: map<string, Item<A>>, before: seq<Group>, groups: seq<Group>, old_: map<string, Item<A>>,
                     copies: map<string, Item<A>>)
    requires OwnGroups(own, items) && ItemsRestored(before, groups, old_, copies, ItemsShown(own, items))
    ensures SameItems(own, items, groups, copies)
  {
    hide Shows, AllNamed, SameItem;
    forall k | k in items ensures k in copies && SameItem(own, items[k], groups, copies[k]) {
      assert k in ItemsShown(own, items);
      ShownSame(own, items[k], groups, copies[k]);
    }
  }

  lemma GroupsSame(own: seq<Group>, before: seq<Group>, groups: seq<Group>)
    requires forall n :: GroupLanded(before, groups, GroupList(own), n)
    ensures forall n :: ValueIn(own, n).Some? ==> ValueIn(groups, n) == ValueIn(own, n)
  {
    hide ValueIn, IdOf, GroupList, Listed;
    forall n | ValueIn(own, n).Some? ensures ValueIn(groups, n) == ValueIn(own, n) {
      assert GroupLanded(before, groups, GroupList(own), n);
      ListedIsValue(own, n);
    }
  }

  lemma PathsSame(source: Value, before: Image, after: Image, snap: Snap, paths: seq<Path>, withHosts: bool, p: Path)
    requires Reproduced(before, after, snap, withHosts) && snap.scalars == Found(source, paths)
    requires (forall q :: q in paths ==> q in SCALAR_PATHS) && p in SCALAR_PATHS
    ensures SamePath(source, before.config, after.config, p, p in paths)
  {
    hide *;
    var s := snap.scalars;
    HostsApart(p);
    SettingsRead(before, after, snap, withHosts);
    if p in paths && GetPath(source, p).Some? {
      FoundAt(source, paths, (p, GetPath(source, p).value));
      var i :| 0 <= i < |s| && s[i] == (p, GetPath(source, p).value);
    } else {
      forall i | 0 <= i < |s| ensures Apart(s[i].0, p) {
        FoundAt(source, paths, s[i]);
        ScalarPathsApart(s[i].0, p);
      }
    }
    SamePathIs(source, before.config, after.config, p, p in paths);
  }

  lemma SettingsRead(before: Image, after: Image, snap: Snap, withHosts: bool)
    requires Reproduced(before, after, snap, withHosts)
    ensures forall i :: 0 <= i < |snap.scalars| ==> GetPath(after.config, snap.scalars[i].0) == Some(snap.scalars[i].1)
    ensures forall q :: Apart(q, HOSTS_PATH) && (forall i :: 0 <= i < |snap.scalars| ==> Apart(snap.scalars[i].0, q)) ==>
      GetPath(after.config, q) == GetPath(before.config, q)
  {
    hide GetPath, Apart, GroupLanded, ItemsRestored;
  }

  lemma SamePathIs(source: Value, before: Value, after: Value, p: Path, copied: bool)
    ensures SamePath(source, before, after, p, copied)
      <==> GetPath(after, p) == if copied && GetPath(source, p).Some? then GetPath(source, p) else GetPath(before, p)
  {
    hide GetPath;
  }

  /** What reproducing a snapshot of these paths means between the two nodes. */
  lemma NodeToNode(source: Image, before: Image, after: Image, snap: Snap, paths: seq<Path>, withHosts: bool)
    requires Healthy(source) && Reproduced(before, after, snap, withHosts)
    requires snap == Captured(source).(scalars := Found(source.config, paths)) && forall q :: q in paths ==> q in SCALAR_PATHS
    ensures forall p :: p in SCALAR_PATHS ==> SamePath(source.config, before.config, after.config, p, p in paths)
    ensures SameHosts(source.config, before.config, after.config, withHosts)
    ensures SameGroupsAndItems(source, after)
  {
    forall p | p in SCALAR_PATHS ensures SamePath(source.config, before.config, after.config, p, p in paths) {
      hide *;
      CapturedScalars(source, snap, paths);
      PathsSame(source.config, before, after, snap, paths, withHosts, p);
    }
    hide GetPath, Found, OwnGroups, ItemsRestored, GroupLanded, ItemsShown, GroupList, SameItems, Sound, ValueIn, SamePath, Apart;
    GroupsSame(source.db.groups, before.db.groups, after.db.groups);
    ItemsSame(source.db.groups, source.db.items, before.db.groups, after.db.groups, before.db.items, after.db.items);
    ItemsSame(source.db.groups, source.lists, before.db.groups, after.db.groups, before.lists, after.lists);
    ItemsSame(source.db.groups, source.domains, before.db.groups, after.db.groups, before.domains, after.domains);
  }

  lemma CapturedScalars(source: Image, snap: Snap, paths: seq<Path>)
    requires snap == Captured(source).(scalars := Found(source.config, paths))
    ensures snap.scalars == Found(source.config, paths)
  {
    hide Found;
  }

  /** Capturing one node and restoring onto another makes them read alike: every managed path that the
      source has, the reservations, and every group, client, adlist and override of the source, under
      the same group names. */
  lemma CaptureThenRestore(source: Image, target: Image, access: Access)
    requires Healthy(source) && Sound(target.db) && AllWritten(Captured(source), access) && access.reread
    ensures
      var after := Restored(target, Captured(source), access);
      && (forall p :: p in SCALAR_PATHS ==> SamePath(source.config, target.config, after.config, p, true))
      && SameHosts(source.config, target.config, after.config, true)
      && SameGroupsAndItems(source, after)
  {
    hide *;
    CaptureReproduced(source, target, access);
    WholeCapture(source);
    NodeToNode(source, target, Restored(target, Captured(source), access), Captured(source), SCALAR_PATHS, true);
  }

  lemma WholeCapture(source: Image)
    ensures Captured(source) == Captured(source).(scalars := Found(source.config, SCALAR_PATHS))
  {
    hide Found;
  }
}
