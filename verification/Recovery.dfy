/** Cloning a healthy node onto another: a one-way overwrite of what is managed. */
module Recovery {
  import opened Common
  import opened Text
  import opened Paths
  import opened MergeRun
  import opened ScalarPaths
  import opened GroupNames
  import opened GroupMerge
  import opened GroupAgreement
  import opened ItemAgreement
  import opened Snapshot

  // --- Domain keys ---

  /** The key of a domain override in the fetched dictionary. */
  function DomainKey(kind: string, form: string, domain: string): string
  {
    kind + "|" + form + "|" + domain
  }

  /** `key.split("|", 2)`: None where it does not give three parts. */
  function SplitKey(key: string): Option<(string, string, string)>
  {
    var i := IndexOf(key, '|');
    if i == |key| then None
    else
      var rest := key[i + 1..];
      var j := IndexOf(rest, '|');
      if j == |rest| then None else Some((key[..i], rest[..j], rest[j + 1..]))
  }

  /** A domain may contain bars, as regular expressions do; its type and kind may not. */
  lemma SplitsBack(kind: string, form: string, domain: string)
    requires '|' !in kind && '|' !in form
    ensures SplitKey(DomainKey(kind, form, domain)) == Some((kind, form, domain))
  {
    assert DomainKey(kind, form, domain) == kind + ['|'] + (form + ['|'] + domain);
    IndexAfter(kind, '|', form + ['|'] + domain);
    IndexAfter(form, '|', domain);
  }

  /** What is written under the parts of a key is read back under that key. */
  lemma JoinsBack(key: string)
    requires SplitKey(key).Some?
    ensures var (a, b, c) := SplitKey(key).value; DomainKey(a, b, c) == key
  {
    var i := IndexOf(key, '|');
    var rest := key[i + 1..];
    var j := IndexOf(rest, '|');
    Cut(key, i);
    Cut(rest, j);
    Associates(key[..i], rest[..j], rest[j + 1..], '|');
    hide IndexOf;
    assert [key[i]] == "|" && [rest[j]] == "|";
  }

  lemma Cut<T>(s: seq<T>, i: nat)
    requires i < |s|
    ensures s == s[..i] + [s[i]] + s[i + 1..]
  {
  }

  lemma Associates<T>(a: seq<T>, b: seq<T>, c: seq<T>, x: T)
    ensures a + [x] + (b + [x] + c) == a + [x] + b + [x] + c
  {
  }

  // --- The clone ---

  datatype Options = Options(enabled: set<Path>, hosts: bool)

  /** Which reads succeed. Only the first four are reported when they fail. */
  datatype Reads = Reads(config: bool, groups: bool, clients: bool, lists: bool, domains: bool,
                         targetGroups: bool, sourceGroupsAgain: bool, targetGroupsAgain: bool)

  function EnabledPaths(o: Options): seq<Path>
  {
    Filter(SCALAR_PATHS, (p: Path) => p in o.enabled)
  }

  /** Ids of the source as names; an unknown id and an empty name are dropped. */
  function Translated<A>(groups: seq<Group>, item: Item<A>): Named<A>
  {
    Named(item.attrs, Filter(FilterMap(item.groups, id => NameOf(groups, id)), n => n != ""))
  }

  function AllTranslated<A>(groups: seq<Group>, items: map<string, Item<A>>): map<string, Named<A>>
  {
    map k | k in items :: Translated(groups, items[k])
  }

  function ClonedConfig(source: Value, target: Value, o: Options, access: Access): Value
  {
    var c := ScalarsSet(target, Found(source, EnabledPaths(o)), access.scalars);
    if o.hosts && access.hosts then SetPath(c, HOSTS_PATH, HostsIn(source)) else c
  }

  function ClonedDb(source: Image, target: Db<string>, got: Reads, access: Access): Db<string>
  {
    if !got.groups then target
    else
      var db := GroupsPosted(target, GroupList(source.db.groups), access.groups);
      if !got.clients then db
      else
        db.(items := ItemsPushed(db.items, AllTranslated(source.db.groups, source.db.items),
                                 if got.targetGroups then db.groups else [], access.clients))
  }

  function Cloned(source: Image, target: Image, o: Options, got: Reads, access: Access): Image
  {
    var db := ClonedDb(source, target.db, got, access);
    var from, onto := if got.sourceGroupsAgain then source.db.groups else [], if got.targetGroupsAgain then db.groups else [];
    Image(if got.config then ClonedConfig(source.config, target.config, o, access) else target.config, db,
          if got.lists then ItemsPushed(target.lists, AllTranslated(from, source.lists), onto, access.lists) else target.lists,
          if got.domains then ItemsPushed(target.domains, AllTranslated(from, source.domains), onto, access.domains) else target.domains)
  }

  ghost predicate SettingsErrorFree(config: Value, o: Options, got: Reads, access: Access)
  {
    && got.config && (o.hosts ==> access.hosts)
    && var found := Found(config, EnabledPaths(o));
       forall i :: 0 <= i < |found| ==> found[i].0 in access.scalars
  }

  ghost predicate GroupsErrorFree(db: Db<string>, got: Reads, access: Access)
  {
    && got.groups && got.clients && db.items.Keys <= access.clients
    && var list := GroupList(db.groups);
       forall i :: 0 <= i < |list| ==> list[i].0 in access.groups
  }

  /** No error is reported. */
  ghost predicate ErrorFree(source: Image, o: Options, got: Reads, access: Access)
  {
    && SettingsErrorFree(source.config, o, got, access) && GroupsErrorFree(source.db, got, access)
    && got.lists && got.domains && source.lists.Keys <= access.lists && source.domains.Keys <= access.domains
  }

  method CloneSettings(source: PiHole, target: PiHole, o: Options, got: Reads, access: Access) returns (ok: bool)
    requires source != target
    modifies target`config
    ensures target.config == if got.config then ClonedConfig(source.config, old(target.config), o, access) else old(target.config)
    ensures ok <==> SettingsErrorFree(source.config, o, got, access)
  {
    hide ScalarsSet, Found, SetPath, EnabledPaths;
    if !got.config {
      return false;
    }
    var scalars := PiHole.CapturePaths(source.config, EnabledPaths(o));
    ok := target.WriteScalars(scalars, access.scalars);
    if o.hosts {
      var h := WalkPath(source.config, HOSTS_PATH);
      if access.hosts {
        target.config := SetPath(target.config, HOSTS_PATH, h.GetOr(Some(Lines([]))));
      } else {
        ok := false;
      }
    }
  }

  method CloneGroupsAndClients(source: PiHole, target: PiHole, got: Reads, access: Access) returns (ok: bool)
    requires source != target
    modifies target`db
    ensures target.db == ClonedDb(source.Current(), old(target.db), got, access)
    ensures ok <==> GroupsErrorFree(source.db, got, access)
  {
    hide GroupsPosted, ItemsPushed, GroupList, Translated;
    if !got.groups {
      return false;
    }
    var groupsOk := target.WriteGroups(GroupList(source.db.groups), access.groups);
    if !got.clients {
      return false;
    }
    var known := if got.targetGroups then target.db.groups else [];
    var clients, clientsOk := PiHole.WriteItems(target.db.items, AllTranslated(source.db.groups, source.db.items), known, access.clients);
    target.db := target.db.(items := clients);
    ok := groupsOk && clientsOk;
  }

  method Clone(source: PiHole, target: PiHole, o: Options, got: Reads, access: Access) returns (ok: bool)
    requires source != target
    modifies target
    ensures target.Current() == Cloned(source.Current(), old(target.Current()), o, got, access)
    ensures ok <==> ErrorFree(source.Current(), o, got, access)
  {
    hide ClonedConfig, ClonedDb, ItemsPushed, Translated, SettingsErrorFree, GroupsErrorFree;
    var settingsOk := CloneSettings(source, target, o, got, access);
    var groupsOk := CloneGroupsAndClients(source, target, got, access);
    var from, onto := if got.sourceGroupsAgain then source.db.groups else [], if got.targetGroupsAgain then target.db.groups else [];
    var listsOk, domainsOk := false, false;
    if got.lists {
      target.lists, listsOk := PiHole.WriteItems(target.lists, AllTranslated(from, source.lists), onto, access.lists);
    }
    if got.domains {
      target.domains, domainsOk := PiHole.WriteItems(target.domains, AllTranslated(from, source.domains), onto, access.domains);
    }
    ok := settingsOk && groupsOk && listsOk && domainsOk;
  }

  // --- A clone is a restore ---

  /** What the clone takes from the source. */
  function Taken(source: Image, o: Options): Snap
  {
    Captured(source).(scalars := Found(source.config, EnabledPaths(o)))
  }

  /** Only own groups are assigned, and no group has an empty name. */
  ghost predicate Translatable<A>(groups: seq<Group>, items: map<string, Item<A>>)
  {
    OwnGroups(groups, items) && forall g :: g in groups ==> g.name != ""
  }

  lemma {:induction false} TranslateAll(groups: seq<Group>, ids: seq<nat>)
    requires forall i :: 0 <= i < |ids| ==> NameOf(groups, ids[i]).Some? && Shown(groups, ids[i]) != ""
    ensures Filter(FilterMap(ids, id => NameOf(groups, id)), n => n != "") == Map(ids, id => Shown(groups, id))
  {
    if ids != [] {
      hide NameOf;
      TranslateAll(groups, ids[1..]);
      MapCons(ids, id => Shown(groups, id));
      assert NameOf(groups, ids[0]) == Some(Shown(groups, ids[0]));
      FilterHead(Shown(groups, ids[0]), FilterMap(ids[1..], id => NameOf(groups, id)));
    } else {
      assert Map(ids, id => Shown(groups, id)) == [];
    }
  }

  lemma FilterHead(x: string, s: seq<string>)
    requires x != ""
    ensures Filter([x] + s, n => n != "") == [x] + Filter(s, n => n != "")
  {
    assert ([x] + s)[1..] == s;
  }

  lemma TranslatedIsShown<A>(groups: seq<Group>, items: map<string, Item<A>>)
    requires WellFormed(groups) && Translatable(groups, items)
    ensures AllTranslated(groups, items) == ItemsShown(groups, items)
  {
    hide WellFormed, NameOf, Translated, Shows, IdOf, Shown;
    forall k | k in items ensures Translated(groups, items[k]) == Shows(groups, items[k]) {
      ItemTranslated(groups, items[k]);
    }
  }

  lemma ItemTranslated<A>(groups: seq<Group>, item: Item<A>)
    requires WellFormed(groups) && forall g :: g in groups ==> g.name != ""
    requires forall i :: 0 <= i < |item.groups| ==> NameOf(groups, item.groups[i]).Some?
    ensures Translated(groups, item) == Shows(groups, item)
  {
    forall i | 0 <= i < |item.groups| ensures Shown(groups, item.groups[i]) != "" {
      IdOfName(groups, item.groups[i]);
    }
    TranslateAll(groups, item.groups);
  }

  /** A healthy source. */
  ghost predicate Cloneable(source: Image)
  {
    && Sound(source.db) && Translatable(source.db.groups, source.db.items)
    && Translatable(source.db.groups, source.lists) && Translatable(source.db.groups, source.domains)
  }

  /** When every read succeeds, cloning is restoring the source's snapshot of the enabled paths onto
      the target, whichever writes fail. */
  lemma CloneIsRestore(source: Image, target: Image, o: Options, got: Reads, access: Access)
    requires Cloneable(source) && got == Reads(true, true, true, true, true, true, true, true)
    ensures Cloned(source, target, o, got, access)
         == Restored(target, Taken(source, o), access.(hosts := o.hosts && access.hosts, reread := true))
  {
    hide ScalarsSet, GroupsPosted, ItemsPushed, Found, SetPath, Translated, Shows, HostsIn;
    TranslatedIsShown(source.db.groups, source.db.items);
    TranslatedIsShown(source.db.groups, source.lists);
    TranslatedIsShown(source.db.groups, source.domains);
  }

  /** Each part is cloned by itself: one that cannot be read stays as it was on the target, the clients too where
      the groups cannot be read, and the others arrive as if everything had been read. */
  lemma PartByPart(source: Image, target: Image, o: Options, got: Reads, access: Access)
    ensures
      var after := Cloned(source, target, o, got, access);
      var whole := Cloned(source, target, o, Reads(true, true, true, true, true, true, true, true), access);
      && after.config == (if got.config then whole.config else target.config)
      && after.db.groups == (if got.groups then whole.db.groups else target.db.groups)
      && (!got.groups || !got.clients ==> after.db.items == target.db.items)
      && (got.groups && got.clients && got.targetGroups ==> after.db == whole.db)
      && (!got.lists ==> after.lists == target.lists) && (!got.domains ==> after.domains == target.domains)
      && (got.groups && got.sourceGroupsAgain && got.targetGroupsAgain ==>
            (got.lists ==> after.lists == whole.lists) && (got.domains ==> after.domains == whole.domains))
  {
    PostedItems(target.db, GroupList(source.db.groups), access.groups);
    hide GroupsPosted, ItemsPushed, GroupList, Translated, ClonedConfig;
  }

  lemma EnabledAreManaged(o: Options)
    ensures forall p :: p in EnabledPaths(o) ==> p in SCALAR_PATHS
  {
  }

  lemma TakenIsClosed(source: Image, o: Options)
    requires Cloneable(source)
    ensures Closed(Taken(source, o))
  {
    hide Found, EnabledPaths, ItemsShown, GroupList, NamesIn, Consistent, HostsIn;
    EnabledAreManaged(o);
    CapturedConsistent(source.config, EnabledPaths(o));
    CapturedClosed(source);
  }

  lemma ErrorFreeIsWritten(source: Image, o: Options, got: Reads, access: Access)
    requires ErrorFree(source, o, got, access)
    ensures AllButHostsWritten(Taken(source, o), access) && (o.hosts ==> access.hosts)
    ensures got.config && got.groups && got.clients && got.lists && got.domains
  {
    hide Found, EnabledPaths, GroupList, Shows, HostsIn;
  }

  lemma WrittenToo(snap: Snap, access: Access, used: Access)
    requires AllButHostsWritten(snap, access) && used == access.(hosts := used.hosts, reread := used.reread)
    ensures AllButHostsWritten(snap, used)
  {
  }

  /** An error-free clone whose group lists could all be read reproduces the source on the target for
      the enabled paths, the reservations among them or not, and leaves the rest as it was. */
  lemma CloneReproduces(source: Image, target: Image, o: Options, got: Reads, access: Access)
    requires Cloneable(source) && Sound(target.db) && ErrorFree(source, o, got, access)
    requires got.targetGroups && got.sourceGroupsAgain && got.targetGroupsAgain
    ensures Reproduced(target, Cloned(source, target, o, got, access), Taken(source, o), o.hosts)
  {
    hide *;
    ErrorFreeIsWritten(source, o, got, access);
    TakenIsClosed(source, o);
    var used := access.(hosts := o.hosts && access.hosts, reread := true);
    WrittenToo(Taken(source, o), access, used);
    CloneIsRestore(source, target, o, got, access);
    RestoreReproduces(target, Taken(source, o), used);
  }

  lemma EnabledIff(o: Options, p: Path)
    ensures p in EnabledPaths(o) <==> p in SCALAR_PATHS && p in o.enabled
  {
  }

  lemma CloneableIsHealthy(source: Image)
    requires Cloneable(source)
    ensures Healthy(source)
  {
    hide Sound, OwnGroups;
  }

  /** Between the two nodes: after such a clone the target reads every enabled path as the source does if
      the source has it, any other managed path as before, and the reservations as the option says; it
      has every group, client, adlist and override of the source under the same group names. */
  lemma CloneReadsAlike(source: Image, target: Image, o: Options, got: Reads, access: Access)
    requires Cloneable(source) && Sound(target.db) && ErrorFree(source, o, got, access)
    requires got.targetGroups && got.sourceGroupsAgain && got.targetGroupsAgain
    ensures
      var after := Cloned(source, target, o, got, access);
      && (forall p :: p in SCALAR_PATHS ==> SamePath(source.config, target.config, after.config, p, p in o.enabled))
      && SameHosts(source.config, target.config, after.config, o.hosts)
      && SameGroupsAndItems(source, after)
  {
    hide *;
    var after := Cloned(source, target, o, got, access);
    CloneReproduces(source, target, o, got, access);
    CloneableIsHealthy(source);
    TakenIs(source, o);
    EnabledAreManaged(o);
    NodeToNode(source, target, after, Taken(source, o), EnabledPaths(o), o.hosts);
    forall p | p in SCALAR_PATHS ensures SamePath(source.config, target.config, after.config, p, p in o.enabled) {
      EnabledIff(o, p);
    }
  }

  lemma TakenIs(source: Image, o: Options)
    ensures Taken(source, o) == Captured(source).(scalars := Found(source.config, EnabledPaths(o)))
  {
    hide Found, EnabledPaths, Captured;
  }

  lemma UnknownGroups<A>(item: Item<A>)
    ensures Translated([], item) == Named(item.attrs, [])
  {
    NoNames(item.groups);
  }

  lemma {:induction false} NoNames(ids: seq<nat>)
    ensures FilterMap(ids, id => NameOf([], id)) == []
  {
    if ids != [] {
      NoNames(ids[1..]);
    }
  }

  lemma NamelessUnassigned<A>(items: map<string, Item<A>>, source: map<string, Named<A>>, groups: seq<Group>, accepts: set<string>, k: string)
    requires source.Keys <= accepts && k in source && source[k].names == []
    ensures
      var r := ItemsPushed(items, source, groups, accepts);
      k in r && r[k] == Item(source[k].attrs, [])
  {
    assert ItemsPushed(items, source, groups, accepts)[k] == Pushed(groups, source[k]);
  }

  /** What a clone writes under the groups it could read: every item arrives, and with its groups exactly
      when both nodes' groups were read or it had none. */
  lemma ClonedKeepGroupsIff<A>(own: seq<Group>, source: map<string, Item<A>>, groups: seq<Group>, items: map<string, Item<A>>,
                               accepts: set<string>, gotSource: bool, gotTarget: bool)
    requires WellFormed(own) && Translatable(own, source) && WellFormed(groups) && NamesKnown(groups, ItemsShown(own, source))
    requires source.Keys <= accepts
    ensures
      GroupsKeptIff(groups, ItemsPushed(items, AllTranslated(if gotSource then own else [], source), if gotTarget then groups else [], accepts),
                    ItemsShown(own, source), gotSource && gotTarget)
  {
    hide WellFormed, Translatable, NamesKnown, ItemsPushed, Translated, Shown;
    if gotSource {
      TranslatedIsShown(own, source);
      hide ItemsShown, AllTranslated, GroupsKeptIff;
      assert ItemsShown(own, source).Keys == source.Keys by { KeysShown(own, source); }
      ItemsKeepGroupsIff(groups, items, ItemsShown(own, source), accepts, gotTarget);
    } else {
      var blank, onto := AllTranslated([], source), if gotTarget then groups else [];
      var r := ItemsPushed(items, blank, onto, accepts);
      forall k | k in source ensures k in r && r[k] == Item(source[k].attrs, []) {
        UnknownGroups(source[k]);
        NamelessUnassigned(items, blank, onto, accepts, k);
      }
    }
  }

  lemma KeysShown<A>(groups: seq<Group>, items: map<string, Item<A>>)
    ensures ItemsShown(groups, items).Keys == items.Keys
  {
    hide Shows;
  }

  /** Where a node's groups cannot be read a second time the clone still reports no error. A client
      arrives with its groups exactly when the target's were read or it had none, an adlist or an
      override exactly when both nodes' were read again or it had none. */
  lemma CloneCanLoseGroups(source: Image, target: Image, o: Options, got: Reads, access: Access)
    requires Cloneable(source) && Sound(target.db) && ErrorFree(source, o, got, access)
    ensures
      var r, own := Cloned(source, target, o, got, access), source.db.groups;
      && GroupsKeptIff(r.db.groups, r.db.items, ItemsShown(own, source.db.items), got.targetGroups)
      && GroupsKeptIff(r.db.groups, r.lists, ItemsShown(own, source.lists), got.sourceGroupsAgain && got.targetGroupsAgain)
      && GroupsKeptIff(r.db.groups, r.domains, ItemsShown(own, source.domains), got.sourceGroupsAgain && got.targetGroupsAgain)
  {
    ErrorFreeIsWritten(source, o, got, access);
    TakenIsClosed(source, o);
    var own, db := source.db.groups, GroupsPosted(target.db, GroupList(source.db.groups), access.groups);
    GroupsRestored(target.db, Taken(source, o), access);
    SoundGroups(db);
    SoundGroups(source.db);
    hide Found, EnabledPaths, ItemsPushed, GroupsPosted, Translated, Shows, Sound, WellFormed, Translatable, ClonedConfig, Closed;
    hide HostsIn, GroupsKeptIff, NamesKnown, GroupList, GroupLanded, AllTranslated;
    ClonedKeepGroupsIff(own, source.db.items, db.groups, db.items, access.clients, true, got.targetGroups);
    ClonedKeepGroupsIff(own, source.lists, db.groups, target.lists, access.lists, got.sourceGroupsAgain, got.targetGroupsAgain);
    ClonedKeepGroupsIff(own, source.domains, db.groups, target.domains, access.domains, got.sourceGroupsAgain, got.targetGroupsAgain);
  }

  lemma SoundGroups(db: Db<string>)
    requires Sound(db)
    ensures WellFormed(db.groups)
  {
  }
}
