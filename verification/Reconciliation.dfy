/** The whole reconciliation run, group phase and item phase together. */
module Reconciliation {
  import opened Common
  import opened Sorting
  import opened Ledger
  import opened GroupNames
  import opened GroupMerge
  import opened GroupAgreement
  import opened ItemAgreement

  /** Every assigned id is a group of the same node. */
  ghost predicate OwnIds<A>(db: Db<A>)
  {
    forall k, i :: k in db.items && 0 <= i < |db.items[k].groups| ==> NameOf(db.groups, db.items[k].groups[i]).Some?
  }

  /** A node before the run: unique names and ids, and only its own groups assigned. */
  ghost predicate Healthy<A>(nodes: seq<Ip>, dbs: map<Ip, Db<A>>)
  {
    forall ip :: ip in nodes ==> ip in dbs && Sound(dbs[ip]) && OwnIds(dbs[ip])
  }

  /** These are the names of all groups on the nodes. */
  ghost predicate AllNames<A>(nodes: seq<Ip>, dbs: map<Ip, Db<A>>, names: seq<string>)
    requires Covers(nodes, dbs)
  {
    forall n :: n in names <==> exists ip :: ip in nodes && Knows(dbs[ip].groups, n)
  }

  ghost predicate AllKeys<A>(nodes: seq<Ip>, dbs: map<Ip, Db<A>>, keys: seq<string>)
    requires Covers(nodes, dbs)
  {
    forall k :: k in keys <==> exists ip :: ip in nodes && k in dbs[ip].items
  }

  // --- Settled groups do not change what an item shows on its own node ---

  lemma ShownKept<A>(before: Db<A>, after: Db<A>, id: nat)
    requires Sound(before) && Sound(after) && NameOf(before.groups, id).Some?
    requires forall n :: Knows(before.groups, n) ==> IdOf(after.groups, n) == IdOf(before.groups, n)
    ensures NameOf(after.groups, id).Some? && Shown(after.groups, id) == Shown(before.groups, id)
  {
    var n := NameOf(before.groups, id).value;
    IdOfName(before.groups, id);
    assert Knows(before.groups, n);
    assert IdOf(after.groups, n) == Some(id);
    NameOfId(after.groups, n);
    var g :| g in after.groups && g.name == n && g.id == id;
  }

  lemma NamesKept<A>(before: Db<A>, after: Db<A>, ids: seq<nat>)
    requires Sound(before) && Sound(after)
    requires forall n :: Knows(before.groups, n) ==> IdOf(after.groups, n) == IdOf(before.groups, n)
    requires forall i :: 0 <= i < |ids| ==> NameOf(before.groups, ids[i]).Some?
    ensures NamesOf(after.groups, ids) == NamesOf(before.groups, ids)
    ensures forall i :: 0 <= i < |ids| ==> NameOf(after.groups, ids[i]).Some?
  {
    hide Sound, IdOf, NameOf, Shown, Sort;
    forall i | 0 <= i < |ids| ensures NameOf(after.groups, ids[i]).Some? && Shown(after.groups, ids[i]) == Shown(before.groups, ids[i]) {
      ShownKept(before, after, ids[i]);
    }
    assert Map(ids, id => Shown(after.groups, id)) == Map(ids, id => Shown(before.groups, id));
  }

  lemma ItemKept<A>(before: Db<A>, after: Db<A>, key: string)
    requires Sound(before) && Sound(after) && OwnIds(before) && after.items == before.items
    requires forall n :: Knows(before.groups, n) ==> IdOf(after.groups, n) == IdOf(before.groups, n)
    ensures ItemIn(after.groups, after.items, key) == ItemIn(before.groups, before.items, key)
    ensures OwnIds(after)
  {
    hide Sound, IdOf, NameOf, NamesOf;
    forall k | k in before.items
      ensures NamesOf(after.groups, before.items[k].groups) == NamesOf(before.groups, before.items[k].groups)
      ensures forall i :: 0 <= i < |after.items[k].groups| ==> NameOf(after.groups, after.items[k].groups[i]).Some?
    {
      NamesKept(before, after, before.items[k].groups);
    }
  }

  lemma {:induction false} FirstItemSame<A>(nodes: seq<Ip>, views: Views, views': Views, fetched: Snapshots<A>, fetched': Snapshots<A>, key: string)
    requires Covers(nodes, views) && Covers(nodes, views') && Covers(nodes, fetched) && Covers(nodes, fetched')
    requires forall ip :: ip in nodes ==> ItemIn(views[ip], fetched[ip], key) == ItemIn(views'[ip], fetched'[ip], key)
    ensures FirstItem(nodes, views, fetched, key) == FirstItem(nodes, views', fetched', key)
  {
    hide ItemIn;
    if nodes != [] {
      FirstItemSame(nodes[1..], views, views', fetched, fetched', key);
    }
  }

  // --- After the group phase every name is known everywhere ---

  /** The group phase from the databases as read. */
  function Begun<A>(nodes: seq<Ip>, dbs: map<Ip, Db<A>>, ledger: map<string, Stamps<Stored<GroupValue>>>): GroupRun<A>
    requires Covers(nodes, dbs)
  {
    GroupRun(dbs, ReadViews(nodes, dbs), ledger)
  }

  ghost predicate KnownEverywhere(nodes: seq<Ip>, views: Views, names: seq<string>)
    requires Covers(nodes, views)
  {
    forall ip, n :: ip in nodes && n in names ==> Knows(views[ip], n)
  }

  lemma KnownAt(nodes: seq<Ip>, views: Views, names: seq<string>, ip: Ip, n: string)
    requires Covers(nodes, views) && KnownEverywhere(nodes, views, names) && ip in nodes && n in names
    ensures Knows(views[ip], n)
  {
  }

  lemma BegunSynced<A>(nodes: seq<Ip>, dbs: map<Ip, Db<A>>, ledger: map<string, Stamps<Stored<GroupValue>>>)
    requires Covers(nodes, dbs) && Healthy(nodes, dbs)
    ensures Synced(nodes, Begun(nodes, dbs, ledger)) && Covers(nodes, Begun(nodes, dbs, ledger).views)
  {
    hide Sound, OwnIds;
  }

  lemma NamesSettle<A>(nodes: seq<Ip>, s: GroupRun<A>, t: GroupRun<A>, names: seq<string>, ip: Ip, n: string)
    requires Covers(nodes, s.views) && Covers(nodes, s.dbs) && Synced(nodes, s) && PhaseDone(nodes, s, t, names)
    requires AllNames(nodes, s.dbs, names) && ip in nodes && n in names
    ensures FirstGroup(nodes, s.views, n).Some? && ValueIn(t.dbs[ip].groups, n) == FirstGroup(nodes, s.views, n)
    ensures Knows(t.views[ip], n)
  {
    hide FirstGroup, ValueIn, IdOf, Sound;
    var src :| src in nodes && Knows(s.dbs[src].groups, n);
    KnowsIsValue(s.views[src], n);
    FirstGroupSome(nodes, s.views, n, src);
    assert PhaseSettled(nodes, s.views, s.dbs[ip], t.dbs[ip], names);
    KnowsIsValue(t.views[ip], n);
  }

  lemma SourceOf<A>(nodes: seq<Ip>, views: Views, fetched: Snapshots<A>, key: string) returns (src: Ip)
    requires Covers(nodes, views) && Covers(nodes, fetched) && FirstItem(nodes, views, fetched, key).Some?
    ensures src in nodes && key in fetched[src] && FirstItem(nodes, views, fetched, key).value.names == NamesOf(views[src], fetched[src][key].groups)
  {
    FirstItemFrom(nodes, views, fetched, key);
    hide FirstItem, NamesOf;
    src :| src in nodes && key in fetched[src] && FirstItem(nodes, views, fetched, key) == Some(NamedItem(views[src], fetched[src][key]));
  }

  lemma OwnNamesKnown<A>(db: Db<A>, key: string)
    requires Sound(db) && OwnIds(db) && key in db.items
    ensures forall n :: n in NamesOf(db.groups, db.items[key].groups) ==> Knows(db.groups, n)
  {
    hide NamesOf, IdOf, NameOf, Knows, WellFormed;
    forall n | n in NamesOf(db.groups, db.items[key].groups) ensures Knows(db.groups, n) {
      NamesAreKnown(db.groups, db.items[key].groups, n);
    }
  }

  lemma NothingMissing(groups: seq<Group>, names: seq<string>)
    requires forall n :: n in names ==> Knows(groups, n)
    ensures MissingOf(groups, names) == [] && KnownOf(groups, names) == names
  {
    hide Knows;
    FilterNone(names, name => !Knows(groups, name));
    FilterAll(names, name => Knows(groups, name));
  }

  /** The winner of an item only uses names that are groups somewhere. */
  lemma WinnerNamesKnown<A>(nodes: seq<Ip>, views: Views, dbs: map<Ip, Db<A>>, names: seq<string>, key: string, ip: Ip)
    requires Covers(nodes, views) && Covers(nodes, dbs) && KnownEverywhere(nodes, views, names) && ip in nodes
    requires forall x :: x in nodes ==> views[x] == dbs[x].groups && Sound(dbs[x]) && OwnIds(dbs[x])
    requires forall x, n :: x in nodes && Knows(views[x], n) ==> n in names
    requires FirstItem(nodes, views, ReadItems(nodes, dbs), key).Some?
    ensures
      var w := FirstItem(nodes, views, ReadItems(nodes, dbs), key).value;
      MissingOf(views[ip], w.names) == [] && KnownOf(views[ip], w.names) == w.names
  {
    hide FirstItem, NamesOf, Knows, OwnIds, Sound, MissingOf, KnownOf;
    var src := SourceOf(nodes, views, ReadItems(nodes, dbs), key);
    OwnNamesKnown(dbs[src], key);
    var used := FirstItem(nodes, views, ReadItems(nodes, dbs), key).value.names;
    assert used == NamesOf(dbs[src].groups, dbs[src].items[key].groups);
    forall n | n in used ensures Knows(views[ip], n) {
      assert Knows(views[src], n) && n in names;
      KnownAt(nodes, views, names, ip, n);
    }
    NothingMissing(views[ip], used);
  }

  /** What the run leaves on a node: every group with the value of the first node that had it, every
      item with the settings and the group names of the first node that had it. */
  ghost predicate Reconciled<A>(nodes: seq<Ip>, dbs: map<Ip, Db<A>>, after: Db<A>, names: seq<string>, keys: seq<string>)
    requires Covers(nodes, dbs)
  {
    var views, items := ReadViews(nodes, dbs), ReadItems(nodes, dbs);
    && (forall n :: n in names ==> FirstGroup(nodes, views, n).Some? && ValueIn(after.groups, n) == FirstGroup(nodes, views, n))
    && (forall k :: k in keys ==> FirstItem(nodes, views, items, k).Some? && ItemIn(after.groups, after.items, k) == FirstItem(nodes, views, items, k))
  }

  /** The state between the two phases. */
  ghost predicate Between<A>(nodes: seq<Ip>, dbs: map<Ip, Db<A>>, g: GroupRun<A>, names: seq<string>)
    requires Covers(nodes, dbs)
  {
    && Covers(nodes, g.views) && Covers(nodes, g.dbs) && KnownEverywhere(nodes, g.views, names)
    && (forall ip :: ip in nodes ==> g.views[ip] == g.dbs[ip].groups && Sound(g.dbs[ip]) && OwnIds(g.dbs[ip]))
    && (forall ip, n :: ip in nodes && Knows(g.views[ip], n) ==> n in names)
    && (forall ip, k :: ip in nodes ==> ItemIn(g.dbs[ip].groups, g.dbs[ip].items, k) == ItemIn(dbs[ip].groups, dbs[ip].items, k))
    && (forall ip :: ip in nodes ==> g.dbs[ip].items == dbs[ip].items)
    && (forall ip, n :: ip in nodes && n in names ==>
          FirstGroup(nodes, ReadViews(nodes, dbs), n).Some? && ValueIn(g.dbs[ip].groups, n) == FirstGroup(nodes, ReadViews(nodes, dbs), n))
  }

  lemma NodeBetween<A>(nodes: seq<Ip>, s: GroupRun<A>, t: GroupRun<A>, names: seq<string>, ip: Ip)
    requires Covers(nodes, s.views) && Covers(nodes, s.dbs) && Synced(nodes, s) && PhaseDone(nodes, s, t, names)
    requires Healthy(nodes, s.dbs) && AllNames(nodes, s.dbs, names) && ip in nodes
    ensures t.views[ip] == t.dbs[ip].groups && Sound(t.dbs[ip]) && OwnIds(t.dbs[ip]) && t.dbs[ip].items == s.dbs[ip].items
    ensures forall n :: Knows(t.views[ip], n) ==> n in names
    ensures forall k :: ItemIn(t.dbs[ip].groups, t.dbs[ip].items, k) == ItemIn(s.dbs[ip].groups, s.dbs[ip].items, k)
  {
    hide FirstGroup, ValueIn, IdOf, Sound, OwnIds, ItemIn;
    assert PhaseSettled(nodes, s.views, s.dbs[ip], t.dbs[ip], names);
    ItemKept(s.dbs[ip], t.dbs[ip], "");
    forall k ensures ItemIn(t.dbs[ip].groups, t.dbs[ip].items, k) == ItemIn(s.dbs[ip].groups, s.dbs[ip].items, k) {
      ItemKept(s.dbs[ip], t.dbs[ip], k);
    }
  }

  lemma GroupsBetween<A>(nodes: seq<Ip>, dbs: map<Ip, Db<A>>, ledger: map<string, Stamps<Stored<GroupValue>>>, names: seq<string>, now: int, calls: Calls)
    requires nodes != [] && Distinct(nodes) && Covers(nodes, dbs) && Healthy(nodes, dbs)
    requires Distinct(names) && AllNames(nodes, dbs, names) && LedgerLoaded(nodes, ledger, now)
    requires forall n :: n in names ==> CallsSucceed(nodes, n, calls)
    ensures Covers(nodes, Begun(nodes, dbs, ledger).views)
    ensures Between(nodes, dbs, GroupPhase(nodes, Begun(nodes, dbs, ledger), names, now, calls), names)
  {
    hide GroupPhase, FirstGroup, ValueIn, Knows, Sound, OwnIds, ItemIn, LedgerLoaded, CallsSucceed;
    var s := Begun(nodes, dbs, ledger);
    BegunSynced(nodes, dbs, ledger);
    GroupPhaseSettles(nodes, s, names, now, calls);
    var t := GroupPhase(nodes, s, names, now, calls);
    hide PhaseDone, Healthy, AllNames;
    forall ip | ip in nodes
      ensures t.views[ip] == t.dbs[ip].groups && Sound(t.dbs[ip]) && OwnIds(t.dbs[ip]) && t.dbs[ip].items == s.dbs[ip].items
      ensures forall n :: Knows(t.views[ip], n) ==> n in names
      ensures forall k :: ItemIn(t.dbs[ip].groups, t.dbs[ip].items, k) == ItemIn(s.dbs[ip].groups, s.dbs[ip].items, k)
    {
      NodeBetween(nodes, s, t, names, ip);
    }
    forall ip, n | ip in nodes && n in names
      ensures FirstGroup(nodes, s.views, n).Some? && ValueIn(t.dbs[ip].groups, n) == FirstGroup(nodes, s.views, n) && Knows(t.views[ip], n)
    {
      NamesSettle(nodes, s, t, names, ip, n);
    }
  }

  lemma ItemsReconcile<A>(nodes: seq<Ip>, dbs: map<Ip, Db<A>>, g: GroupRun<A>, ledger: map<string, Stamps<Stored<Named<A>>>>,
                          names: seq<string>, keys: seq<string>, now: int, accepts: set<(Ip, string)>)
    requires nodes != [] && Covers(nodes, dbs) && Between(nodes, dbs, g, names) && AllKeys(nodes, dbs, keys)
    requires Distinct(keys) && LedgerLoaded(nodes, ledger, now) && forall ip, k :: ip in nodes && k in keys ==> (ip, k) in accepts
    ensures
      var t := ItemPhase(nodes, g.views, ReadItems(nodes, g.dbs), ItemRun(g.dbs, ledger, []), keys, now, accepts);
      t.missing == [] && forall ip :: ip in nodes ==> Reconciled(nodes, dbs, t.dbs[ip], names, keys)
  {
    hide GroupPhase, ItemPhase, FirstGroup, FirstItem, ValueIn, Knows, OwnIds, ItemIn, LedgerLoaded, MissingOf, KnownOf;
    var fetched, s := ReadItems(nodes, g.dbs), ItemRun(g.dbs, ledger, []);
    ItemPhaseSettles(nodes, g.views, fetched, s, keys, now, accepts);
    var t := ItemPhase(nodes, g.views, fetched, s, keys, now, accepts);
    hide Sound;
    forall k | k in keys
      ensures NothingLacks(nodes, g.views, fetched, k, FirstItem(nodes, g.views, fetched, k))
      ensures forall ip :: ip in nodes ==> ItemShows(nodes, dbs, t.dbs[ip], k)
    {
      forall ip | ip in nodes
        ensures ItemShows(nodes, dbs, t.dbs[ip], k)
        ensures FirstItem(nodes, g.views, fetched, k).Some? ==> MissingOf(g.views[ip], FirstItem(nodes, g.views, fetched, k).value.names) == []
      {
        ItemReconciles(nodes, dbs, g, s, t, names, keys, k, ip);
      }
    }
  }

  /** The node shows the item as the first node that had it showed it. */
  ghost predicate ItemShows<A>(nodes: seq<Ip>, dbs: map<Ip, Db<A>>, after: Db<A>, k: string)
    requires Covers(nodes, dbs)
  {
    var views, items := ReadViews(nodes, dbs), ReadItems(nodes, dbs);
    FirstItem(nodes, views, items, k).Some? && ItemIn(after.groups, after.items, k) == FirstItem(nodes, views, items, k)
  }

  lemma ItemReconciles<A>(nodes: seq<Ip>, dbs: map<Ip, Db<A>>, g: GroupRun<A>, s: ItemRun<A>, t: ItemRun<A>, names: seq<string>,
                          keys: seq<string>, k: string, ip: Ip)
    requires nodes != [] && Covers(nodes, dbs) && Between(nodes, dbs, g, names) && AllKeys(nodes, dbs, keys) && k in keys && ip in nodes
    requires s.dbs == g.dbs && Covers(nodes, t.dbs)
    requires ItemPhaseDone(nodes, g.views, ReadItems(nodes, g.dbs), s, t, keys)
    ensures ItemShows(nodes, dbs, t.dbs[ip], k)
    ensures FirstItem(nodes, g.views, ReadItems(nodes, g.dbs), k).Some? &&
            MissingOf(g.views[ip], FirstItem(nodes, g.views, ReadItems(nodes, g.dbs), k).value.names) == []
  {
    hide FirstGroup, ValueIn, Knows, OwnIds, MissingOf, KnownOf, Sound, NothingLacks;
    var fetched, views := ReadItems(nodes, g.dbs), ReadViews(nodes, dbs);
    var w := FirstItem(nodes, g.views, fetched, k);
    FirstItemFrom(nodes, g.views, fetched, k);
    hide FirstItem, ItemIn;
    FirstItemSame(nodes, g.views, views, fetched, ReadItems(nodes, dbs), k);
    var src :| src in nodes && k in dbs[src].items;
    assert k in fetched[src];
    WinnerNamesKnown(nodes, g.views, g.dbs, names, k, ip);
    assert ItemsSettled(nodes, g.views, fetched, keys, ip, t.dbs[ip].items);
    assert ItemIn(g.views[ip], t.dbs[ip].items, k) == Outcome(g.views[ip], ItemIn(g.views[ip], fetched[ip], k), w);
    assert t.dbs[ip].groups == g.views[ip];
  }

  /** The whole run: when every node can be read, every call succeeds and only own groups are assigned,
      no group is missing anywhere, and all nodes read back the same groups and the same items under
      the same group names, although their ids differ. */
  lemma RunReconciles<A>(nodes: seq<Ip>, dbs: map<Ip, Db<A>>, groupLedger: map<string, Stamps<Stored<GroupValue>>>,
                         itemLedger: map<string, Stamps<Stored<Named<A>>>>, groupsRead: set<Ip>, itemsRead: set<Ip>,
                         names: seq<string>, keys: seq<string>, now: int, calls: Calls, accepts: set<(Ip, string)>)
    requires |nodes| >= 2 && Distinct(nodes) && Covers(nodes, dbs) && Healthy(nodes, dbs)
    requires forall ip :: ip in nodes ==> ip in groupsRead && ip in itemsRead
    requires Distinct(names) && AllNames(nodes, dbs, names) && Distinct(keys) && AllKeys(nodes, dbs, keys)
    requires LedgerLoaded(nodes, groupLedger, now) && LedgerLoaded(nodes, itemLedger, now)
    requires forall n :: n in names ==> CallsSucceed(nodes, n, calls)
    requires forall ip, k :: ip in nodes && k in keys ==> (ip, k) in accepts
    ensures
      var (d, _, _, missing) := MergeOutcome(nodes, dbs, groupLedger, itemLedger, groupsRead, itemsRead, names, keys, now, calls, accepts);
      missing == [] && forall ip :: ip in nodes ==> ip in d && Reconciled(nodes, dbs, d[ip], names, keys)
  {
    hide GroupPhase, ItemPhase, Reconciled, Healthy, AllNames, AllKeys, LedgerLoaded, CallsSucceed, Reloaded;
    FilterAll(nodes, ip => ip in groupsRead);
    FilterAll(nodes, ip => ip in itemsRead);
    GroupsBetween(nodes, dbs, groupLedger, names, now, calls);
    var g := GroupPhase(nodes, Begun(nodes, dbs, groupLedger), names, now, calls);
    hide Between;
    ItemsReconcile(nodes, dbs, g, itemLedger, names, keys, now, accepts);
  }

  /** The ledgers a run saves are the loaded ledgers the next run starts from. */
  lemma SavedIsLoaded<V>(nodes: seq<Ip>, ledger: map<string, Stamps<Stored<V>>>, now: int)
    requires forall k, ip :: k in ledger && ip in ledger[k] ==> ledger[k][ip].changedAt <= now
    ensures LedgerLoaded(nodes, Reloaded(ledger), now)
  {
  }

  /** With fewer than two nodes whose groups can be read nothing is done. */
  lemma TooFewReadable<A>(nodes: seq<Ip>, dbs: map<Ip, Db<A>>, groupLedger: map<string, Stamps<Stored<GroupValue>>>,
                          itemLedger: map<string, Stamps<Stored<Named<A>>>>, groupsRead: set<Ip>, itemsRead: set<Ip>,
                          names: seq<string>, keys: seq<string>, now: int, calls: Calls, accepts: set<(Ip, string)>)
    requires Covers(nodes, dbs) && Distinct(nodes) && forall a, b :: a in nodes && b in nodes && a in groupsRead && b in groupsRead ==> a == b
    ensures MergeOutcome(nodes, dbs, groupLedger, itemLedger, groupsRead, itemsRead, names, keys, now, calls, accepts)
         == (dbs, groupLedger, itemLedger, [])
  {
    var read := Filter(nodes, ip => ip in groupsRead);
    DistinctFilter(nodes, ip => ip in groupsRead);
    TwoDiffer(read);
    hide Filter;
  }

  lemma TwoDiffer(s: seq<Ip>)
    requires Distinct(s)
    ensures |s| >= 2 ==> exists a, b :: a in s && b in s && a != b
  {
    if |s| >= 2 {
      assert s[0] in s && s[1] in s;
    }
  }

  /** The groups do not wait for the items: where the groups of two nodes can be read but the items of fewer,
      the groups settle on all nodes read, no item changes anywhere, and both ledgers are saved. */
  lemma GroupsWithoutItems<A>(nodes: seq<Ip>, dbs: map<Ip, Db<A>>, groupLedger: map<string, Stamps<Stored<GroupValue>>>,
                              itemLedger: map<string, Stamps<Stored<Named<A>>>>, groupsRead: set<Ip>, itemsRead: set<Ip>,
                              names: seq<string>, keys: seq<string>, now: int, calls: Calls, accepts: set<(Ip, string)>)
    requires |nodes| >= 2 && Distinct(nodes) && Covers(nodes, dbs) && Healthy(nodes, dbs) && forall ip :: ip in nodes ==> ip in groupsRead
    requires forall a, b :: a in nodes && b in nodes && a in itemsRead && b in itemsRead ==> a == b
    requires Distinct(names) && AllNames(nodes, dbs, names) && LedgerLoaded(nodes, groupLedger, now)
    requires forall n :: n in names ==> CallsSucceed(nodes, n, calls)
    ensures
      var (d, _, items, missing) := MergeOutcome(nodes, dbs, groupLedger, itemLedger, groupsRead, itemsRead, names, keys, now, calls, accepts);
      && missing == [] && items == Reloaded(itemLedger)
      && forall ip :: ip in nodes ==>
           && ip in d && d[ip].items == dbs[ip].items
           && forall n :: n in names ==>
                FirstGroup(nodes, ReadViews(nodes, dbs), n).Some? && ValueIn(d[ip].groups, n) == FirstGroup(nodes, ReadViews(nodes, dbs), n)
  {
    hide *;
    OnlyGroups(nodes, dbs, groupLedger, itemLedger, groupsRead, itemsRead, names, keys, now, calls, accepts);
    GroupsBetween(nodes, dbs, groupLedger, names, now, calls);
    AllCovered(nodes, dbs);
    BetweenGroups(nodes, dbs, GroupPhase(nodes, Begun(nodes, dbs, groupLedger), names, now, calls), names);
  }

  lemma AllCovered<A>(nodes: seq<Ip>, dbs: map<Ip, Db<A>>)
    requires Covers(nodes, dbs)
    ensures Covers(nodes, ReadViews(nodes, dbs))
  {
  }

  /** What the state between the phases says of each node. */
  lemma BetweenGroups<A>(nodes: seq<Ip>, dbs: map<Ip, Db<A>>, g: GroupRun<A>, names: seq<string>)
    requires Covers(nodes, dbs) && Between(nodes, dbs, g, names)
    ensures forall ip :: ip in nodes ==>
      && ip in g.dbs && ip in dbs && g.dbs[ip].items == dbs[ip].items
      && forall n :: n in names ==>
           FirstGroup(nodes, ReadViews(nodes, dbs), n).Some? && ValueIn(g.dbs[ip].groups, n) == FirstGroup(nodes, ReadViews(nodes, dbs), n)
  {
    hide FirstGroup, ValueIn, Sound, OwnIds, ItemIn, KnownEverywhere, Knows, ReadViews;
  }

  /** The run stops after the groups. */
  lemma OnlyGroups<A>(nodes: seq<Ip>, dbs: map<Ip, Db<A>>, groupLedger: map<string, Stamps<Stored<GroupValue>>>,
                      itemLedger: map<string, Stamps<Stored<Named<A>>>>, groupsRead: set<Ip>, itemsRead: set<Ip>,
                      names: seq<string>, keys: seq<string>, now: int, calls: Calls, accepts: set<(Ip, string)>)
    requires |nodes| >= 2 && Distinct(nodes) && Covers(nodes, dbs) && forall ip :: ip in nodes ==> ip in groupsRead
    requires forall a, b :: a in nodes && b in nodes && a in itemsRead && b in itemsRead ==> a == b
    ensures Covers(nodes, Begun(nodes, dbs, groupLedger).views)
    ensures
      var g := GroupPhase(nodes, Begun(nodes, dbs, groupLedger), names, now, calls);
      MergeOutcome(nodes, dbs, groupLedger, itemLedger, groupsRead, itemsRead, names, keys, now, calls, accepts)
      == (g.dbs, Reloaded(g.ledger), Reloaded(itemLedger), [])
  {
    FilterAll(nodes, ip => ip in groupsRead);
    DistinctFilter(nodes, ip => ip in itemsRead);
    TwoDiffer(Filter(nodes, ip => ip in itemsRead));
    hide GroupPhase, ItemPhase, Reloaded, Filter;
  }

  // --- Calls that fail ---

  /** No group of the node changed but those whose posting it accepted, and no item. */
  ghost predicate GroupsKept<A>(before: Db<A>, after: Db<A>, ip: Ip, calls: Calls)
  {
    Sound(after) && after.items == before.items && forall n :: (ip, n) !in calls.accepts ==> ValueIn(after.groups, n) == ValueIn(before.groups, n)
  }

  /** No item of the node changed but those whose push it accepted, and no group. */
  ghost predicate ItemsKept<A>(before: Db<A>, after: Db<A>, ip: Ip, accepts: set<(Ip, string)>)
  {
    after.groups == before.groups && forall k :: (ip, k) !in accepts ==> Get(after.items, k) == Get(before.items, k)
  }

  lemma {:induction false} PostedKeeps<A>(stale: seq<Ip>, dbs: map<Ip, Db<A>>, views: Views, name: string, v: GroupValue, calls: Calls, ip: Ip)
    requires ip in dbs && Sound(dbs[ip])
    ensures
      var d := Posted(stale, dbs, views, name, v, calls).0;
      GroupsKept(dbs[ip], d[ip], ip, calls) && (ip !in stale ==> d[ip] == dbs[ip])
  {
    hide ValueIn, PostGroup, Sound;
    if stale != [] {
      var init, last := stale[..|stale| - 1], stale[|stale| - 1];
      assert stale == init + [last];
      PostedKeeps(init, dbs, views, name, v, calls, ip);
      var d := Posted(init, dbs, views, name, v, calls).0[ip];
      if last == ip && (ip, name) in calls.accepts {
        PostGroupAt(d, name, v, name);
        forall n | (ip, n) !in calls.accepts ensures ValueIn(PostGroup(d, name, v).groups, n) == ValueIn(d.groups, n) {
          PostGroupAt(d, name, v, n);
        }
      }
    }
  }

  lemma GroupStepKeeps<A>(nodes: seq<Ip>, s: GroupRun<A>, name: string, now: int, calls: Calls, ip: Ip)
    requires nodes != [] && Covers(nodes, s.views) && ip in s.dbs && Sound(s.dbs[ip])
    ensures
      var d := GroupStep(nodes, s, name, now, calls).dbs;
      GroupsKept(s.dbs[ip], d[ip], ip, calls) && (ip !in nodes ==> d[ip] == s.dbs[ip])
  {
    var values := GroupValues(nodes, s.views, name);
    var winner := Winner(nodes, Observe(nodes, values, Get(s.ledger, name).GetOr(map[]), now));
    ValuesCover(nodes, s.views, name);
    StaleAreNodes(nodes, values, winner);
    hide ValueIn, Sound, Posted, Copied, Stale, Winner, Observe;
    if winner.value.Some? {
      PostedKeeps(Stale(nodes, values, winner), s.dbs, s.views, name, winner.value.value.value, calls, ip);
    }
  }

  lemma {:induction false} GroupPhaseKeeps<A>(nodes: seq<Ip>, s: GroupRun<A>, names: seq<string>, now: int, calls: Calls, ip: Ip)
    requires nodes != [] && Covers(nodes, s.views) && ip in s.dbs && Sound(s.dbs[ip])
    ensures
      var d := GroupPhase(nodes, s, names, now, calls).dbs;
      GroupsKept(s.dbs[ip], d[ip], ip, calls) && (ip !in nodes ==> d[ip] == s.dbs[ip])
  {
    hide ValueIn, Sound, GroupStep;
    if names != [] {
      GroupPhaseKeeps(nodes, s, names[..|names| - 1], now, calls, ip);
      GroupStepKeeps(nodes, GroupPhase(nodes, s, names[..|names| - 1], now, calls), names[|names| - 1], now, calls, ip);
    }
  }

  lemma {:induction false} AssignedKeeps<A>(stale: seq<Ip>, views: Views, dbs: map<Ip, Db<A>>, missing: seq<Missing>, key: string, v: Named<A>,
                                            accepts: set<(Ip, string)>, ip: Ip)
    requires Covers(stale, views) && ip in dbs
    ensures
      var d := Assigned(stale, views, dbs, missing, key, v, accepts).0;
      ItemsKept(dbs[ip], d[ip], ip, accepts) && (ip !in stale ==> d[ip] == dbs[ip])
  {
    hide IdsOf, MissingOf;
    if stale != [] {
      assert stale == stale[..|stale| - 1] + [stale[|stale| - 1]];
      AssignedKeeps(stale[..|stale| - 1], views, dbs, missing, key, v, accepts, ip);
    }
  }

  lemma ItemStepKeeps<A>(nodes: seq<Ip>, views: Views, fetched: Snapshots<A>, s: ItemRun<A>, key: string, now: int,
                         accepts: set<(Ip, string)>, ip: Ip)
    requires nodes != [] && Covers(nodes, views) && Covers(nodes, fetched) && ip in s.dbs
    ensures
      var d := ItemStep(nodes, views, fetched, s, key, now, accepts).dbs;
      ItemsKept(s.dbs[ip], d[ip], ip, accepts) && (ip !in nodes ==> d[ip] == s.dbs[ip])
  {
    var values := ItemValues(nodes, views, fetched, key);
    var winner := Winner(nodes, Observe(nodes, values, Get(s.ledger, key).GetOr(map[]), now));
    ItemValuesCover(nodes, views, fetched, key);
    StaleAreNodes(nodes, values, winner);
    hide Assigned, Copied, Stale, Winner, Observe;
    if winner.value.Some? {
      AssignedKeeps(Stale(nodes, values, winner), views, s.dbs, s.missing, key, winner.value.value.value, accepts, ip);
    }
  }

  lemma {:induction false} ItemPhaseKeeps<A>(nodes: seq<Ip>, views: Views, fetched: Snapshots<A>, s: ItemRun<A>, keys: seq<string>, now: int,
                                             accepts: set<(Ip, string)>, ip: Ip)
    requires nodes != [] && Covers(nodes, views) && Covers(nodes, fetched) && ip in s.dbs
    ensures
      var d := ItemPhase(nodes, views, fetched, s, keys, now, accepts).dbs;
      ItemsKept(s.dbs[ip], d[ip], ip, accepts) && (ip !in nodes ==> d[ip] == s.dbs[ip])
  {
    hide ItemStep;
    if keys != [] {
      ItemPhaseKeeps(nodes, views, fetched, s, keys[..|keys| - 1], now, accepts, ip);
      ItemStepKeeps(nodes, views, fetched, ItemPhase(nodes, views, fetched, s, keys[..|keys| - 1], now, accepts), keys[|keys| - 1], now, accepts, ip);
    }
  }

  /** Whatever fails, on every node a group changes its value only by a posting the node accepted and an item only by
      a push it accepted; a node outside the list or whose groups cannot be read is left as it was, and one
      whose items cannot be read keeps its items. */
  lemma EachNodeByItself<A>(nodes: seq<Ip>, dbs: map<Ip, Db<A>>, groupLedger: map<string, Stamps<Stored<GroupValue>>>,
                            itemLedger: map<string, Stamps<Stored<Named<A>>>>, groupsRead: set<Ip>, itemsRead: set<Ip>,
                            names: seq<string>, keys: seq<string>, now: int, calls: Calls, accepts: set<(Ip, string)>, ip: Ip)
    requires Covers(nodes, dbs) && ip in dbs && Sound(dbs[ip])
    ensures
      var d := MergeOutcome(nodes, dbs, groupLedger, itemLedger, groupsRead, itemsRead, names, keys, now, calls, accepts).0;
      && ip in d
      && (forall n :: (ip, n) !in calls.accepts ==> ValueIn(d[ip].groups, n) == ValueIn(dbs[ip].groups, n))
      && (forall k :: (ip, k) !in accepts ==> Get(d[ip].items, k) == Get(dbs[ip].items, k))
      && (ip !in nodes || ip !in groupsRead ==> d[ip] == dbs[ip]) && (ip !in itemsRead ==> d[ip].items == dbs[ip].items)
  {
    hide ValueIn, Sound, GroupPhase, ItemPhase, Reloaded;
    var groupNodes := Filter(nodes, x => x in groupsRead);
    var itemNodes := Filter(groupNodes, x => x in itemsRead);
    if |groupNodes| >= 2 {
      var begun := GroupRun(dbs, ReadViews(groupNodes, dbs), groupLedger);
      GroupPhaseKeeps(groupNodes, begun, names, now, calls, ip);
      var g := GroupPhase(groupNodes, begun, names, now, calls);
      if |itemNodes| >= 2 {
        ItemPhaseKeeps(itemNodes, g.views, ReadItems(itemNodes, g.dbs), ItemRun(g.dbs, itemLedger, []), keys, now, accepts, ip);
      }
    }
  }

  /** A run is a run over the nodes whose groups can be read: the others do not count. */
  lemma OnlyReadable<A>(nodes: seq<Ip>, dbs: map<Ip, Db<A>>, groupLedger: map<string, Stamps<Stored<GroupValue>>>,
                        itemLedger: map<string, Stamps<Stored<Named<A>>>>, groupsRead: set<Ip>, itemsRead: set<Ip>,
                        names: seq<string>, keys: seq<string>, now: int, calls: Calls, accepts: set<(Ip, string)>)
    requires Covers(nodes, dbs)
    ensures
      var readable := Filter(nodes, ip => ip in groupsRead);
      MergeOutcome(nodes, dbs, groupLedger, itemLedger, groupsRead, itemsRead, names, keys, now, calls, accepts)
      == MergeOutcome(readable, dbs, groupLedger, itemLedger, groupsRead, itemsRead, names, keys, now, calls, accepts)
  {
    var readable := Filter(nodes, ip => ip in groupsRead);
    FilterAll(readable, ip => ip in groupsRead);
    hide GroupPhase, ItemPhase, Reloaded, Filter;
  }
}
