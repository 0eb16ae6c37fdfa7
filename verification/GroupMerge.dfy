/** Reconciling groups, and what is assigned to groups: clients, adlists and domain overrides. */
module GroupMerge {
  import opened Common
  import opened Ledger
  import opened GroupNames

  /** A value as the ledger holds it: written by this run, or loaded from the file, where a tuple has
      become a list. The two never compare equal. */
  datatype Stored<+V> = Fresh(value: V) | Loaded(value: V)

  datatype GroupValue = GroupValue(enabled: bool, comment: string)

  /** A client, an adlist or a domain override: its own settings, and its groups by local id. */
  datatype Item<+A> = Item(attrs: A, groups: seq<nat>)

  /** The same with its groups by name. */
  datatype Named<+A> = Named(attrs: A, names: seq<string>)

  datatype Db<+A> = Db(groups: seq<Group>, nextId: nat, items: map<string, Item<A>>)

  datatype Missing = Missing(ip: Ip, key: string, names: seq<string>)

  // --- Which value wins ---

  /** Loaded from the file, and no stamp later than this run. */
  ghost predicate FromFile<V>(nodes: seq<Ip>, ledger: Stamps<Stored<V>>, now: int)
  {
    forall ip :: ip in nodes && ip in ledger ==>
      ledger[ip].changedAt <= now && (ledger[ip].value.Some? ==> ledger[ip].value.value.Loaded?)
  }

  ghost predicate AllFresh<V>(nodes: seq<Ip>, values: Values<Stored<V>>)
    requires Covers(nodes, values)
  {
    forall ip :: ip in nodes && values[ip].Some? ==> values[ip].value.Fresh?
  }

  function FirstPresent<V>(nodes: seq<Ip>, values: Values<V>): Option<V>
    requires Covers(nodes, values)
  {
    if nodes == [] then None else if values[nodes[0]].Some? then values[nodes[0]] else FirstPresent(nodes[1..], values)
  }

  lemma {:induction false} FirstPresentAt<V>(nodes: seq<Ip>, values: Values<V>, k: nat)
    requires Covers(nodes, values) && k < |nodes|
    requires forall j :: 0 <= j < k ==> values[nodes[j]].None?
    ensures values[nodes[k]].Some? ==> FirstPresent(nodes, values) == values[nodes[k]]
  {
    if k > 0 {
      FirstPresentAt(nodes[1..], values, k - 1);
    }
  }

  lemma {:induction false} NonePresent<V>(nodes: seq<Ip>, values: Values<V>)
    requires Covers(nodes, values) && forall ip :: ip in nodes ==> values[ip].None?
    ensures FirstPresent(nodes, values) == None
  {
    if nodes != [] {
      NonePresent(nodes[1..], values);
    }
  }

  /** Because a loaded value never equals a current one, every node that has the item is stamped by
      every run: the first node that has it wins, whatever was changed where, and an item removed from
      some nodes comes back. */
  lemma FirstPresentWins<V>(nodes: seq<Ip>, values: Values<Stored<V>>, ledger: Stamps<Stored<V>>, now: int)
    requires nodes != [] && Covers(nodes, values) && AllFresh(nodes, values) && FromFile(nodes, ledger, now)
    ensures Winner(nodes, Observe(nodes, values, ledger, now)).value == FirstPresent(nodes, values)
  {
    var seen := Observe(nodes, values, ledger, now);
    var k := Leader(nodes, seen, |nodes|);
    assert forall ip :: ip in nodes ==> seen[ip].value == values[ip] && (values[ip].Some? ==> seen[ip].changedAt == now) && seen[ip].changedAt <= now;
    hide Leader, Observe;
    if values[nodes[k]].Some? {
      forall j | 0 <= j < k ensures values[nodes[j]].None? {
        assert Outranks(seen[nodes[k]], seen[nodes[j]]);
      }
      FirstPresentAt(nodes, values, k);
    } else {
      forall ip | ip in nodes ensures values[ip].None? {
        WinnerTops(nodes, seen, ip);
      }
      NonePresent(nodes, values);
    }
  }

  // --- Groups ---

  function Renewed(g: Group, name: string, v: GroupValue): Group
  {
    if g.name == name then g.(enabled := v.enabled, comment := v.comment) else g
  }

  /** POST /groups: create or update; a new group gets an id of the node's own. */
  function PostGroup<A>(db: Db<A>, name: string, v: GroupValue): Db<A>
  {
    if Knows(db.groups, name) then db.(groups := Map(db.groups, g => Renewed(g, name, v)))
    else db.(groups := db.groups + [Group(name, db.nextId, v.enabled, v.comment)], nextId := db.nextId + 1)
  }

  function ValueIn(groups: seq<Group>, name: string): Option<GroupValue>
  {
    if groups == [] then None
    else
      var g := groups[|groups| - 1];
      if g.name == name then Some(GroupValue(g.enabled, g.comment)) else ValueIn(groups[..|groups| - 1], name)
  }

  function Freshly<V>(v: Option<V>): Option<Stored<V>>
  {
    match v case None => None case Some(x) => Some(Fresh(x))
  }

  type Views = map<Ip, seq<Group>>

  function GroupValues(nodes: seq<Ip>, views: Views, name: string): Values<Stored<GroupValue>>
    requires Covers(nodes, views)
  {
    map ip | ip in nodes :: Freshly(ValueIn(views[ip], name))
  }

  /** Which calls succeed: posting a group on a node, and reading its groups again. */
  datatype Calls = Calls(accepts: set<(Ip, string)>, refreshes: set<(Ip, string)>)

  datatype GroupRun<A> = GroupRun(dbs: map<Ip, Db<A>>, views: Views, ledger: map<string, Stamps<Stored<GroupValue>>>)

  /** Posting the winner to the stale nodes, one after the other. */
  function Posted<A>(stale: seq<Ip>, dbs: map<Ip, Db<A>>, views: Views, name: string, v: GroupValue, calls: Calls)
      : (r: (map<Ip, Db<A>>, Views))
    ensures r.0.Keys == dbs.Keys && r.1.Keys == views.Keys
  {
    if stale == [] then (dbs, views)
    else
      var (d, w) := Posted(stale[..|stale| - 1], dbs, views, name, v, calls);
      var ip := stale[|stale| - 1];
      if (ip, name) !in calls.accepts || ip !in d || ip !in w then (d, w)
      else
        var d' := d[ip := PostGroup(d[ip], name, v)];
        (d', if (ip, name) in calls.refreshes then w[ip := d'[ip].groups] else w)
  }

  /** The ledger entry after copying the winner's stamp for each accepted push. */
  function Copied<V>(stale: seq<Ip>, seen: Stamps<V>, winner: Entry<V>, accepted: Ip -> bool): Stamps<V>
  {
    if stale == [] then seen
    else
      var s := Copied(stale[..|stale| - 1], seen, winner, accepted);
      var ip := stale[|stale| - 1];
      if accepted(ip) then s[ip := winner] else s
  }

  function GroupStep<A>(nodes: seq<Ip>, s: GroupRun<A>, name: string, now: int, calls: Calls): (r: GroupRun<A>)
    requires nodes != [] && Covers(nodes, s.views)
    ensures r.dbs.Keys == s.dbs.Keys && r.views.Keys == s.views.Keys
  {
    var values := GroupValues(nodes, s.views, name);
    var seen := Observe(nodes, values, Get(s.ledger, name).GetOr(map[]), now);
    var winner := Winner(nodes, seen);
    if winner.value.None? then s.(ledger := s.ledger[name := seen])
    else
      var stale := Stale(nodes, values, winner);
      var p := Posted(stale, s.dbs, s.views, name, winner.value.value.value, calls);
      GroupRun(p.0, p.1, s.ledger[name := Copied(stale, seen, winner, ip => (ip, name) in calls.accepts)])
  }

  function GroupPhase<A>(nodes: seq<Ip>, s: GroupRun<A>, names: seq<string>, now: int, calls: Calls): (r: GroupRun<A>)
    requires nodes != [] && Covers(nodes, s.views)
    ensures r.dbs.Keys == s.dbs.Keys && r.views.Keys == s.views.Keys
  {
    if names == [] then s
    else GroupStep(nodes, GroupPhase(nodes, s, names[..|names| - 1], now, calls), names[|names| - 1], now, calls)
  }

  // --- Items ---

  function NamedItem<A>(groups: seq<Group>, item: Item<A>): Named<A>
  {
    Named(item.attrs, NamesOf(groups, item.groups))
  }

  function ItemIn<A>(groups: seq<Group>, items: map<string, Item<A>>, key: string): Option<Named<A>>
  {
    if key in items then Some(NamedItem(groups, items[key])) else None
  }

  type Snapshots<A> = map<Ip, map<string, Item<A>>>

  function ItemValues<A>(nodes: seq<Ip>, views: Views, fetched: Snapshots<A>, key: string): Values<Stored<Named<A>>>
    requires Covers(nodes, views) && Covers(nodes, fetched)
  {
    map ip | ip in nodes :: Freshly(ItemIn(views[ip], fetched[ip], key))
  }

  datatype ItemRun<A> = ItemRun(dbs: map<Ip, Db<A>>, ledger: map<string, Stamps<Stored<Named<A>>>>, missing: seq<Missing>)

  /** Pushing the winner to the stale nodes: its group names become each node's own ids, and names
      unknown there are reported. */
  function Assigned<A>(stale: seq<Ip>, views: Views, dbs: map<Ip, Db<A>>, missing: seq<Missing>, key: string, v: Named<A>,
                       accepts: set<(Ip, string)>): (r: (map<Ip, Db<A>>, seq<Missing>))
    requires Covers(stale, views)
    ensures r.0.Keys == dbs.Keys
  {
    if stale == [] then (dbs, missing)
    else
      var (d, m) := Assigned(stale[..|stale| - 1], views, dbs, missing, key, v, accepts);
      var ip := stale[|stale| - 1];
      var unknown := MissingOf(views[ip], v.names);
      var m' := if unknown == [] then m else m + [Missing(ip, key, unknown)];
      if (ip, key) !in accepts || ip !in d then (d, m')
      else (d[ip := d[ip].(items := d[ip].items[key := Item(v.attrs, IdsOf(views[ip], v.names))])], m')
  }

  function ItemStep<A(==)>(nodes: seq<Ip>, views: Views, fetched: Snapshots<A>, s: ItemRun<A>, key: string, now: int,
                       accepts: set<(Ip, string)>): (r: ItemRun<A>)
    requires nodes != [] && Covers(nodes, views) && Covers(nodes, fetched)
    ensures r.dbs.Keys == s.dbs.Keys
  {
    var values := ItemValues(nodes, views, fetched, key);
    var seen := Observe(nodes, values, Get(s.ledger, key).GetOr(map[]), now);
    var winner := Winner(nodes, seen);
    if winner.value.None? then s.(ledger := s.ledger[key := seen])
    else
      var stale := Stale(nodes, values, winner);
      var p := Assigned(stale, views, s.dbs, s.missing, key, winner.value.value.value, accepts);
      ItemRun(p.0, s.ledger[key := Copied(stale, seen, winner, ip => (ip, key) in accepts)], p.1)
  }

  function ItemPhase<A(==)>(nodes: seq<Ip>, views: Views, fetched: Snapshots<A>, s: ItemRun<A>, keys: seq<string>, now: int,
                        accepts: set<(Ip, string)>): (r: ItemRun<A>)
    requires nodes != [] && Covers(nodes, views) && Covers(nodes, fetched)
    ensures r.dbs.Keys == s.dbs.Keys
  {
    if keys == [] then s
    else ItemStep(nodes, views, fetched, ItemPhase(nodes, views, fetched, s, keys[..|keys| - 1], now, accepts), keys[|keys| - 1], now, accepts)
  }

  // --- The run ---

  /** Saving and loading the ledger turns its tuples into lists. */
  function Reloaded<V>(ledger: map<string, Stamps<Stored<V>>>): map<string, Stamps<Stored<V>>>
  {
    map k | k in ledger :: ReloadedStamps(ledger[k])
  }

  function ReloadedStamps<V>(stamps: Stamps<Stored<V>>): Stamps<Stored<V>>
  {
    map ip | ip in stamps ::
      match stamps[ip].value
      case None => stamps[ip]
      case Some(x) => Entry(Some(Loaded(x.value)), stamps[ip].changedAt)
  }

  /** Nothing is lost on the way but that a value is fresh: a loaded ledger has the entries that were saved, with
      their times and contents. */
  lemma LoadedIsSaved<V>(ledger: map<string, Stamps<Stored<V>>>, k: string, ip: Ip)
    ensures k in Reloaded(ledger) <==> k in ledger
    ensures k in ledger ==> (ip in Reloaded(ledger)[k] <==> ip in ledger[k])
    ensures k in ledger && ip in ledger[k] ==>
      var was, now := ledger[k][ip], Reloaded(ledger)[k][ip];
      && now.changedAt == was.changedAt && (now.value.None? <==> was.value.None?)
      && (was.value.Some? ==> now.value.value == Loaded(was.value.value.value))
  {
  }

  function ReadViews<A>(nodes: seq<Ip>, dbs: map<Ip, Db<A>>): Views
    requires Covers(nodes, dbs)
  {
    map ip | ip in nodes :: dbs[ip].groups
  }

  function ReadItems<A>(nodes: seq<Ip>, dbs: map<Ip, Db<A>>): Snapshots<A>
    requires Covers(nodes, dbs)
  {
    map ip | ip in nodes :: dbs[ip].items
  }

  /** The nodes' databases and the two saved ledgers, with a run of the merge over them. */
  class Reconciler<A(==)> {
    var dbs: map<Ip, Db<A>>
    var groupLedger: map<string, Stamps<Stored<GroupValue>>>
    var itemLedger: map<string, Stamps<Stored<Named<A>>>>

    constructor (dbs: map<Ip, Db<A>>)
      ensures this.dbs == dbs && groupLedger == map[] && itemLedger == map[]
    {
      this.dbs, groupLedger, itemLedger := dbs, map[], map[];
    }

    method MergeGroup(nodes: seq<Ip>, views: Views, ledger: map<string, Stamps<Stored<GroupValue>>>, name: string, now: int, calls: Calls)
        returns (views': Views, ledger': map<string, Stamps<Stored<GroupValue>>>)
      requires nodes != [] && Covers(nodes, views) && Covers(nodes, dbs)
      modifies this`dbs
      ensures dbs.Keys == old(dbs).Keys
      ensures GroupRun(dbs, views', ledger') == GroupStep(nodes, GroupRun(old(dbs), views, ledger), name, now, calls)
    {
      hide Observe, Winner, Stale, GroupValues, PostGroup, Posted, Copied;
      views' := views;
      var values := GroupValues(nodes, views, name);
      assert Covers(nodes, values) by { ValuesCover(nodes, views, name); }
      var winner, seen, stale := PickWinner(nodes, values, Get(ledger, name).GetOr(map[]), now);
      assert forall ip :: ip in stale ==> ip in nodes by { StaleAreNodes(nodes, values, winner); }
      ghost var accepted := ip => (ip, name) in calls.accepts;
      var updated := seen;
      if winner.value.Some? {
        var v := winner.value.value.value;
        NothingPosted(old(dbs), views, name, v, calls);
        CopiedNone(seen, winner, accepted);
        for i := 0 to |stale|
          invariant (dbs, views') == Posted(stale[..i], old(dbs), views, name, v, calls)
          invariant updated == Copied(stale[..i], seen, winner, accepted)
        {
          PostedStep(stale, i, old(dbs), views, name, v, calls);
          CopiedStep(stale, i, seen, winner, accepted);
          var ip := stale[i];
          if (ip, name) in calls.accepts {
            dbs := dbs[ip := PostGroup(dbs[ip], name, v)];
            updated := updated[ip := winner];
            if (ip, name) in calls.refreshes {
              views' := views'[ip := dbs[ip].groups];
            }
          }
        }
        assert stale[..|stale|] == stale;
        CopiedSame(stale, seen, winner, accepted, ip => (ip, name) in calls.accepts);
      }
      ledger' := ledger[name := updated];
    }

    method MergeItem(nodes: seq<Ip>, views: Views, fetched: Snapshots<A>, ledger: map<string, Stamps<Stored<Named<A>>>>,
                     reported: seq<Missing>, key: string, now: int, accepts: set<(Ip, string)>)
        returns (ledger': map<string, Stamps<Stored<Named<A>>>>, missing: seq<Missing>)
      requires nodes != [] && Covers(nodes, views) && Covers(nodes, fetched) && Covers(nodes, dbs)
      modifies this`dbs
      ensures dbs.Keys == old(dbs).Keys
      ensures ItemRun(dbs, ledger', missing) == ItemStep(nodes, views, fetched, ItemRun(old(dbs), ledger, reported), key, now, accepts)
    {
      hide Observe, Winner, Stale, ItemValues, MissingOf, IdsOf;
      missing := reported;
      var values := ItemValues(nodes, views, fetched, key);
      assert Covers(nodes, values) by { ItemValuesCover(nodes, views, fetched, key); }
      var winner, seen, stale := PickWinner(nodes, values, Get(ledger, key).GetOr(map[]), now);
      assert forall ip :: ip in stale ==> ip in nodes by { StaleAreNodes(nodes, values, winner); }
      ghost var accepted := ip => (ip, key) in accepts;
      var updated := seen;
      if winner.value.Some? {
        var v := winner.value.value.value;
        for i := 0 to |stale|
          invariant (dbs, missing) == Assigned(stale[..i], views, old(dbs), reported, key, v, accepts)
          invariant updated == Copied(stale[..i], seen, winner, accepted)
        {
          assert stale[..i + 1][..i] == stale[..i];
          var ip := stale[i];
          var ids, unknown := IdsOf(views[ip], v.names), MissingOf(views[ip], v.names);
          if unknown != [] {
            missing := missing + [Missing(ip, key, unknown)];
          }
          if (ip, key) in accepts {
            dbs := dbs[ip := dbs[ip].(items := dbs[ip].items[key := Item(v.attrs, ids)])];
            updated := updated[ip := winner];
          }
        }
        assert stale[..|stale|] == stale;
        CopiedSame(stale, seen, winner, accepted, ip => (ip, key) in accepts);
      }
      ledger' := ledger[key := updated];
    }

    method MergeGroups(nodes: seq<Ip>, names: seq<string>, now: int, calls: Calls)
        returns (views: Views, ledger: map<string, Stamps<Stored<GroupValue>>>)
      requires nodes != [] && Covers(nodes, dbs)
      modifies this`dbs
      ensures dbs.Keys == old(dbs).Keys && Covers(nodes, views)
      ensures GroupRun(dbs, views, ledger)
           == GroupPhase(nodes, GroupRun(old(dbs), ReadViews(nodes, old(dbs)), groupLedger), names, now, calls)
    {
      hide GroupStep;
      views, ledger := ReadViews(nodes, dbs), groupLedger;
      ghost var start := GroupRun(dbs, views, ledger);
      for i := 0 to |names|
        invariant Covers(nodes, views) && dbs.Keys == old(dbs).Keys
        invariant GroupRun(dbs, views, ledger) == GroupPhase(nodes, start, names[..i], now, calls)
      {
        assert names[..i + 1][..i] == names[..i];
        views, ledger := MergeGroup(nodes, views, ledger, names[i], now, calls);
      }
      assert names[..|names|] == names;
    }

    method MergeItems(nodes: seq<Ip>, views: Views, keys: seq<string>, now: int, accepts: set<(Ip, string)>)
        returns (ledger: map<string, Stamps<Stored<Named<A>>>>, missing: seq<Missing>)
      requires nodes != [] && Covers(nodes, views) && Covers(nodes, dbs)
      modifies this`dbs
      ensures dbs.Keys == old(dbs).Keys
      ensures ItemRun(dbs, ledger, missing)
           == ItemPhase(nodes, views, ReadItems(nodes, old(dbs)), ItemRun(old(dbs), itemLedger, []), keys, now, accepts)
    {
      hide ItemStep;
      ledger, missing := itemLedger, [];
      var fetched := ReadItems(nodes, dbs);
      ghost var begin := ItemRun(dbs, ledger, missing);
      for i := 0 to |keys|
        invariant dbs.Keys == old(dbs).Keys
        invariant ItemRun(dbs, ledger, missing) == ItemPhase(nodes, views, fetched, begin, keys[..i], now, accepts)
      {
        assert keys[..i + 1][..i] == keys[..i];
        ledger, missing := MergeItem(nodes, views, fetched, ledger, missing, keys[i], now, accepts);
      }
      assert keys[..|keys|] == keys;
    }

    /** Groups first, then the items under their group names. `names` and `keys` give the order in
        which the sets of all names and of all keys are walked. */
    method Merge(nodes: seq<Ip>, groupsRead: set<Ip>, itemsRead: set<Ip>, names: seq<string>, keys: seq<string>, now: int,
                 calls: Calls, accepts: set<(Ip, string)>) returns (missing: seq<Missing>)
      requires Covers(nodes, dbs)
      modifies this
      ensures
        (dbs, groupLedger, itemLedger, missing)
        == MergeOutcome(nodes, old(dbs), old(groupLedger), old(itemLedger), groupsRead, itemsRead, names, keys, now, calls, accepts)
    {
      hide GroupPhase, ItemPhase, Reloaded;
      var groupNodes := Filter(nodes, ip => ip in groupsRead);
      if |groupNodes| < 2 {
        return [];
      }
      var views, ledger := MergeGroups(groupNodes, names, now, calls);
      groupLedger := Reloaded(ledger);
      var itemNodes := Filter(groupNodes, ip => ip in itemsRead);
      if |itemNodes| < 2 {
        itemLedger := Reloaded(itemLedger);
        return [];
      }
      var items;
      items, missing := MergeItems(itemNodes, views, keys, now, accepts);
      itemLedger := Reloaded(items);
    }
  }

  lemma ValuesCover(nodes: seq<Ip>, views: Views, name: string)
    requires Covers(nodes, views)
    ensures Covers(nodes, GroupValues(nodes, views, name))
  {
  }

  lemma ItemValuesCover<A>(nodes: seq<Ip>, views: Views, fetched: Snapshots<A>, key: string)
    requires Covers(nodes, views) && Covers(nodes, fetched)
    ensures Covers(nodes, ItemValues(nodes, views, fetched, key))
  {
  }

  lemma StaleAreNodes<V>(nodes: seq<Ip>, values: Values<V>, winner: Entry<V>)
    requires Covers(nodes, values)
    ensures forall ip :: ip in Stale(nodes, values, winner) <==> ip in nodes && values[ip] != winner.value
  {
  }

  lemma NothingPosted<A>(dbs: map<Ip, Db<A>>, views: Views, name: string, v: GroupValue, calls: Calls)
    ensures Posted([], dbs, views, name, v, calls) == (dbs, views)
  {
  }

  lemma PostedStep<A>(stale: seq<Ip>, i: nat, dbs: map<Ip, Db<A>>, views: Views, name: string, v: GroupValue, calls: Calls)
    requires i < |stale|
    ensures
      var (d, w) := Posted(stale[..i], dbs, views, name, v, calls);
      var ip := stale[i];
      Posted(stale[..i + 1], dbs, views, name, v, calls)
      == if (ip, name) !in calls.accepts || ip !in d || ip !in w then (d, w)
         else
           var d' := d[ip := PostGroup(d[ip], name, v)];
           (d', if (ip, name) in calls.refreshes then w[ip := d'[ip].groups] else w)
  {
    hide PostGroup;
    assert stale[..i + 1][..i] == stale[..i];
  }

  lemma CopiedNone<V>(seen: Stamps<V>, winner: Entry<V>, accepted: Ip -> bool)
    ensures Copied([], seen, winner, accepted) == seen
  {
  }

  lemma CopiedStep<V>(stale: seq<Ip>, i: nat, seen: Stamps<V>, winner: Entry<V>, accepted: Ip -> bool)
    requires i < |stale|
    ensures
      var s := Copied(stale[..i], seen, winner, accepted);
      Copied(stale[..i + 1], seen, winner, accepted) == if accepted(stale[i]) then s[stale[i] := winner] else s
  {
    assert stale[..i + 1][..i] == stale[..i];
  }

  lemma {:induction false} CopiedSame<V>(stale: seq<Ip>, seen: Stamps<V>, winner: Entry<V>, p: Ip -> bool, q: Ip -> bool)
    requires forall ip :: p(ip) <==> q(ip)
    ensures Copied(stale, seen, winner, p) == Copied(stale, seen, winner, q)
  {
    if stale != [] {
      CopiedSame(stale[..|stale| - 1], seen, winner, p, q);
    }
  }

  lemma {:induction false} CopiedAt<V>(stale: seq<Ip>, seen: Stamps<V>, winner: Entry<V>, accepted: Ip -> bool, ip: Ip)
    requires ip in seen
    ensures
      var s := Copied(stale, seen, winner, accepted);
      ip in s && s[ip] == if ip in stale && accepted(ip) then winner else seen[ip]
  {
    if stale != [] {
      assert stale == stale[..|stale| - 1] + [stale[|stale| - 1]];
      CopiedAt(stale[..|stale| - 1], seen, winner, accepted, ip);
    }
  }

  /** After a group's turn the ledger has the winner for each node that differed and accepted the push, and what
      was observed for each other; no other group's entry is touched. */
  lemma GroupStamps<A>(nodes: seq<Ip>, s: GroupRun<A>, name: string, now: int, calls: Calls, ip: Ip)
    requires Covers(nodes, s.views) && ip in nodes
    ensures
      var values, ledger := GroupValues(nodes, s.views, name), GroupStep(nodes, s, name, now, calls).ledger;
      var seen := Observe(nodes, values, Get(s.ledger, name).GetOr(map[]), now);
      var winner := Winner(nodes, seen);
      && name in ledger && ip in ledger[name] && (forall n :: n != name ==> Get(ledger, n) == Get(s.ledger, n))
      && ledger[name][ip] == if winner.value.Some? && values[ip] != winner.value && (ip, name) in calls.accepts then winner else seen[ip]
  {
    var values := GroupValues(nodes, s.views, name);
    var seen := Observe(nodes, values, Get(s.ledger, name).GetOr(map[]), now);
    var winner := Winner(nodes, seen);
    ValuesCover(nodes, s.views, name);
    StaleAreNodes(nodes, values, winner);
    CopiedAt(Stale(nodes, values, winner), seen, winner, x => (x, name) in calls.accepts, ip);
    CopiedSame(Stale(nodes, values, winner), seen, winner, x => (x, name) in calls.accepts, x => (x, name) in calls.accepts);
    hide Posted, Copied, Stale, Winner, GroupValues;
  }

  /** The same of an item's turn. */
  lemma ItemStamps<A>(nodes: seq<Ip>, views: Views, fetched: Snapshots<A>, s: ItemRun<A>, key: string, now: int,
                      accepts: set<(Ip, string)>, ip: Ip)
    requires Covers(nodes, views) && Covers(nodes, fetched) && ip in nodes
    ensures
      var values, ledger := ItemValues(nodes, views, fetched, key), ItemStep(nodes, views, fetched, s, key, now, accepts).ledger;
      var seen := Observe(nodes, values, Get(s.ledger, key).GetOr(map[]), now);
      var winner := Winner(nodes, seen);
      && key in ledger && ip in ledger[key] && (forall k :: k != key ==> Get(ledger, k) == Get(s.ledger, k))
      && ledger[key][ip] == if winner.value.Some? && values[ip] != winner.value && (ip, key) in accepts then winner else seen[ip]
  {
    var values := ItemValues(nodes, views, fetched, key);
    var seen := Observe(nodes, values, Get(s.ledger, key).GetOr(map[]), now);
    var winner := Winner(nodes, seen);
    ItemValuesCover(nodes, views, fetched, key);
    StaleAreNodes(nodes, values, winner);
    CopiedAt(Stale(nodes, values, winner), seen, winner, x => (x, key) in accepts, ip);
    CopiedSame(Stale(nodes, values, winner), seen, winner, x => (x, key) in accepts, x => (x, key) in accepts);
    hide Assigned, Copied, Stale, Winner, ItemValues;
  }

  /** The databases, both ledgers as the next run loads them, and what was reported missing. */
  function MergeOutcome<A(==)>(nodes: seq<Ip>, dbs: map<Ip, Db<A>>, groupLedger: map<string, Stamps<Stored<GroupValue>>>,
                           itemLedger: map<string, Stamps<Stored<Named<A>>>>, groupsRead: set<Ip>, itemsRead: set<Ip>,
                           names: seq<string>, keys: seq<string>, now: int, calls: Calls, accepts: set<(Ip, string)>)
      : (map<Ip, Db<A>>, map<string, Stamps<Stored<GroupValue>>>, map<string, Stamps<Stored<Named<A>>>>, seq<Missing>)
    requires Covers(nodes, dbs)
  {
    var groupNodes := Filter(nodes, ip => ip in groupsRead);
    if |groupNodes| < 2 then (dbs, groupLedger, itemLedger, [])
    else
      var g := GroupPhase(groupNodes, GroupRun(dbs, ReadViews(groupNodes, dbs), groupLedger), names, now, calls);
      var itemNodes := Filter(groupNodes, ip => ip in itemsRead);
      if |itemNodes| < 2 then (g.dbs, Reloaded(g.ledger), Reloaded(itemLedger), [])
      else
        var i := ItemPhase(itemNodes, g.views, ReadItems(itemNodes, g.dbs), ItemRun(g.dbs, itemLedger, []), keys, now, accepts);
        (i.dbs, Reloaded(g.ledger), Reloaded(i.ledger), i.missing)
  }
}
