/** What a reconciliation run achieves for clients, adlists and domain overrides. */
module ItemAgreement {
  import opened Common
  import opened Sorting
  import opened Ledger
  import opened GroupNames
  import opened GroupMerge
  import opened GroupAgreement

  // --- One item ---

  /** The item as the first node that has it shows it. */
  function FirstItem<A>(nodes: seq<Ip>, views: Views, fetched: Snapshots<A>, key: string): Option<Named<A>>
    requires Covers(nodes, views) && Covers(nodes, fetched)
  {
    if nodes == [] then None
    else
      match ItemIn(views[nodes[0]], fetched[nodes[0]], key)
      case Some(v) => Some(v)
      case None => FirstItem(nodes[1..], views, fetched, key)
  }

  lemma {:induction false} FirstItemIsFirst<A>(nodes: seq<Ip>, views: Views, fetched: Snapshots<A>, key: string, values: Values<Stored<Named<A>>>)
    requires Covers(nodes, views) && Covers(nodes, fetched) && Covers(nodes, values)
    requires forall ip :: ip in nodes ==> values[ip] == Freshly(ItemIn(views[ip], fetched[ip], key))
    ensures FirstPresent(nodes, values) == Freshly(FirstItem(nodes, views, fetched, key))
  {
    hide ItemIn;
    if nodes != [] {
      FirstItemIsFirst(nodes[1..], views, fetched, key, values);
    }
  }

  lemma {:induction false} FirstItemFrom<A>(nodes: seq<Ip>, views: Views, fetched: Snapshots<A>, key: string)
    requires Covers(nodes, views) && Covers(nodes, fetched)
    ensures FirstItem(nodes, views, fetched, key).None? ==> forall ip :: ip in nodes ==> key !in fetched[ip]
    ensures FirstItem(nodes, views, fetched, key).Some? ==>
      exists ip :: ip in nodes && key in fetched[ip] && FirstItem(nodes, views, fetched, key) == Some(NamedItem(views[ip], fetched[ip][key]))
  {
    hide NamedItem;
    if nodes != [] {
      FirstItemFrom(nodes[1..], views, fetched, key);
    }
  }

  lemma ItemWinner<A>(nodes: seq<Ip>, views: Views, fetched: Snapshots<A>, ledger: Stamps<Stored<Named<A>>>, key: string, now: int)
    requires nodes != [] && Covers(nodes, views) && Covers(nodes, fetched) && FromFile(nodes, ledger, now)
    ensures Covers(nodes, ItemValues(nodes, views, fetched, key))
    ensures Winner(nodes, Observe(nodes, ItemValues(nodes, views, fetched, key), ledger, now)).value
         == Freshly(FirstItem(nodes, views, fetched, key))
  {
    hide ItemIn, Winner, Observe, FirstItem;
    var values := ItemValues(nodes, views, fetched, key);
    FirstPresentWins(nodes, values, ledger, now);
    FirstItemIsFirst(nodes, views, fetched, key, values);
  }

  function Pushed<A>(groups: seq<Group>, v: Named<A>): Item<A>
  {
    Item(v.attrs, IdsOf(groups, v.names))
  }

  /** Pushing to the stale nodes: each of them that accepts gets the item under its own ids. */
  lemma {:induction false} AssignedAt<A>(stale: seq<Ip>, views: Views, dbs: map<Ip, Db<A>>, missing: seq<Missing>, key: string, v: Named<A>,
                                         accepts: set<(Ip, string)>, ip: Ip)
    requires Covers(stale, views) && ip in dbs
    ensures
      var d := Assigned(stale, views, dbs, missing, key, v, accepts).0;
      && d[ip].groups == dbs[ip].groups
      && d[ip].items == (if ip in stale && (ip, key) in accepts then dbs[ip].items[key := Pushed(views[ip], v)] else dbs[ip].items)
  {
    hide IdsOf, MissingOf;
    if stale != [] {
      var init := stale[..|stale| - 1];
      assert stale == init + [stale[|stale| - 1]];
      AssignedAt(init, views, dbs, missing, key, v, accepts, ip);
    }
  }

  /** The report grows exactly when some stale node lacks a name. */
  lemma {:induction false} AssignedReports<A>(stale: seq<Ip>, views: Views, dbs: map<Ip, Db<A>>, missing: seq<Missing>, key: string, v: Named<A>,
                                              accepts: set<(Ip, string)>)
    requires Covers(stale, views)
    ensures Assigned(stale, views, dbs, missing, key, v, accepts).1 == missing
       <==> forall ip :: ip in stale ==> MissingOf(views[ip], v.names) == []
    ensures |Assigned(stale, views, dbs, missing, key, v, accepts).1| >= |missing|
    ensures Assigned(stale, views, dbs, missing, key, v, accepts).1 == missing
       <==> |Assigned(stale, views, dbs, missing, key, v, accepts).1| == |missing|
  {
    hide IdsOf, MissingOf;
    if stale != [] {
      var init, last := stale[..|stale| - 1], stale[|stale| - 1];
      assert stale == init + [last];
      AssignedReports(init, views, dbs, missing, key, v, accepts);
    }
  }

  /** What one item's turn leaves on a node, read back under the node's own group names: the winner,
      less the group names the node does not know. */
  ghost predicate ItemSettled<A>(groups: seq<Group>, before: map<string, Item<A>>, after: map<string, Item<A>>, key: string, first: Option<Named<A>>)
  {
    && (forall k :: k != key ==> Get(after, k) == Get(before, k))
    && ItemIn(groups, after, key) == (if first.None? || ItemIn(groups, before, key) == first then ItemIn(groups, before, key)
                                      else Some(Named(first.value.attrs, KnownOf(groups, first.value.names))))
  }

  lemma PushReadsBack<A>(groups: seq<Group>, items: map<string, Item<A>>, key: string, v: Named<A>)
    requires WellFormed(groups) && Sorted(v.names, StringLeq)
    ensures ItemIn(groups, items[key := Pushed(groups, v)], key) == Some(Named(v.attrs, KnownOf(groups, v.names)))
  {
    hide WellFormed, NamesOf, IdsOf, KnownOf, Sorted;
    TranslationKeepsKnown(groups, v.names);
  }

  lemma FirstItemSorted<A>(nodes: seq<Ip>, views: Views, fetched: Snapshots<A>, key: string)
    requires Covers(nodes, views) && Covers(nodes, fetched) && FirstItem(nodes, views, fetched, key).Some?
    ensures Sorted(FirstItem(nodes, views, fetched, key).value.names, StringLeq)
  {
    hide FirstItem, Sorted, NamesOf;
    FirstItemFrom(nodes, views, fetched, key);
    var ip :| ip in nodes && key in fetched[ip] && FirstItem(nodes, views, fetched, key) == Some(NamedItem(views[ip], fetched[ip][key]));
    NamesAreSorted(views[ip], fetched[ip][key].groups);
  }

  lemma ItemStepAt<A>(nodes: seq<Ip>, views: Views, fetched: Snapshots<A>, s: ItemRun<A>, key: string, now: int, accepts: set<(Ip, string)>, ip: Ip)
    requires nodes != [] && Covers(nodes, views) && Covers(nodes, fetched) && Covers(nodes, s.dbs)
    requires FromFile(nodes, Get(s.ledger, key).GetOr(map[]), now) && ip in nodes && (ip, key) in accepts
    ensures
      var t, first := ItemStep(nodes, views, fetched, s, key, now, accepts), FirstItem(nodes, views, fetched, key);
      && t.dbs[ip].groups == s.dbs[ip].groups
      && t.dbs[ip].items == if first.Some? && ItemIn(views[ip], fetched[ip], key) != first then s.dbs[ip].items[key := Pushed(views[ip], first.value)]
                            else s.dbs[ip].items
  {
    var ledger := Get(s.ledger, key).GetOr(map[]);
    var values := ItemValues(nodes, views, fetched, key);
    var first := FirstItem(nodes, views, fetched, key);
    ItemWinner(nodes, views, fetched, ledger, key, now);
    hide Winner, Observe, FirstItem, ItemIn, IdsOf, FromFile, Assigned, Copied;
    var winner := Winner(nodes, Observe(nodes, values, ledger, now));
    if first.Some? {
      var stale := Stale(nodes, values, winner);
      StaleAreNodes(nodes, values, winner);
      AssignedAt(stale, views, s.dbs, s.missing, key, first.value, accepts, ip);
    }
  }

  lemma ItemStepSettles<A>(nodes: seq<Ip>, views: Views, fetched: Snapshots<A>, s: ItemRun<A>, key: string, now: int, accepts: set<(Ip, string)>, ip: Ip)
    requires nodes != [] && Covers(nodes, views) && Covers(nodes, fetched) && Covers(nodes, s.dbs)
    requires FromFile(nodes, Get(s.ledger, key).GetOr(map[]), now) && ip in nodes && (ip, key) in accepts
    requires WellFormed(views[ip]) && Get(s.dbs[ip].items, key) == Get(fetched[ip], key)
    ensures
      var t := ItemStep(nodes, views, fetched, s, key, now, accepts);
      && t.dbs[ip].groups == s.dbs[ip].groups
      && ItemSettled(views[ip], s.dbs[ip].items, t.dbs[ip].items, key, FirstItem(nodes, views, fetched, key))
  {
    hide ItemStep, FirstItem, FromFile, WellFormed, KnownOf, NamedItem, Pushed, Sorted;
    ItemStepAt(nodes, views, fetched, s, key, now, accepts, ip);
    var first := FirstItem(nodes, views, fetched, key);
    assert ItemIn(views[ip], s.dbs[ip].items, key) == ItemIn(views[ip], fetched[ip], key);
    if first.Some? && ItemIn(views[ip], fetched[ip], key) != first {
      FirstItemSorted(nodes, views, fetched, key);
      PushReadsBack(views[ip], s.dbs[ip].items, key, first.value);
    }
  }

  lemma ItemStepLedger<A>(nodes: seq<Ip>, views: Views, fetched: Snapshots<A>, s: ItemRun<A>, key: string, now: int,
                          accepts: set<(Ip, string)>, other: string)
    requires nodes != [] && Covers(nodes, views) && Covers(nodes, fetched) && other != key
    ensures Get(ItemStep(nodes, views, fetched, s, key, now, accepts).ledger, other) == Get(s.ledger, other)
  {
    hide Winner, Observe, Stale, Assigned, Copied;
  }

  /** No node that has to be pushed to lacks one of the winner's names. */
  ghost predicate NothingLacks<A>(nodes: seq<Ip>, views: Views, fetched: Snapshots<A>, key: string, first: Option<Named<A>>)
    requires Covers(nodes, views) && Covers(nodes, fetched)
  {
    first.Some? ==> forall ip :: ip in nodes && ItemIn(views[ip], fetched[ip], key) != first ==> MissingOf(views[ip], first.value.names) == []
  }

  lemma ItemStepReports<A>(nodes: seq<Ip>, views: Views, fetched: Snapshots<A>, s: ItemRun<A>, key: string, now: int, accepts: set<(Ip, string)>)
    requires nodes != [] && Covers(nodes, views) && Covers(nodes, fetched)
    requires FromFile(nodes, Get(s.ledger, key).GetOr(map[]), now)
    ensures
      var t := ItemStep(nodes, views, fetched, s, key, now, accepts);
      && |t.missing| >= |s.missing|
      && (t.missing == s.missing <==> NothingLacks(nodes, views, fetched, key, FirstItem(nodes, views, fetched, key)))
      && (t.missing == s.missing <==> |t.missing| == |s.missing|)
  {
    var ledger := Get(s.ledger, key).GetOr(map[]);
    var values := ItemValues(nodes, views, fetched, key);
    var first := FirstItem(nodes, views, fetched, key);
    ItemWinner(nodes, views, fetched, ledger, key, now);
    hide Winner, Observe, FirstItem, ItemIn, IdsOf, FromFile, Assigned, Copied, MissingOf;
    var winner := Winner(nodes, Observe(nodes, values, ledger, now));
    if first.Some? {
      var stale := Stale(nodes, values, winner);
      StaleAreNodes(nodes, values, winner);
      AssignedReports(stale, views, s.dbs, s.missing, key, first.value, accepts);
      forall ip | ip in nodes ensures ip in stale <==> ItemIn(views[ip], fetched[ip], key) != first {
        assert values[ip] == Freshly(ItemIn(views[ip], fetched[ip], key));
      }
      hide Stale, ItemValues;
    }
  }

  // --- The item phase ---

  /** What a node shows in the end: the winner, less the group names it does not know. */
  function Outcome<A(==)>(groups: seq<Group>, mine: Option<Named<A>>, first: Option<Named<A>>): Option<Named<A>>
  {
    if first.None? || mine == first then mine else Some(Named(first.value.attrs, KnownOf(groups, first.value.names)))
  }

  ghost predicate ItemsSettled<A>(nodes: seq<Ip>, views: Views, fetched: Snapshots<A>, keys: seq<string>, ip: Ip, items: map<string, Item<A>>)
    requires Covers(nodes, views) && Covers(nodes, fetched) && ip in nodes
  {
    && (forall k :: k !in keys ==> Get(items, k) == Get(fetched[ip], k))
    && (forall k :: k in keys ==>
          ItemIn(views[ip], items, k) == Outcome(views[ip], ItemIn(views[ip], fetched[ip], k), FirstItem(nodes, views, fetched, k)))
  }

  ghost predicate ItemPhaseDone<A>(nodes: seq<Ip>, views: Views, fetched: Snapshots<A>, s: ItemRun<A>, t: ItemRun<A>, keys: seq<string>)
    requires Covers(nodes, views) && Covers(nodes, fetched) && Covers(nodes, s.dbs) && Covers(nodes, t.dbs)
  {
    && (forall ip :: ip in nodes ==> t.dbs[ip].groups == s.dbs[ip].groups && ItemsSettled(nodes, views, fetched, keys, ip, t.dbs[ip].items))
    && (forall k :: k !in keys ==> Get(t.ledger, k) == Get(s.ledger, k))
    && (t.missing == s.missing <==> forall k :: k in keys ==> NothingLacks(nodes, views, fetched, k, FirstItem(nodes, views, fetched, k)))
    && |t.missing| >= |s.missing| && (t.missing == s.missing <==> |t.missing| == |s.missing|)
  }

  lemma SettledStep<A>(nodes: seq<Ip>, views: Views, fetched: Snapshots<A>, init: seq<string>, key: string, ip: Ip,
                       before: map<string, Item<A>>, after: map<string, Item<A>>)
    requires Covers(nodes, views) && Covers(nodes, fetched) && ip in nodes && key !in init
    requires ItemsSettled(nodes, views, fetched, init, ip, before)
    requires ItemSettled(views[ip], before, after, key, FirstItem(nodes, views, fetched, key))
    ensures ItemsSettled(nodes, views, fetched, init + [key], ip, after)
  {
    hide FirstItem, NamedItem, KnownOf;
    forall k | k in init + [key]
      ensures ItemIn(views[ip], after, k) == Outcome(views[ip], ItemIn(views[ip], fetched[ip], k), FirstItem(nodes, views, fetched, k))
    {
      if k != key {
        assert Get(after, k) == Get(before, k);
        assert ItemIn(views[ip], after, k) == ItemIn(views[ip], before, k);
      } else {
        assert Get(before, key) == Get(fetched[ip], key);
        assert ItemIn(views[ip], before, key) == ItemIn(views[ip], fetched[ip], key);
      }
    }
  }

  /** Every node in the item phase knows its own groups. */
  ghost predicate Readable<A>(nodes: seq<Ip>, views: Views, fetched: Snapshots<A>, dbs: map<Ip, Db<A>>)
  {
    forall ip :: ip in nodes ==> ip in views && ip in fetched && ip in dbs && WellFormed(views[ip]) && dbs[ip].items == fetched[ip]
  }

  lemma ItemNodeStep<A>(nodes: seq<Ip>, views: Views, fetched: Snapshots<A>, s: ItemRun<A>, m: ItemRun<A>, init: seq<string>, key: string, now: int,
                        accepts: set<(Ip, string)>, ip: Ip)
    requires nodes != [] && Covers(nodes, views) && Covers(nodes, fetched) && Covers(nodes, s.dbs) && Covers(nodes, m.dbs)
    requires ItemPhaseDone(nodes, views, fetched, s, m, init) && key !in init && ip in nodes && (ip, key) in accepts && WellFormed(views[ip])
    requires FromFile(nodes, Get(m.ledger, key).GetOr(map[]), now)
    ensures
      var t := ItemStep(nodes, views, fetched, m, key, now, accepts);
      t.dbs[ip].groups == s.dbs[ip].groups && ItemsSettled(nodes, views, fetched, init + [key], ip, t.dbs[ip].items)
  {
    hide ItemStep, FromFile, FirstItem, ItemIn, WellFormed, NothingLacks, ItemSettled, Outcome;
    assert Get(m.dbs[ip].items, key) == Get(fetched[ip], key);
    ItemStepSettles(nodes, views, fetched, m, key, now, accepts, ip);
    SettledStep(nodes, views, fetched, init, key, ip, m.dbs[ip].items, ItemStep(nodes, views, fetched, m, key, now, accepts).dbs[ip].items);
  }

  lemma ItemPhaseStep<A>(nodes: seq<Ip>, views: Views, fetched: Snapshots<A>, s: ItemRun<A>, m: ItemRun<A>, init: seq<string>, key: string, now: int,
                         accepts: set<(Ip, string)>)
    requires nodes != [] && Covers(nodes, views) && Covers(nodes, fetched) && Covers(nodes, s.dbs) && Covers(nodes, m.dbs)
    requires ItemPhaseDone(nodes, views, fetched, s, m, init) && key !in init
    requires forall ip :: ip in nodes ==> (ip, key) in accepts && WellFormed(views[ip])
    requires FromFile(nodes, Get(s.ledger, key).GetOr(map[]), now)
    ensures ItemPhaseDone(nodes, views, fetched, s, ItemStep(nodes, views, fetched, m, key, now, accepts), init + [key])
  {
    hide ItemStep, FromFile, FirstItem, ItemIn, WellFormed, NothingLacks, ItemsSettled;
    var t := ItemStep(nodes, views, fetched, m, key, now, accepts);
    forall ip | ip in nodes
      ensures t.dbs[ip].groups == s.dbs[ip].groups && ItemsSettled(nodes, views, fetched, init + [key], ip, t.dbs[ip].items)
    {
      ItemNodeStep(nodes, views, fetched, s, m, init, key, now, accepts, ip);
    }
    ItemStepReports(nodes, views, fetched, m, key, now, accepts);
    forall k | k !in init + [key] ensures Get(t.ledger, k) == Get(s.ledger, k) {
      ItemStepLedger(nodes, views, fetched, m, key, now, accepts, k);
    }
  }

  lemma ItemPhaseStart<A>(nodes: seq<Ip>, views: Views, fetched: Snapshots<A>, s: ItemRun<A>)
    requires Readable(nodes, views, fetched, s.dbs)
    ensures Covers(nodes, views) && Covers(nodes, fetched) && Covers(nodes, s.dbs) && ItemPhaseDone(nodes, views, fetched, s, s, [])
  {
    hide FirstItem, ItemIn, WellFormed, NothingLacks;
  }

  lemma {:induction false} ItemPhaseSettles<A>(nodes: seq<Ip>, views: Views, fetched: Snapshots<A>, s: ItemRun<A>, keys: seq<string>, now: int,
                                               accepts: set<(Ip, string)>)
    requires nodes != [] && Covers(nodes, views) && Covers(nodes, fetched) && Covers(nodes, s.dbs) && Readable(nodes, views, fetched, s.dbs)
    requires Distinct(keys) && LedgerLoaded(nodes, s.ledger, now)
    requires forall ip, k :: ip in nodes && k in keys ==> (ip, k) in accepts
    ensures ItemPhaseDone(nodes, views, fetched, s, ItemPhase(nodes, views, fetched, s, keys, now, accepts), keys)
  {
    if keys == [] {
      ItemPhaseStart(nodes, views, fetched, s);
    } else {
      hide ItemStep, ItemPhaseDone, LedgerLoaded, WellFormed;
      var init, key := keys[..|keys| - 1], keys[|keys| - 1];
      assert keys == init + [key] && key !in init && key in keys;
      ItemPhaseSettles(nodes, views, fetched, s, init, now, accepts);
      LoadedAt(nodes, s.ledger, now, key);
      ItemPhaseStep(nodes, views, fetched, s, ItemPhase(nodes, views, fetched, s, init, now, accepts), init, key, now, accepts);
    }
  }
}
