/** What a reconciliation run achieves when its calls succeed. */
module GroupAgreement {
  import opened Common
  import opened Ledger
  import opened GroupNames
  import opened GroupMerge

  // --- One node's groups ---

  ghost predicate Sound<A>(db: Db<A>)
  {
    WellFormed(db.groups) && forall g :: g in db.groups ==> g.id < db.nextId
  }

  lemma {:induction false} KnowsIsValue(groups: seq<Group>, name: string)
    ensures Knows(groups, name) <==> ValueIn(groups, name).Some?
  {
    if groups != [] {
      KnowsIsValue(groups[..|groups| - 1], name);
    }
  }

  lemma SnocGroup(init: seq<Group>, g: Group, n: string)
    ensures IdOf(init + [g], n) == if g.name == n then Some(g.id) else IdOf(init, n)
    ensures ValueIn(init + [g], n) == if g.name == n then Some(GroupValue(g.enabled, g.comment)) else ValueIn(init, n)
  {
    assert (init + [g])[..|init|] == init;
  }

  lemma {:induction false} RenewedAt(groups: seq<Group>, name: string, v: GroupValue, n: string)
    ensures IdOf(Map(groups, g => Renewed(g, name, v)), n) == IdOf(groups, n)
    ensures ValueIn(Map(groups, g => Renewed(g, name, v)), n) == if n == name && Knows(groups, name) then Some(v) else ValueIn(groups, n)
  {
    if groups != [] {
      hide IdOf, ValueIn;
      var f := g => Renewed(g, name, v);
      var init, last := groups[..|groups| - 1], groups[|groups| - 1];
      RenewedAt(init, name, v, n);
      assert groups == init + [last] && Map(groups, f) == Map(init, f) + [f(last)];
      SnocGroup(init, last, n);
      SnocGroup(init, last, name);
      SnocGroup(Map(init, f), f(last), n);
    }
  }

  /** Posting a group gives it its value, under its old id if it had one, and touches nothing else. */
  lemma PostGroupAt<A>(db: Db<A>, name: string, v: GroupValue, n: string)
    requires Sound(db)
    ensures
      var r := PostGroup(db, name, v);
      && Sound(r) && r.items == db.items
      && ValueIn(r.groups, n) == (if n == name then Some(v) else ValueIn(db.groups, n))
      && (Knows(db.groups, n) ==> IdOf(r.groups, n) == IdOf(db.groups, n))
      && (Knows(r.groups, n) <==> Knows(db.groups, n) || n == name)
  {
    if Knows(db.groups, name) {
      RenewedAt(db.groups, name, v, n);
      RenewedSound(db.groups, name, v, db.nextId);
    } else {
      var g := Group(name, db.nextId, v.enabled, v.comment);
      assert (db.groups + [g])[..|db.groups|] == db.groups;
    }
  }

  lemma RenewedSound(groups: seq<Group>, name: string, v: GroupValue, nextId: nat)
    requires WellFormed(groups) && forall g :: g in groups ==> g.id < nextId
    ensures
      var r := Map(groups, g => Renewed(g, name, v));
      WellFormed(r) && forall g :: g in r ==> g.id < nextId
  {
  }

  // --- The group phase ---

  lemma {:induction false} PostedAt<A>(stale: seq<Ip>, dbs: map<Ip, Db<A>>, views: Views, name: string, v: GroupValue, calls: Calls, ip: Ip)
    requires Distinct(stale) && ip in dbs && ip in views
    ensures
      var (d, w) := Posted(stale, dbs, views, name, v, calls);
      if ip in stale && (ip, name) in calls.accepts then
        d[ip] == PostGroup(dbs[ip], name, v) && w[ip] == (if (ip, name) in calls.refreshes then d[ip].groups else views[ip])
      else d[ip] == dbs[ip] && w[ip] == views[ip]
  {
    hide PostGroup;
    if stale != [] {
      var init := stale[..|stale| - 1];
      assert stale == init + [stale[|stale| - 1]];
      PostedAt(init, dbs, views, name, v, calls, ip);
    }
  }

  /** The worker's view of every node is what the node holds. */
  ghost predicate Synced<A>(nodes: seq<Ip>, s: GroupRun<A>)
  {
    forall ip :: ip in nodes ==> ip in s.dbs && ip in s.views && s.views[ip] == s.dbs[ip].groups && Sound(s.dbs[ip])
  }

  ghost predicate CallsSucceed(nodes: seq<Ip>, name: string, calls: Calls)
  {
    forall ip :: ip in nodes ==> (ip, name) in calls.accepts && (ip, name) in calls.refreshes
  }

  /** The value of a group on the first node that has it. */
  function FirstGroup(nodes: seq<Ip>, views: Views, name: string): Option<GroupValue>
    requires Covers(nodes, views)
  {
    if nodes == [] then None
    else
      match ValueIn(views[nodes[0]], name)
      case Some(v) => Some(v)
      case None => FirstGroup(nodes[1..], views, name)
  }

  lemma {:induction false} FirstGroupIsFirst(nodes: seq<Ip>, views: Views, name: string, values: Values<Stored<GroupValue>>)
    requires Covers(nodes, views) && Covers(nodes, values)
    requires forall ip :: ip in nodes ==> values[ip] == Freshly(ValueIn(views[ip], name))
    ensures FirstPresent(nodes, values) == Freshly(FirstGroup(nodes, views, name))
  {
    if nodes != [] {
      FirstGroupIsFirst(nodes[1..], views, name, values);
    }
  }

  lemma {:induction false} FirstGroupSame(nodes: seq<Ip>, views: Views, views': Views, name: string)
    requires Covers(nodes, views) && Covers(nodes, views')
    requires forall ip :: ip in nodes ==> ValueIn(views[ip], name) == ValueIn(views'[ip], name)
    ensures FirstGroup(nodes, views, name) == FirstGroup(nodes, views', name)
  {
    if nodes != [] {
      FirstGroupSame(nodes[1..], views, views', name);
    }
  }

  lemma {:induction false} FirstGroupSome(nodes: seq<Ip>, views: Views, name: string, ip: Ip)
    requires Covers(nodes, views) && ip in nodes && ValueIn(views[ip], name).Some?
    ensures FirstGroup(nodes, views, name).Some?
  {
    if nodes[0] != ip {
      FirstGroupSome(nodes[1..], views, name, ip);
    }
  }

  /** What one group's turn leaves on a node. */
  ghost predicate GroupSettled<A>(before: Db<A>, after: Db<A>, name: string, first: Option<GroupValue>)
  {
    && after.items == before.items
    && (forall n :: ValueIn(after.groups, n) == if n == name && first.Some? then first else ValueIn(before.groups, n))
    && (forall n :: Knows(before.groups, n) ==> IdOf(after.groups, n) == IdOf(before.groups, n))
    && (forall n :: Knows(after.groups, n) ==> Knows(before.groups, n) || n == name)
  }

  lemma DistinctFilter(s: seq<Ip>, p: Ip -> bool)
    requires Distinct(s)
    ensures Distinct(Filter(s, p))
  {
    if s != [] {
      DistinctFilter(s[1..], p);
      assert forall x :: x in Filter(s[1..], p) ==> x in s[1..];
    }
  }

  lemma StaleDistinct<V>(nodes: seq<Ip>, values: Values<V>, winner: Entry<V>)
    requires Distinct(nodes) && Covers(nodes, values)
    ensures Distinct(Stale(nodes, values, winner))
  {
    DistinctFilter(nodes, ip => ip in values && values[ip] != winner.value);
  }

  lemma GroupWinner(nodes: seq<Ip>, views: Views, ledger: Stamps<Stored<GroupValue>>, name: string, now: int)
    requires nodes != [] && Covers(nodes, views) && FromFile(nodes, ledger, now)
    ensures Covers(nodes, GroupValues(nodes, views, name))
    ensures Winner(nodes, Observe(nodes, GroupValues(nodes, views, name), ledger, now)).value == Freshly(FirstGroup(nodes, views, name))
  {
    hide ValueIn, Winner, Observe, FirstGroup;
    var values := GroupValues(nodes, views, name);
    FirstPresentWins(nodes, values, ledger, now);
    FirstGroupIsFirst(nodes, views, name, values);
  }

  /** What one group's turn does to a node, call by call. */
  lemma GroupStepAt<A>(nodes: seq<Ip>, s: GroupRun<A>, name: string, now: int, calls: Calls, ip: Ip)
    requires nodes != [] && Distinct(nodes) && Synced(nodes, s) && CallsSucceed(nodes, name, calls)
    requires FromFile(nodes, Get(s.ledger, name).GetOr(map[]), now) && ip in nodes
    ensures
      var t, first := GroupStep(nodes, s, name, now, calls), FirstGroup(nodes, s.views, name);
      && t.views[ip] == t.dbs[ip].groups
      && t.dbs[ip] == if first.Some? && ValueIn(s.views[ip], name) != first then PostGroup(s.dbs[ip], name, first.value) else s.dbs[ip]
  {
    var ledger := Get(s.ledger, name).GetOr(map[]);
    var values := GroupValues(nodes, s.views, name);
    var first := FirstGroup(nodes, s.views, name);
    GroupWinner(nodes, s.views, ledger, name, now);
    hide Winner, Observe, FirstGroup, ValueIn, IdOf, FromFile, PostGroup, Posted, Copied, Sound;
    var winner := Winner(nodes, Observe(nodes, values, ledger, now));
    if first.Some? {
      var stale := Stale(nodes, values, winner);
      StaleAreNodes(nodes, values, winner);
      StaleDistinct(nodes, values, winner);
      PostedAt(stale, s.dbs, s.views, name, first.value, calls, ip);
    }
  }

  lemma PostSettles<A>(db: Db<A>, name: string, v: GroupValue)
    requires Sound(db)
    ensures Sound(PostGroup(db, name, v)) && GroupSettled(db, PostGroup(db, name, v), name, Some(v))
  {
    hide ValueIn, IdOf, PostGroup, Sound;
    PostGroupAt(db, name, v, name);
    forall n {
      PostGroupAt(db, name, v, n);
    }
  }

  lemma IdleSettles<A>(db: Db<A>, name: string, first: Option<GroupValue>)
    requires first.Some? ==> ValueIn(db.groups, name) == first
    ensures GroupSettled(db, db, name, first)
  {
    hide ValueIn, IdOf;
  }

  lemma GroupStepSettles<A>(nodes: seq<Ip>, s: GroupRun<A>, name: string, now: int, calls: Calls, ip: Ip)
    requires nodes != [] && Distinct(nodes) && Synced(nodes, s) && CallsSucceed(nodes, name, calls)
    requires FromFile(nodes, Get(s.ledger, name).GetOr(map[]), now) && ip in nodes
    ensures
      var t := GroupStep(nodes, s, name, now, calls);
      && t.views[ip] == t.dbs[ip].groups && Sound(t.dbs[ip])
      && GroupSettled(s.dbs[ip], t.dbs[ip], name, FirstGroup(nodes, s.views, name))
  {
    hide GroupStep, FirstGroup, ValueIn, IdOf, FromFile, PostGroup, CallsSucceed, Sound, GroupSettled;
    GroupStepAt(nodes, s, name, now, calls, ip);
    var first := FirstGroup(nodes, s.views, name);
    if first.Some? && ValueIn(s.views[ip], name) != first {
      PostSettles(s.dbs[ip], name, first.value);
    } else {
      IdleSettles(s.dbs[ip], name, first);
    }
  }

  lemma GroupStepLedger<A>(nodes: seq<Ip>, s: GroupRun<A>, name: string, now: int, calls: Calls, other: string)
    requires nodes != [] && Covers(nodes, s.views) && other != name
    ensures Get(GroupStep(nodes, s, name, now, calls).ledger, other) == Get(s.ledger, other)
  {
    hide Winner, Observe, Stale, Posted, Copied;
  }

  ghost predicate LedgerLoaded<V>(nodes: seq<Ip>, ledger: map<string, Stamps<Stored<V>>>, now: int)
  {
    forall k :: k in ledger ==> FromFile(nodes, ledger[k], now)
  }

  /** What the whole phase leaves on a node: the groups walked have the value of the first node that
      had them, the others are as they were, and no group changes its id. */
  ghost predicate PhaseSettled<A>(nodes: seq<Ip>, views: Views, before: Db<A>, after: Db<A>, names: seq<string>)
    requires Covers(nodes, views)
  {
    && Sound(after) && after.items == before.items
    && (forall n :: ValueIn(after.groups, n) ==
          if n in names && FirstGroup(nodes, views, n).Some? then FirstGroup(nodes, views, n) else ValueIn(before.groups, n))
    && (forall n :: Knows(before.groups, n) ==> IdOf(after.groups, n) == IdOf(before.groups, n))
    && (forall n :: Knows(after.groups, n) ==> Knows(before.groups, n) || n in names)
  }

  ghost predicate PhaseDone<A>(nodes: seq<Ip>, s: GroupRun<A>, t: GroupRun<A>, names: seq<string>)
    requires Covers(nodes, s.views) && Covers(nodes, s.dbs)
  {
    && Synced(nodes, t)
    && (forall ip :: ip in nodes ==> PhaseSettled(nodes, s.views, s.dbs[ip], t.dbs[ip], names))
    && (forall n :: n !in names ==> Get(t.ledger, n) == Get(s.ledger, n))
  }

  lemma PhaseStep<A>(nodes: seq<Ip>, views: Views, before: Db<A>, mid: Db<A>, after: Db<A>, names: seq<string>, name: string, first: Option<GroupValue>)
    requires Covers(nodes, views) && PhaseSettled(nodes, views, before, mid, names) && name !in names
    requires Sound(after) && GroupSettled(mid, after, name, first) && first == FirstGroup(nodes, views, name)
    ensures PhaseSettled(nodes, views, before, after, names + [name])
  {
    hide ValueIn, IdOf, FirstGroup, Sound;
  }

  lemma NodeStep<A>(nodes: seq<Ip>, s: GroupRun<A>, m: GroupRun<A>, init: seq<string>, name: string, now: int, calls: Calls, ip: Ip)
    requires nodes != [] && Distinct(nodes) && Synced(nodes, s) && Covers(nodes, s.views) && Covers(nodes, s.dbs)
    requires PhaseDone(nodes, s, m, init) && name !in init && CallsSucceed(nodes, name, calls)
    requires FromFile(nodes, Get(s.ledger, name).GetOr(map[]), now) && ip in nodes
    ensures
      && Covers(nodes, m.views)
      && var t := GroupStep(nodes, m, name, now, calls);
         && ip in t.views && ip in t.dbs && t.views[ip] == t.dbs[ip].groups && Sound(t.dbs[ip])
         && PhaseSettled(nodes, s.views, s.dbs[ip], t.dbs[ip], init + [name])
  {
    FirstUnchanged(nodes, s, m, init, name);
    hide GroupStep, PhaseSettled, GroupSettled, CallsSucceed, FromFile, Sound, FirstGroup;
    GroupStepSettles(nodes, m, name, now, calls, ip);
    PhaseStep(nodes, s.views, s.dbs[ip], m.dbs[ip], GroupStep(nodes, m, name, now, calls).dbs[ip], init, name, FirstGroup(nodes, s.views, name));
  }

  lemma PhaseDoneStep<A>(nodes: seq<Ip>, s: GroupRun<A>, m: GroupRun<A>, init: seq<string>, name: string, now: int, calls: Calls)
    requires nodes != [] && Distinct(nodes) && Synced(nodes, s) && Covers(nodes, s.views) && Covers(nodes, s.dbs)
    requires PhaseDone(nodes, s, m, init) && name !in init && CallsSucceed(nodes, name, calls)
    requires FromFile(nodes, Get(s.ledger, name).GetOr(map[]), now)
    ensures Covers(nodes, m.views) && PhaseDone(nodes, s, GroupStep(nodes, m, name, now, calls), init + [name])
  {
    FirstUnchanged(nodes, s, m, init, name);
    hide GroupStep, PhaseSettled, CallsSucceed, FromFile, Sound, FirstGroup;
    var t := GroupStep(nodes, m, name, now, calls);
    forall n | n !in init + [name] ensures Get(t.ledger, n) == Get(s.ledger, n) {
      GroupStepLedger(nodes, m, name, now, calls, n);
    }
    hide PhaseDone;
    forall ip | ip in nodes
      ensures ip in t.views && ip in t.dbs && t.views[ip] == t.dbs[ip].groups && Sound(t.dbs[ip])
      ensures PhaseSettled(nodes, s.views, s.dbs[ip], t.dbs[ip], init + [name])
    {
      NodeStep(nodes, s, m, init, name, now, calls, ip);
    }
    PhaseAssembled(nodes, s, t, init + [name]);
  }

  lemma PhaseAssembled<A>(nodes: seq<Ip>, s: GroupRun<A>, t: GroupRun<A>, names: seq<string>)
    requires Covers(nodes, s.views) && Covers(nodes, s.dbs)
    requires forall ip :: ip in nodes ==> ip in t.views && ip in t.dbs && t.views[ip] == t.dbs[ip].groups && Sound(t.dbs[ip])
    requires forall ip :: ip in nodes ==> PhaseSettled(nodes, s.views, s.dbs[ip], t.dbs[ip], names)
    requires forall n :: n !in names ==> Get(t.ledger, n) == Get(s.ledger, n)
    ensures PhaseDone(nodes, s, t, names)
  {
    hide PhaseSettled, Sound;
  }

  lemma LoadedAt<V>(nodes: seq<Ip>, ledger: map<string, Stamps<Stored<V>>>, now: int, name: string)
    requires LedgerLoaded(nodes, ledger, now)
    ensures FromFile(nodes, Get(ledger, name).GetOr(map[]), now)
  {
  }

  lemma PhaseStart<A>(nodes: seq<Ip>, s: GroupRun<A>)
    requires Synced(nodes, s) && Covers(nodes, s.views) && Covers(nodes, s.dbs)
    ensures PhaseDone(nodes, s, s, [])
  {
    hide ValueIn, IdOf, FirstGroup, WellFormed;
  }

  lemma {:induction false} GroupPhaseSettles<A>(nodes: seq<Ip>, s: GroupRun<A>, names: seq<string>, now: int, calls: Calls)
    requires nodes != [] && Distinct(nodes) && Synced(nodes, s) && Covers(nodes, s.views) && Covers(nodes, s.dbs)
    requires Distinct(names) && LedgerLoaded(nodes, s.ledger, now) && forall n :: n in names ==> CallsSucceed(nodes, n, calls)
    ensures PhaseDone(nodes, s, GroupPhase(nodes, s, names, now, calls), names)
  {
    if names == [] {
      PhaseStart(nodes, s);
    } else {
      hide GroupStep, PhaseDone, CallsSucceed, Synced, LedgerLoaded;
      var init, name := names[..|names| - 1], names[|names| - 1];
      assert names == init + [name] && name !in init && name in names;
      GroupPhaseSettles(nodes, s, init, now, calls);
      LoadedAt(nodes, s.ledger, now, name);
      PhaseDoneStep(nodes, s, GroupPhase(nodes, s, init, now, calls), init, name, now, calls);
    }
  }

  lemma FirstUnchanged<A>(nodes: seq<Ip>, s: GroupRun<A>, m: GroupRun<A>, init: seq<string>, name: string)
    requires Covers(nodes, s.views) && Covers(nodes, s.dbs) && Synced(nodes, s) && PhaseDone(nodes, s, m, init) && name !in init
    ensures Covers(nodes, m.views) && FirstGroup(nodes, m.views, name) == FirstGroup(nodes, s.views, name)
  {
    hide ValueIn, IdOf, FirstGroup, Sound;
    FirstGroupSame(nodes, m.views, s.views, name);
  }
}
