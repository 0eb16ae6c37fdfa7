/** The replication worker: the run as it walks over paths, macs and nodes, updating the ledger and
    the fleet in place. */
module Replicator {
  import opened Common
  import opened Ledger
  import opened Paths
  import opened Reservations
  import opened MergeRun
  import opened ScalarPaths

  /** The nodes of a run: in fleet order, not in maintenance, and reachable. */
  function RunNodes(ips: seq<Ip>, maintenance: set<Ip>, up: set<Ip>): seq<Ip>
  {
    Filter(ips, ip => ip !in maintenance && ip in up)
  }

  /** Whether a listed node takes part in a run. */
  predicate TakesPart(ip: Ip, maintenance: set<Ip>, up: set<Ip>)
  {
    ip !in maintenance && ip in up
  }

  /** These are the entries at these places of the list: in fleet order, all that take part and no other. */
  ghost predicate Selects(at: seq<nat>, nodes: seq<Ip>, ips: seq<Ip>, maintenance: set<Ip>, up: set<Ip>)
  {
    && |at| == |nodes| && (forall i :: 0 <= i < |at| ==> at[i] < |ips| && nodes[i] == ips[at[i]] && TakesPart(nodes[i], maintenance, up))
    && (forall i, j :: 0 <= i < j < |at| ==> at[i] < at[j])
    && (forall k: nat :: k < |ips| && TakesPart(ips[k], maintenance, up) ==> k in at)
  }

  ghost predicate Participants(nodes: seq<Ip>, ips: seq<Ip>, maintenance: set<Ip>, up: set<Ip>)
  {
    exists at: seq<nat> :: Selects(at, nodes, ips, maintenance, up)
  }

  /** The place that one more entry of the list adds, if it takes part. */
  lemma SelectsStep(at: seq<nat>, nodes: seq<Ip>, ips: seq<Ip>, maintenance: set<Ip>, up: set<Ip>, n: nat)
    requires n < |ips| && Selects(at, nodes, ips[..n], maintenance, up)
    ensures TakesPart(ips[n], maintenance, up) ==> Selects(at + [n], nodes + [ips[n]], ips[..n + 1], maintenance, up)
    ensures !TakesPart(ips[n], maintenance, up) ==> Selects(at, nodes, ips[..n + 1], maintenance, up)
  {
    hide TakesPart;
    var all, more := ips[..n + 1], at + [n];
    assert n in more && forall k :: k in at ==> k in more;
    assert forall k: nat :: k < n ==> all[k] == ips[..n][k];
    assert forall i :: 0 <= i < |at| ==> more[i] == at[i] && at[i] < n;
  }

  lemma RunNodesStep(ips: seq<Ip>, maintenance: set<Ip>, up: set<Ip>, n: nat)
    requires n < |ips|
    ensures RunNodes(ips[..n + 1], maintenance, up)
         == RunNodes(ips[..n], maintenance, up) + if TakesPart(ips[n], maintenance, up) then [ips[n]] else []
  {
    FilterStep(ips, n, ip => ip !in maintenance && ip in up);
  }

  lemma NothingSelected(ips: seq<Ip>, maintenance: set<Ip>, up: set<Ip>)
    ensures Selects([], RunNodes(ips[..0], maintenance, up), ips[..0], maintenance, up)
  {
  }

  lemma {:induction false} SelectedAt(ips: seq<Ip>, maintenance: set<Ip>, up: set<Ip>, n: nat) returns (at: seq<nat>)
    requires n <= |ips|
    ensures Selects(at, RunNodes(ips[..n], maintenance, up), ips[..n], maintenance, up)
  {
    hide *;
    at := [];
    if n == 0 {
      NothingSelected(ips, maintenance, up);
    } else {
      at := SelectedAt(ips, maintenance, up, n - 1);
      var k, nodes := n - 1, RunNodes(ips[..n - 1], maintenance, up);
      RunNodesStep(ips, maintenance, up, k);
      SelectsStep(at, nodes, ips, maintenance, up, k);
      if TakesPart(ips[k], maintenance, up) {
        at := at + [k];
      } else {
        assert nodes + [] == nodes;
      }
    }
  }

  lemma RunNodesTakePart(ips: seq<Ip>, maintenance: set<Ip>, up: set<Ip>)
    ensures Participants(RunNodes(ips, maintenance, up), ips, maintenance, up)
    ensures forall ip :: ip in RunNodes(ips, maintenance, up) <==> ip in ips && TakesPart(ip, maintenance, up)
  {
    assert ips[..|ips|] == ips;
    var at := SelectedAt(ips, maintenance, up, |ips|);
    hide Selects;
  }

  /** The whole run: the new fleet, and whether it ended without raising. A run that raises while
      merging reservations has pushed scalars but saves no ledger. */
  function RunOutcome(f: Fleet, nodes: seq<Ip>, enabled: seq<Path>, hostsEnabled: bool, macs: seq<string>, now: int,
                      accepts: set<(Ip, Path)>, acceptsTable: set<Ip>): (Fleet, bool)
    requires Covers(nodes, f.configs)
  {
    if (enabled == [] && !hostsEnabled) || |nodes| < 2 then (f, false)
    else
      var s := ScalarRun(nodes, f.configs, enabled, f, now, accepts);
      if !hostsEnabled then (s, true)
      else
        match HostRun(nodes, NodeHosts(nodes, f.configs), macs, s, now, acceptsTable)
        case Some(r) => (r, true)
        case None => (f.(configs := s.configs), false)
  }

  /** The node is as it was, and neither ledger has an entry for it that it did not have. */
  ghost predicate Bystander(before: Fleet, after: Fleet, ip: Ip)
  {
    && Get(after.configs, ip) == Get(before.configs, ip)
    && (forall p :: p in after.scalars && ip in after.scalars[p] ==>
          p in before.scalars && ip in before.scalars[p] && after.scalars[p][ip] == before.scalars[p][ip])
    && (forall mac :: mac in after.hosts && ip in after.hosts[mac] ==>
          mac in before.hosts && ip in before.hosts[mac] && after.hosts[mac][ip] == before.hosts[mac][ip])
  }

  lemma BystanderTwice(a: Fleet, b: Fleet, c: Fleet, ip: Ip)
    requires Bystander(a, b, ip) && Bystander(b, c, ip)
    ensures Bystander(a, c, ip)
  {
  }

  lemma RoundKeys<V>(nodes: seq<Ip>, s: Site<V>, now: int, accepts: set<Ip>)
    requires nodes != [] && Covers(nodes, s.values)
    ensures Round(nodes, s, now, accepts).ledger.Keys == set ip | ip in nodes
  {
  }

  lemma BystanderOfStep(nodes: seq<Ip>, fetched: map<Ip, Value>, p: Path, f: Fleet, now: int, accepts: set<(Ip, Path)>, ip: Ip)
    requires nodes != [] && Covers(nodes, fetched) && ip !in nodes
    ensures Bystander(f, PathStep(nodes, fetched, p, f, now, accepts), ip)
  {
    var s, acc := PathSite(nodes, fetched, f.scalars, p), Accepting(nodes, accepts, p);
    RoundKeys(nodes, s, now, acc);
    assert ip !in acc;
    hide Round, Pick, PathSite, Accepting, FoundEverywhere, SetPath;
  }

  lemma {:induction false} BystanderOfScalars(nodes: seq<Ip>, fetched: map<Ip, Value>, paths: seq<Path>, f: Fleet, now: int,
                                              accepts: set<(Ip, Path)>, ip: Ip)
    requires nodes != [] && Covers(nodes, fetched) && ip !in nodes
    ensures Bystander(f, ScalarRun(nodes, fetched, paths, f, now, accepts), ip)
  {
    if paths != [] {
      var init := paths[..|paths| - 1];
      BystanderOfScalars(nodes, fetched, init, f, now, accepts, ip);
      BystanderOfStep(nodes, fetched, paths[|paths| - 1], ScalarRun(nodes, fetched, init, f, now, accepts), now, accepts, ip);
      hide Bystander, PathStep;
      BystanderTwice(f, ScalarRun(nodes, fetched, init, f, now, accepts), ScalarRun(nodes, fetched, paths, f, now, accepts), ip);
    }
  }

  lemma BystanderOfHosts(nodes: seq<Ip>, tables: map<Ip, Table>, macs: seq<string>, f: Fleet, now: int, accepts: set<Ip>, ip: Ip)
    requires nodes != [] && Covers(nodes, tables) && ip !in nodes && HostRun(nodes, tables, macs, f, now, accepts).Some?
    ensures Bystander(f, HostRun(nodes, tables, macs, f, now, accepts).value, ip)
  {
    hide *;
    var r := HostRun(nodes, tables, macs, f, now, accepts).value;
    BystanderOfTable(nodes, tables, macs, f, now, accepts, ip);
    BystanderOfLedgers(nodes, tables, macs, f, now, accepts, ip);
    FromBoth(f, r, ip);
  }

  lemma FromBoth(f: Fleet, r: Fleet, ip: Ip)
    requires Get(r.configs, ip) == Get(f.configs, ip) && r.scalars == f.scalars
    requires forall mac :: mac in r.hosts && ip in r.hosts[mac] ==> mac in f.hosts && ip in f.hosts[mac] && r.hosts[mac][ip] == f.hosts[mac][ip]
    ensures Bystander(f, r, ip)
  {
  }

  lemma BystanderOfTable(nodes: seq<Ip>, tables: map<Ip, Table>, macs: seq<string>, f: Fleet, now: int, accepts: set<Ip>, ip: Ip)
    requires nodes != [] && Covers(nodes, tables) && ip !in nodes && HostRun(nodes, tables, macs, f, now, accepts).Some?
    ensures Get(HostRun(nodes, tables, macs, f, now, accepts).value.configs, ip) == Get(f.configs, ip)
  {
    hide MacLedgers, MergedItems, RenderHosts, SetPath;
  }

  lemma BystanderOfLedgers(nodes: seq<Ip>, tables: map<Ip, Table>, macs: seq<string>, f: Fleet, now: int, accepts: set<Ip>, ip: Ip)
    requires nodes != [] && Covers(nodes, tables) && ip !in nodes
    ensures
      var hosts := MacLedgers(nodes, tables, f.hosts, macs, now, accepts);
      forall mac :: mac in hosts && ip in hosts[mac] ==> mac in f.hosts && ip in f.hosts[mac] && hosts[mac][ip] == f.hosts[mac][ip]
  {
    forall mac | mac in macs ensures ip !in MacUpdates(nodes, tables, f.hosts, macs, now, accepts)[mac] {
      RoundKeys(nodes, MacSite(nodes, tables, f.hosts, mac), now, accepts);
      hide Round, MacSite;
    }
    hide MacUpdates, Round, MacSite;
    MacUpdatesKeys(nodes, tables, f.hosts, macs, now, accepts);
  }

  lemma MacUpdatesKeys(nodes: seq<Ip>, tables: map<Ip, Table>, hosts: map<string, Stamps<Reservation>>, macs: seq<string>, now: int,
                       accepts: set<Ip>)
    requires nodes != [] && Covers(nodes, tables)
    ensures forall mac :: mac in MacUpdates(nodes, tables, hosts, macs, now, accepts) <==> mac in macs
  {
    hide Round, MacSite;
  }

  /** A run leaves a node that takes no part alone. */
  lemma BystanderOfRun(f: Fleet, nodes: seq<Ip>, enabled: seq<Path>, hostsEnabled: bool, macs: seq<string>, now: int,
                       accepts: set<(Ip, Path)>, acceptsTable: set<Ip>, ip: Ip)
    requires Covers(nodes, f.configs) && ip !in nodes
    ensures Bystander(f, RunOutcome(f, nodes, enabled, hostsEnabled, macs, now, accepts, acceptsTable).0, ip)
  {
    hide ScalarRun, HostRun, NodeHosts, Bystander;
    SameIsBystander(f, ip);
    if |nodes| >= 2 {
      var s := ScalarRun(nodes, f.configs, enabled, f, now, accepts);
      BystanderOfScalars(nodes, f.configs, enabled, f, now, accepts, ip);
      UnsavedIsBystander(f, s, ip);
      if HostRun(nodes, NodeHosts(nodes, f.configs), macs, s, now, acceptsTable).Some? {
        BystanderOfHosts(nodes, NodeHosts(nodes, f.configs), macs, s, now, acceptsTable, ip);
        BystanderTwice(f, s, HostRun(nodes, NodeHosts(nodes, f.configs), macs, s, now, acceptsTable).value, ip);
      }
    }
  }

  lemma SameIsBystander(f: Fleet, ip: Ip)
    ensures Bystander(f, f, ip)
  {
  }

  lemma UnsavedIsBystander(f: Fleet, s: Fleet, ip: Ip)
    requires Bystander(f, s, ip)
    ensures Bystander(f, f.(configs := s.configs), ip)
  {
  }

  /** The nodes pushed to so far that accepted have the value at the path; the others are as they were. */
  ghost predicate PushedTo(before: map<Ip, Value>, after: map<Ip, Value>, pushed: seq<Ip>, p: Path, v: Value, accepts: set<(Ip, Path)>)
  {
    after.Keys == before.Keys
    && forall ip :: ip in before ==> after[ip] == if ip in pushed && (ip, p) in accepts then SetPath(before[ip], p, v) else before[ip]
  }

  ghost predicate StampedFor(seen: Stamps<Json>, updated: Stamps<Json>, pushed: seq<Ip>, p: Path, winner: Entry<Json>, accepts: set<(Ip, Path)>)
  {
    updated.Keys == seen.Keys && forall ip :: ip in seen ==> updated[ip] == if ip in pushed && (ip, p) in accepts then winner else seen[ip]
  }

  lemma NothingPushed(configs: map<Ip, Value>, seen: Stamps<Json>, p: Path, winner: Entry<Json>, accepts: set<(Ip, Path)>)
    ensures PushedTo(configs, configs, [], p, winner.value, accepts) && StampedFor(seen, seen, [], p, winner, accepts)
  {
  }

  lemma PushedToMore(before: map<Ip, Value>, after: map<Ip, Value>, pushed: seq<Ip>, ip: Ip, p: Path, v: Value, accepts: set<(Ip, Path)>)
    requires PushedTo(before, after, pushed, p, v, accepts) && ip in before
    ensures PushedTo(before, if (ip, p) in accepts then after[ip := SetPath(after[ip], p, v)] else after, pushed + [ip], p, v, accepts)
  {
    SetSet(before[ip], p, v, v);
    hide SetPath;
  }

  lemma StampedForMore(seen: Stamps<Json>, updated: Stamps<Json>, pushed: seq<Ip>, ip: Ip, p: Path, winner: Entry<Json>, accepts: set<(Ip, Path)>)
    requires StampedFor(seen, updated, pushed, p, winner, accepts) && ip in seen
    ensures StampedFor(seen, if (ip, p) in accepts then updated[ip := winner] else updated, pushed + [ip], p, winner, accepts)
  {
  }

  lemma PushesAre(before: map<Ip, Value>, after: map<Ip, Value>, seen: Stamps<Json>, updated: Stamps<Json>, stale: seq<Ip>, p: Path,
                  winner: Entry<Json>, accepts: set<(Ip, Path)>)
    requires PushedTo(before, after, stale, p, winner.value, accepts) && StampedFor(seen, updated, stale, p, winner, accepts)
    ensures after.Keys == before.Keys && updated.Keys == seen.Keys
    ensures forall ip :: ip in after ==> after[ip] == if ip in stale && (ip, p) in accepts then SetPath(before[ip], p, winner.value) else before[ip]
    ensures forall ip :: ip in seen ==> updated[ip] == if ip in stale && (ip, p) in accepts then winner else seen[ip]
  {
    hide SetPath;
  }

  class Worker {
    var configs: map<Ip, Value>
    var scalars: map<Path, Stamps<Json>>
    var hosts: map<string, Stamps<Reservation>>

    function State(): Fleet
      reads this
    {
      Fleet(configs, scalars, hosts)
    }

    constructor (configs: map<Ip, Value>)
      ensures State() == Fleet(configs, map[], map[])
    {
      this.configs, scalars, hosts := configs, map[], map[];
    }

    /** `_merge_run`. The calls that can fail are given by who accepts which push; `macs` is the order
        in which the set of all macs is walked. */
    method Run(ips: seq<Ip>, maintenance: set<Ip>, up: set<Ip>, enabled: seq<Path>, hostsEnabled: bool, macs: seq<string>,
               now: int, accepts: set<(Ip, Path)>, acceptsTable: set<Ip>) returns (ok: bool)
      requires Covers(ips, configs) && Distinct(macs)
      modifies this
      ensures exists nodes ::
        && Participants(nodes, ips, maintenance, up) && Covers(nodes, old(configs))
        && (State(), ok) == RunOutcome(old(State()), nodes, enabled, hostsEnabled, macs, now, accepts, acceptsTable)
      ensures forall ip :: !(ip in ips && ip !in maintenance && ip in up) ==> Bystander(old(State()), State(), ip)
    {
      RunNodesTakePart(ips, maintenance, up);
      var nodes := RunNodes(ips, maintenance, up);
      ghost var outcome := RunOutcome(old(State()), nodes, enabled, hostsEnabled, macs, now, accepts, acceptsTable);
      forall ip | ip !in nodes ensures Bystander(old(State()), outcome.0, ip) {
        BystanderOfRun(old(State()), nodes, enabled, hostsEnabled, macs, now, accepts, acceptsTable, ip);
      }
      hide Participants, Bystander, TakesPart, RunNodes;
      if enabled == [] && !hostsEnabled {
        return false;
      }
      if |nodes| < 2 {
        return false;
      }
      var fetched := configs;
      var ledger := scalars;
      for i := 0 to |enabled|
        invariant hosts == old(hosts) && scalars == old(scalars) && Covers(nodes, configs)
        invariant Fleet(configs, ledger, hosts) == ScalarRun(nodes, fetched, enabled[..i], old(State()), now, accepts)
      {
        assert enabled[..i + 1][..i] == enabled[..i];
        ledger := RunPath(nodes, fetched, enabled[i], ledger, now, accepts);
      }
      assert enabled[..|enabled|] == enabled;
      if hostsEnabled {
        ok := RunHosts(nodes, fetched, macs, ledger, now, acceptsTable);
        if !ok {
          return;
        }
      }
      scalars := ledger;
      ok := true;
    }

    /** One enabled path: collect the values, pick, push to each stale node and copy the winner's
        stamp for each push that is accepted. */
    method RunPath(nodes: seq<Ip>, fetched: map<Ip, Value>, p: Path, ledger: map<Path, Stamps<Json>>, now: int,
                   accepts: set<(Ip, Path)>) returns (saved: map<Path, Stamps<Json>>)
      requires nodes != [] && Covers(nodes, fetched) && Covers(nodes, configs)
      modifies this`configs
      ensures configs.Keys == old(configs).Keys
      ensures Fleet(configs, saved, hosts)
           == PathStep(nodes, fetched, p, Fleet(old(configs), ledger, hosts), now, accepts)
    {
      var found, values := CollectValues(nodes, fetched, p);
      if !found {
        return ledger;
      }
      ghost var s := PathSite(nodes, fetched, ledger, p);
      var winner, seen, stale := PickWinner(nodes, values, Get(ledger, p).GetOr(map[]), now);
      var updated := PushStale(stale, p, winner, seen, accepts);
      saved := ledger[p := updated];
      PushedIsStep(nodes, fetched, p, Fleet(old(configs), ledger, hosts), now, accepts, configs, updated);
    }

    /** The value of a path on every node, unless some node does not have it. */
    static method CollectValues(nodes: seq<Ip>, fetched: map<Ip, Value>, p: Path) returns (found: bool, values: Values<Json>)
      requires Covers(nodes, fetched)
      ensures found == FoundEverywhere(nodes, fetched, p)
      ensures found ==> values == PathSite(nodes, fetched, map[], p).values
    {
      values := map[];
      for i := 0 to |nodes|
        invariant values == map ip | ip in nodes[..i] :: GetPath(fetched[ip], p).GetOr(None)
        invariant FoundEverywhere(nodes[..i], fetched, p)
      {
        var v := WalkPath(fetched[nodes[i]], p);
        if v.None? {
          return false, values;
        }
        values := values[nodes[i] := v.value];
        assert nodes[..i + 1] == nodes[..i] + [nodes[i]];
      }
      assert nodes[..|nodes|] == nodes;
      found := true;
    }

    method PushStale(stale: seq<Ip>, p: Path, winner: Entry<Json>, seen: Stamps<Json>, accepts: set<(Ip, Path)>)
        returns (updated: Stamps<Json>)
      requires Covers(stale, configs) && Covers(stale, seen)
      modifies this`configs
      ensures configs.Keys == old(configs).Keys && updated.Keys == seen.Keys
      ensures forall ip :: ip in configs ==>
        configs[ip] == (if ip in stale && (ip, p) in accepts then SetPath(old(configs)[ip], p, winner.value) else old(configs)[ip])
      ensures forall ip :: ip in seen ==> updated[ip] == if ip in stale && (ip, p) in accepts then winner else seen[ip]
    {
      hide SetPath, PushedTo, StampedFor;
      updated := seen;
      NothingPushed(configs, seen, p, winner, accepts);
      for j := 0 to |stale|
        invariant configs.Keys == old(configs).Keys && updated.Keys == seen.Keys
        invariant PushedTo(old(configs), configs, stale[..j], p, winner.value, accepts)
        invariant StampedFor(seen, updated, stale[..j], p, winner, accepts)
      {
        var ip := stale[j];
        assert stale[..j + 1] == stale[..j] + [ip];
        PushedToMore(old(configs), configs, stale[..j], ip, p, winner.value, accepts);
        StampedForMore(seen, updated, stale[..j], ip, p, winner, accepts);
        if (ip, p) in accepts {
          configs := configs[ip := SetPath(configs[ip], p, winner.value)];
          updated := updated[ip := winner];
        }
      }
      assert stale[..|stale|] == stale;
      PushesAre(old(configs), configs, seen, updated, stale, p, winner, accepts);
    }

    /** The mac-keyed merge: pick a winner for every mac, then write the merged table to every node
        that differs. */
    method RunHosts(nodes: seq<Ip>, fetched: map<Ip, Value>, macs: seq<string>, ghost ledger: map<Path, Stamps<Json>>,
                    now: int, accepts: set<Ip>) returns (ok: bool)
      requires nodes != [] && Covers(nodes, fetched) && Covers(nodes, configs) && Distinct(macs)
      modifies this`configs, this`hosts
      ensures
        var r := HostRun(nodes, NodeHosts(nodes, fetched), macs, Fleet(old(configs), ledger, old(hosts)), now, accepts);
        && ok == r.Some?
        && (if ok then Fleet(configs, ledger, hosts) == r.value else configs == old(configs) && hosts == old(hosts))
    {
      hide PickedMacs, CopiedFor, PushTable, RenderHosts, MergedItems, MacUpdates, MacSite, Pick, Get;
      var tables := ReadTables(nodes, fetched);
      var items, winners, seen := PickMacs(nodes, tables, macs, now);
      var updated;
      ok, updated := PushTables(nodes, tables, items, winners, seen, accepts);
      if ok {
        MergedIsWinners(nodes, tables, hosts, macs, now);
        UpdatesAreRounds(nodes, tables, Dict(items), hosts, macs, now, accepts, winners, seen, updated);
        hosts := hosts + updated;
      }
    }

    /** Write the merged table to every node that differs; an accepted push copies the stamp of every
        winner the node was stale for. Rendering may raise, before the first push. */
    method PushTables(nodes: seq<Ip>, tables: map<Ip, Table>, items: seq<(string, Reservation)>,
                      winners: map<string, Entry<Reservation>>, seen: map<string, Stamps<Reservation>>, accepts: set<Ip>)
        returns (ok: bool, updated: map<string, Stamps<Reservation>>)
      requires Covers(nodes, tables) && Covers(nodes, configs) && seen.Keys <= winners.Keys
      modifies this`configs
      ensures ok == (RenderHosts(items).Some? || forall ip :: ip in nodes ==> tables[ip] == Dict(items))
      ensures ok && RenderHosts(items).Some? ==>
        configs == PushTable(nodes, tables, old(configs), Dict(items), RenderHosts(items).value, accepts)
      ensures RenderHosts(items).None? ==> configs == old(configs)
      ensures ok ==> updated.Keys == seen.Keys && forall mac :: mac in seen ==>
        updated[mac] == CopiedFor(mac, nodes, tables, Dict(items), winners[mac], seen[mac], accepts)
    {
      hide RenderHosts, CopiedFor, PushTable, Get;
      var merged, rendered := Dict(items), RenderHosts(items);
      updated := seen;
      CopiedForNone(nodes, tables, merged, winners, seen, accepts);
      PushTableNone(tables, configs, merged, rendered.GetOr([]), accepts);
      for j := 0 to |nodes|
        invariant configs == PushTable(nodes[..j], tables, old(configs), merged, rendered.GetOr([]), accepts)
        invariant rendered.None? ==> configs == old(configs) && forall ip :: ip in nodes[..j] ==> tables[ip] == merged
        invariant updated.Keys == seen.Keys
        invariant forall mac :: mac in seen ==>
          updated[mac] == CopiedFor(mac, nodes[..j], tables, merged, winners[mac], seen[mac], accepts)
      {
        var ip := nodes[j];
        if tables[ip] != merged && rendered.None? {
          return false, updated;
        }
        PushTableStep(nodes, j, tables, old(configs), merged, rendered.GetOr([]), accepts);
        forall mac | mac in seen {
          CopiedForStep(mac, nodes, j, tables, merged, winners[mac], seen[mac], accepts);
        }
        if tables[ip] != merged && ip in accepts {
          configs := configs[ip := SetPath(configs[ip], HOSTS_PATH, Some(Lines(rendered.value)))];
          updated := CopyStamps(updated, winners, ip, tables[ip]);
        }
      }
      assert nodes[..|nodes|] == nodes;
      ok := true;
    }

    static method ReadTables(nodes: seq<Ip>, fetched: map<Ip, Value>) returns (tables: map<Ip, Table>)
      requires Covers(nodes, fetched)
      ensures tables == NodeHosts(nodes, fetched)
    {
      tables := map[];
      for i := 0 to |nodes|
        invariant tables == NodeHosts(nodes[..i], fetched)
      {
        var t := ReadHosts(HostLines(fetched[nodes[i]]));
        tables := tables[nodes[i] := t];
        assert nodes[..i + 1] == nodes[..i] + [nodes[i]];
      }
      assert nodes[..|nodes|] == nodes;
    }

    /** The winner, the stamps and the merged items for every mac. */
    method PickMacs(nodes: seq<Ip>, tables: map<Ip, Table>, macs: seq<string>, now: int)
        returns (items: seq<(string, Reservation)>, winners: map<string, Entry<Reservation>>, seen: map<string, Stamps<Reservation>>)
      requires nodes != [] && Covers(nodes, tables) && Distinct(macs)
      ensures PickedMacs(nodes, tables, hosts, macs, now, winners, seen) && seen.Keys <= winners.Keys
      ensures items == MergedItems(nodes, tables, hosts, macs, now)
    {
      hide Winner, Observe, MacSite, PickedMacs;
      items, winners, seen := [], map[], map[];
      NothingPicked(nodes, tables, hosts, now);
      for i := 0 to |macs|
        invariant PickedMacs(nodes, tables, hosts, macs[..i], now, winners, seen)
        invariant forall mac :: mac in macs[..i] ==> mac in winners
        invariant items == PresentItems(macs[..i], winners)
      {
        var mac := macs[i];
        var site := MacSite(nodes, tables, hosts, mac);
        var winner, stamps, _ := PickWinner(nodes, site.values, site.ledger, now);
        assert macs[..i] <= macs;
        PickedOneMore(nodes, tables, hosts, macs, i, now, winners, seen);
        PresentItemsStep(macs, i, winners, winner);
        winners, seen := winners[mac := winner], seen[mac := stamps];
        if winner.value.Some? {
          items := items + [(mac, winner.value.value)];
        }
      }
      assert macs[..|macs|] == macs;
      PickedWinners(nodes, tables, hosts, macs, now, winners, seen);
    }
  }

  /** `mac_meta`: winner and stamps of every mac so far. */
  ghost predicate PickedMacs(nodes: seq<Ip>, tables: map<Ip, Table>, hosts: map<string, Stamps<Reservation>>, macs: seq<string>,
                             now: int, winners: map<string, Entry<Reservation>>, seen: map<string, Stamps<Reservation>>)
    requires nodes != [] && Covers(nodes, tables)
  {
    && (forall mac :: mac in winners <==> mac in macs)
    && (forall mac :: mac in seen <==> mac in macs)
    && (forall mac :: mac in macs ==>
         var s := MacSite(nodes, tables, hosts, mac);
         seen[mac] == Observe(nodes, s.values, s.ledger, now) && winners[mac] == Winner(nodes, seen[mac]))
  }

  lemma NothingPicked(nodes: seq<Ip>, tables: map<Ip, Table>, hosts: map<string, Stamps<Reservation>>, now: int)
    requires nodes != [] && Covers(nodes, tables)
    ensures PickedMacs(nodes, tables, hosts, [], now, map[], map[])
  {
  }

  lemma PickedWinners(nodes: seq<Ip>, tables: map<Ip, Table>, hosts: map<string, Stamps<Reservation>>, macs: seq<string>,
                      now: int, winners: map<string, Entry<Reservation>>, seen: map<string, Stamps<Reservation>>)
    requires nodes != [] && Covers(nodes, tables) && PickedMacs(nodes, tables, hosts, macs, now, winners, seen)
    ensures winners == MacWinners(nodes, tables, hosts, macs, now) && seen.Keys == winners.Keys
  {
    hide Winner, Observe, MacSite;
  }

  lemma {:induction false} PickedOneMore(nodes: seq<Ip>, tables: map<Ip, Table>, hosts: map<string, Stamps<Reservation>>, macs: seq<string>, i: nat,
                      now: int, winners: map<string, Entry<Reservation>>, seen: map<string, Stamps<Reservation>>)
    requires nodes != [] && Covers(nodes, tables) && i < |macs| && PickedMacs(nodes, tables, hosts, macs[..i], now, winners, seen)
    ensures
      var s := MacSite(nodes, tables, hosts, macs[i]);
      var o := Observe(nodes, s.values, s.ledger, now);
      PickedMacs(nodes, tables, hosts, macs[..i + 1], now, winners[macs[i] := Winner(nodes, o)], seen[macs[i] := o])
  {
    hide Winner, Observe, MacSite;
    assert macs[..i + 1] == macs[..i] + [macs[i]];
  }

  lemma {:induction false} PresentItemsStep(macs: seq<string>, i: nat, winners: map<string, Entry<Reservation>>, winner: Entry<Reservation>)
    requires i < |macs| && Distinct(macs) && forall mac :: mac in macs[..i] ==> mac in winners
    ensures forall mac :: mac in macs[..i + 1] ==> mac in winners || mac == macs[i]
    ensures PresentItems(macs[..i + 1], winners[macs[i] := winner])
         == PresentItems(macs[..i], winners) + (if winner.value.Some? then [(macs[i], winner.value.value)] else [])
  {
    assert macs[..i + 1] == macs[..i] + [macs[i]];
    assert macs[..i + 1][..i] == macs[..i];
    PresentItemsSame(macs[..i], winners, winners[macs[i] := winner]);
  }

  lemma {:induction false} PresentItemsSame(macs: seq<string>, a: map<string, Entry<Reservation>>, b: map<string, Entry<Reservation>>)
    requires forall mac :: mac in macs ==> mac in a && mac in b && a[mac] == b[mac]
    ensures PresentItems(macs, a) == PresentItems(macs, b)
  {
    if macs != [] {
      PresentItemsSame(macs[..|macs| - 1], a, b);
    }
  }

  /** The inner loop of a push: the node now holds every winner. */
  function CopyStamps(updated: map<string, Stamps<Reservation>>, winners: map<string, Entry<Reservation>>, ip: Ip, table: Table)
      : map<string, Stamps<Reservation>>
    requires updated.Keys <= winners.Keys
  {
    map mac | mac in updated ::
      if Get(table, mac) != winners[mac].value then updated[mac][ip := winners[mac]] else updated[mac]
  }

  /** The stamps of one mac after the nodes in `done` were pushed to: an accepted push copies the
      winner's stamp where the node was stale. */
  ghost function CopiedFor(mac: string, done: seq<Ip>, tables: map<Ip, Table>, merged: Table, winner: Entry<Reservation>,
                           seen: Stamps<Reservation>, accepts: set<Ip>): Stamps<Reservation>
    requires Covers(done, tables)
  {
    if done == [] then seen
    else
      var ip := done[|done| - 1];
      var before := CopiedFor(mac, done[..|done| - 1], tables, merged, winner, seen, accepts);
      if ip in accepts && tables[ip] != merged && Get(tables[ip], mac) != winner.value then before[ip := winner] else before
  }

  lemma {:induction false} CopiedForAt(mac: string, done: seq<Ip>, tables: map<Ip, Table>, merged: Table, winner: Entry<Reservation>,
                                       seen: Stamps<Reservation>, accepts: set<Ip>)
    requires Covers(done, tables) && Covers(done, seen)
    ensures
      var r := CopiedFor(mac, done, tables, merged, winner, seen, accepts);
      && r.Keys == seen.Keys
      && forall ip :: ip in seen ==>
        r[ip] == (if ip in done && ip in accepts && tables[ip] != merged && Get(tables[ip], mac) != winner.value
                  then winner else seen[ip])
  {
    if done != [] {
      CopiedForAt(mac, done[..|done| - 1], tables, merged, winner, seen, accepts);
    }
  }

  lemma {:induction false} CopiedForStep(mac: string, nodes: seq<Ip>, j: nat, tables: map<Ip, Table>, merged: Table, winner: Entry<Reservation>,
                      seen: Stamps<Reservation>, accepts: set<Ip>)
    requires j < |nodes| && Covers(nodes, tables)
    ensures
      var before := CopiedFor(mac, nodes[..j], tables, merged, winner, seen, accepts);
      CopiedFor(mac, nodes[..j + 1], tables, merged, winner, seen, accepts)
      == if nodes[j] in accepts && tables[nodes[j]] != merged && Get(tables[nodes[j]], mac) != winner.value
         then before[nodes[j] := winner] else before
  {
    assert nodes[..j + 1][..j] == nodes[..j];
  }

  lemma CopiedForNone(nodes: seq<Ip>, tables: map<Ip, Table>, merged: Table, winners: map<string, Entry<Reservation>>,
                      seen: map<string, Stamps<Reservation>>, accepts: set<Ip>)
    requires Covers(nodes, tables) && seen.Keys <= winners.Keys
    ensures forall mac :: mac in seen ==> CopiedFor(mac, nodes[..0], tables, merged, winners[mac], seen[mac], accepts) == seen[mac]
  {
  }

  lemma PushTableNone(tables: map<Ip, Table>, configs: map<Ip, Value>, merged: Table, lines: seq<string>, accepts: set<Ip>)
    ensures PushTable([], tables, configs, merged, lines, accepts) == configs
  {
  }

  lemma PushTableAt(nodes: seq<Ip>, tables: map<Ip, Table>, configs: map<Ip, Value>, merged: Table, lines: seq<string>, accepts: set<Ip>, ip: Ip)
    requires Covers(nodes, tables) && ip in configs
    ensures PushTable(nodes, tables, configs, merged, lines, accepts)[ip]
         == if ip in nodes && ip in accepts && tables[ip] != merged then SetPath(configs[ip], HOSTS_PATH, Some(Lines(lines))) else configs[ip]
  {
    hide SetPath;
  }

  lemma PushTableNode(nodes: seq<Ip>, j: nat, tables: map<Ip, Table>, configs: map<Ip, Value>, merged: Table, lines: seq<string>,
                      accepts: set<Ip>, ip: Ip)
    requires j < |nodes| && Covers(nodes, tables) && ip in configs
    ensures
      var before := PushTable(nodes[..j], tables, configs, merged, lines, accepts)[ip];
      PushTable(nodes[..j + 1], tables, configs, merged, lines, accepts)[ip]
      == if ip == nodes[j] && ip in accepts && tables[ip] != merged then SetPath(before, HOSTS_PATH, Some(Lines(lines))) else before
  {
    hide SetPath, PushTable;
    assert nodes[..j + 1] == nodes[..j] + [nodes[j]];
    SetSet(configs[ip], HOSTS_PATH, Some(Lines(lines)), Some(Lines(lines)));
    PushTableAt(nodes[..j + 1], tables, configs, merged, lines, accepts, ip);
    PushTableAt(nodes[..j], tables, configs, merged, lines, accepts, ip);
  }

  lemma UpdatedOnce<K, V>(m: map<K, V>, before: map<K, V>, k: K, v: V, changes: bool)
    requires m.Keys == before.Keys && k in before
    requires forall x :: x in before ==> m[x] == if x == k && changes then v else before[x]
    ensures m == if changes then before[k := v] else before
  {
  }

  lemma PushTableStep(nodes: seq<Ip>, j: nat, tables: map<Ip, Table>, configs: map<Ip, Value>, merged: Table,
                      lines: seq<string>, accepts: set<Ip>)
    requires j < |nodes| && Covers(nodes, tables) && nodes[j] in configs
    ensures
      var before := PushTable(nodes[..j], tables, configs, merged, lines, accepts);
      PushTable(nodes[..j + 1], tables, configs, merged, lines, accepts)
      == if tables[nodes[j]] != merged && nodes[j] in accepts
         then before[nodes[j] := SetPath(before[nodes[j]], HOSTS_PATH, Some(Lines(lines)))] else before
  {
    hide PushTable, SetPath;
    var after, before := PushTable(nodes[..j + 1], tables, configs, merged, lines, accepts), PushTable(nodes[..j], tables, configs, merged, lines, accepts);
    var k, changes := nodes[j], nodes[j] in accepts && tables[nodes[j]] != merged;
    var v := SetPath(before[k], HOSTS_PATH, Some(Lines(lines)));
    forall ip | ip in before ensures after[ip] == if ip == k && changes then v else before[ip] {
      PushTableNode(nodes, j, tables, configs, merged, lines, accepts, ip);
    }
    UpdatedOnce(after, before, k, v, changes);
  }

  /** The copied stamps are those of one ledger round per mac. */
  lemma {:induction false} UpdatesAreRounds(nodes: seq<Ip>, tables: map<Ip, Table>, merged: Table, hosts: map<string, Stamps<Reservation>>,
                         macs: seq<string>, now: int, accepts: set<Ip>, winners: map<string, Entry<Reservation>>,
                         seen: map<string, Stamps<Reservation>>, updated: map<string, Stamps<Reservation>>)
    requires nodes != [] && Covers(nodes, tables) && PickedMacs(nodes, tables, hosts, macs, now, winners, seen)
    requires forall mac :: mac in macs ==> Get(merged, mac) == Pick(nodes, MacSite(nodes, tables, hosts, mac), now).value
    requires updated.Keys == seen.Keys && forall mac :: mac in seen ==>
      updated[mac] == CopiedFor(mac, nodes, tables, merged, winners[mac], seen[mac], accepts)
    ensures updated == MacUpdates(nodes, tables, hosts, macs, now, accepts)
  {
    hide Winner, Observe, MacSite, Round, CopiedFor;
    forall mac | mac in macs
      ensures updated[mac] == Round(nodes, MacSite(nodes, tables, hosts, mac), now, accepts).ledger
    {
      MacSiteAt(nodes, tables, hosts, mac);
      CopiedAt(nodes, tables, MacSite(nodes, tables, hosts, mac), merged, now, accepts, mac);
    }
  }

  lemma MacSiteAt(nodes: seq<Ip>, tables: map<Ip, Table>, hosts: map<string, Stamps<Reservation>>, mac: string)
    requires Covers(nodes, tables)
    ensures forall ip :: ip in nodes ==> MacSite(nodes, tables, hosts, mac).values[ip] == Get(tables[ip], mac)
  {
  }

  lemma {:induction false} CopiedAt(nodes: seq<Ip>, tables: map<Ip, Table>, s: Site<Reservation>, merged: Table, now: int,
                                    accepts: set<Ip>, mac: string)
    requires nodes != [] && Covers(nodes, tables) && Covers(nodes, s.values)
    requires forall ip :: ip in nodes ==> s.values[ip] == Get(tables[ip], mac)
    requires Get(merged, mac) == Pick(nodes, s, now).value
    ensures
      CopiedFor(mac, nodes, tables, merged, Pick(nodes, s, now), Observe(nodes, s.values, s.ledger, now), accepts)
      == Round(nodes, s, now, accepts).ledger
  {
    CopiedForAt(mac, nodes, tables, merged, Pick(nodes, s, now), Observe(nodes, s.values, s.ledger, now), accepts);
  }

  /** Pushing the winner to the nodes that were stale and accept is one step of the run. */
  lemma {:induction false} PushedIsStep(nodes: seq<Ip>, fetched: map<Ip, Value>, p: Path, f: Fleet, now: int, accepts: set<(Ip, Path)>,
                     configs: map<Ip, Value>, updated: Stamps<Json>)
    requires nodes != [] && Covers(nodes, fetched) && FoundEverywhere(nodes, fetched, p)
    requires configs.Keys == f.configs.Keys && updated.Keys == (set ip | ip in nodes)
    requires
      var s := PathSite(nodes, fetched, f.scalars, p);
      var w := Pick(nodes, s, now);
      && (forall ip :: ip in configs ==>
           configs[ip] == (if ip in nodes && s.values[ip] != w.value && (ip, p) in accepts then SetPath(f.configs[ip], p, w.value) else f.configs[ip]))
      && (forall ip :: ip in nodes ==>
           updated[ip] == (if s.values[ip] != w.value && (ip, p) in accepts then w else Observe(nodes, s.values, s.ledger, now)[ip]))
    ensures PathStep(nodes, fetched, p, f, now, accepts) == Fleet(configs, f.scalars[p := updated], f.hosts)
  {
    var s := PathSite(nodes, fetched, f.scalars, p);
    assert updated == Round(nodes, s, now, Accepting(nodes, accepts, p)).ledger;
    assert configs == PathStep(nodes, fetched, p, f, now, accepts).configs;
  }

  /** The enabled paths are a selection of the managed ones. */
  ghost predicate Selected(enabled: seq<Path>)
  {
    Distinct(enabled) && forall p :: p in enabled ==> p in SCALAR_PATHS
  }

  lemma SelectedApart(enabled: seq<Path>)
    requires Selected(enabled)
    ensures AllApart(enabled) && ApartFrom(HOSTS_PATH, enabled)
    ensures forall p :: p in enabled ==> Apart(HOSTS_PATH, p)
  {
    EnabledPathsApart(enabled);
    hide Apart;
    forall p | p in enabled ensures Apart(HOSTS_PATH, p) {
      HostsApart(p);
    }
  }

  /** What the reservations read before the reservations' turn. */
  lemma TablesUntouched(f: Fleet, nodes: seq<Ip>, enabled: seq<Path>, now: int, accepts: set<(Ip, Path)>)
    requires nodes != [] && Covers(nodes, f.configs) && Selected(enabled)
    ensures
      var s := ScalarRun(nodes, f.configs, enabled, f, now, accepts);
      s.configs.Keys == f.configs.Keys && s.hosts == f.hosts && TablesAsFetched(nodes, NodeHosts(nodes, f.configs), s.configs)
  {
    hide ScalarRun, HostsOf, Selected;
    SelectedApart(enabled);
    ScalarRunFrame(nodes, f.configs, enabled, f, now, accepts, HOSTS_PATH);
    var s := ScalarRun(nodes, f.configs, enabled, f, now, accepts);
    forall ip | ip in nodes ensures HostsOf(s.configs[ip]) == HostsOf(f.configs[ip]) {
      SameHosts(s.configs[ip], f.configs[ip]);
    }
  }

  /** Outside the reservations a run is its scalar phase. */
  lemma ReservationsAside(f: Fleet, nodes: seq<Ip>, enabled: seq<Path>, hostsEnabled: bool, macs: seq<string>, now: int,
                          accepts: set<(Ip, Path)>, acceptsTable: set<Ip>, q: Path)
    requires |nodes| >= 2 && Covers(nodes, f.configs) && Selected(enabled)
    requires hostsEnabled ==> Apart(HOSTS_PATH, q)
    ensures
      var r := RunOutcome(f, nodes, enabled, hostsEnabled, macs, now, accepts, acceptsTable).0;
      var s := ScalarRun(nodes, f.configs, enabled, f, now, accepts);
      && r.configs.Keys == f.configs.Keys == s.configs.Keys
      && forall ip :: ip in f.configs ==> GetPath(r.configs[ip], q) == GetPath(s.configs[ip], q)
  {
    TablesUntouched(f, nodes, enabled, now, accepts);
    hide ScalarRun, HostRun, NodeHosts, GetPath, Selected, Apart;
    var s := ScalarRun(nodes, f.configs, enabled, f, now, accepts);
    if enabled == [] && !hostsEnabled {
      NoPaths(nodes, f, now, accepts);
    } else if hostsEnabled {
      if HostRun(nodes, NodeHosts(nodes, f.configs), macs, s, now, acceptsTable).Some? {
        HostRunFrame(nodes, NodeHosts(nodes, f.configs), macs, s, now, acceptsTable, q);
      }
    }
  }

  lemma NoPaths(nodes: seq<Ip>, f: Fleet, now: int, accepts: set<(Ip, Path)>)
    requires nodes != [] && Covers(nodes, f.configs)
    ensures ScalarRun(nodes, f.configs, [], f, now, accepts) == f
  {
  }

  lemma TablesAgree(f: Fleet, nodes: seq<Ip>, enabled: seq<Path>, macs: seq<string>, now: int,
                    accepts: set<(Ip, Path)>, acceptsTable: set<Ip>)
    requires |nodes| >= 2 && Covers(nodes, f.configs) && Selected(enabled) && ListsAllMacs(macs, nodes, NodeHosts(nodes, f.configs))
    requires forall ip :: ip in nodes ==> ip in acceptsTable
    requires RunOutcome(f, nodes, enabled, true, macs, now, accepts, acceptsTable).1
    ensures
      var r := RunOutcome(f, nodes, enabled, true, macs, now, accepts, acceptsTable).0;
      Covers(nodes, r.configs) && forall ip, ip' :: ip in nodes && ip' in nodes ==> HostsOf(r.configs[ip]) == HostsOf(r.configs[ip'])
  {
    TablesUntouched(f, nodes, enabled, now, accepts);
    hide ScalarRun, HostRun, MergedItems, AllAddressed, HostsOf, Selected, ListsAllMacs;
    var tables := NodeHosts(nodes, f.configs);
    var s := ScalarRun(nodes, f.configs, enabled, f, now, accepts);
    var r := RunOutcome(f, nodes, enabled, true, macs, now, accepts, acceptsTable).0;
    forall ip | ip in nodes ensures ip in r.configs && HostsOf(r.configs[ip]) == Dict(MergedItems(nodes, tables, s.hosts, macs, now)) {
      HostRunTables(nodes, tables, macs, s, now, acceptsTable, ip);
    }
  }

  lemma PathsAgree(f: Fleet, nodes: seq<Ip>, enabled: seq<Path>, hostsEnabled: bool, macs: seq<string>, now: int,
                   accepts: set<(Ip, Path)>, acceptsTable: set<Ip>, p: Path)
    requires |nodes| >= 2 && Covers(nodes, f.configs) && Selected(enabled)
    requires p in enabled && FoundEverywhere(nodes, f.configs, p) && forall ip, q :: ip in nodes && q in enabled ==> (ip, q) in accepts
    ensures
      var r := RunOutcome(f, nodes, enabled, hostsEnabled, macs, now, accepts, acceptsTable).0;
      Covers(nodes, r.configs) && forall ip, ip' :: ip in nodes && ip' in nodes ==> GetPath(r.configs[ip], p) == GetPath(r.configs[ip'], p)
  {
    hide RunOutcome, ScalarRun, GetPath, FoundEverywhere, NodeHosts, Selected, Apart, ApartFrom, AllApart;
    SelectedApart(enabled);
    AllAcceptedAgree(nodes, enabled, f, now, accepts, p);
    ReservationsAside(f, nodes, enabled, hostsEnabled, macs, now, accepts, acceptsTable, p);
  }

  lemma RestReadsAsBefore(f: Fleet, nodes: seq<Ip>, enabled: seq<Path>, hostsEnabled: bool, macs: seq<string>, now: int,
                          accepts: set<(Ip, Path)>, acceptsTable: set<Ip>, q: Path)
    requires |nodes| >= 2 && Covers(nodes, f.configs) && Selected(enabled)
    requires ApartFrom(q, enabled) && (hostsEnabled ==> Apart(HOSTS_PATH, q))
    ensures
      var r := RunOutcome(f, nodes, enabled, hostsEnabled, macs, now, accepts, acceptsTable).0;
      r.configs.Keys == f.configs.Keys && forall ip :: ip in f.configs ==> GetPath(r.configs[ip], q) == GetPath(f.configs[ip], q)
  {
    hide RunOutcome, ScalarRun, GetPath, NodeHosts, Selected, Apart, ApartFrom;
    ScalarRunFrame(nodes, f.configs, enabled, f, now, accepts, q);
    ReservationsAside(f, nodes, enabled, hostsEnabled, macs, now, accepts, acceptsTable, q);
  }

  lemma OutcomeKeys(f: Fleet, nodes: seq<Ip>, enabled: seq<Path>, hostsEnabled: bool, macs: seq<string>, now: int,
                    accepts: set<(Ip, Path)>, acceptsTable: set<Ip>)
    requires |nodes| >= 2 && Covers(nodes, f.configs) && Selected(enabled)
    ensures RunOutcome(f, nodes, enabled, hostsEnabled, macs, now, accepts, acceptsTable).0.configs.Keys == f.configs.Keys
  {
    TablesUntouched(f, nodes, enabled, now, accepts);
    hide ScalarRun, MergedItems, MacLedgers, HostsOf, Selected, NodeHosts;
  }

  /** A step leaves a path of which some node has nothing. */
  lemma LackingStep(nodes: seq<Ip>, fetched: map<Ip, Value>, p: Path, q: Path, f: Fleet, now: int, accepts: set<(Ip, Path)>, lacking: Ip)
    requires nodes != [] && Covers(nodes, fetched) && lacking in nodes && GetPath(fetched[lacking], p).None? && (q == p || Apart(q, p))
    ensures
      var r := PathStep(nodes, fetched, q, f, now, accepts);
      && r.configs.Keys == f.configs.Keys && Get(r.scalars, p) == Get(f.scalars, p)
      && forall ip :: ip in f.configs ==> GetPath(r.configs[ip], p) == GetPath(f.configs[ip], p)
  {
    hide GetPath, SetPath, Pick, Round, PathSite;
    if q == p {
      assert !FoundEverywhere(nodes, fetched, p);
    } else {
      assert q != p by { ApartDiffers(q, p); }
      forall ip | ip in f.configs
        ensures GetPath(PathStep(nodes, fetched, q, f, now, accepts).configs[ip], p) == GetPath(f.configs[ip], p)
      {
        GetSetApart(f.configs[ip], q, p, Pick(nodes, PathSite(nodes, fetched, f.scalars, q), now).value);
      }
    }
  }

  lemma ApartDiffers(p: Path, q: Path)
    requires Apart(p, q)
    ensures p != q
  {
  }

  lemma {:induction false} LackingScalars(nodes: seq<Ip>, fetched: map<Ip, Value>, paths: seq<Path>, p: Path, f: Fleet, now: int,
                                          accepts: set<(Ip, Path)>, lacking: Ip)
    requires nodes != [] && Covers(nodes, fetched) && lacking in nodes && GetPath(fetched[lacking], p).None?
    requires forall q :: q in paths ==> q == p || Apart(q, p)
    ensures
      var r := ScalarRun(nodes, fetched, paths, f, now, accepts);
      && r.configs.Keys == f.configs.Keys && Get(r.scalars, p) == Get(f.scalars, p)
      && forall ip :: ip in f.configs ==> GetPath(r.configs[ip], p) == GetPath(f.configs[ip], p)
  {
    hide GetPath, PathStep, Apart;
    if paths != [] {
      var init := paths[..|paths| - 1];
      LackingScalars(nodes, fetched, init, p, f, now, accepts, lacking);
      LackingStep(nodes, fetched, p, paths[|paths| - 1], ScalarRun(nodes, fetched, init, f, now, accepts), now, accepts, lacking);
    }
  }

  /** A managed path that one node of the run does not have reads as before on every node, and keeps its
      ledger entry. */
  lemma LackingPathStays(f: Fleet, nodes: seq<Ip>, enabled: seq<Path>, hostsEnabled: bool, macs: seq<string>, now: int,
                         accepts: set<(Ip, Path)>, acceptsTable: set<Ip>, p: Path, lacking: Ip)
    requires |nodes| >= 2 && Covers(nodes, f.configs) && Selected(enabled) && p in SCALAR_PATHS
    requires lacking in nodes && GetPath(f.configs[lacking], p).None?
    ensures
      var r := RunOutcome(f, nodes, enabled, hostsEnabled, macs, now, accepts, acceptsTable).0;
      && r.configs.Keys == f.configs.Keys && Get(r.scalars, p) == Get(f.scalars, p)
      && forall ip :: ip in f.configs ==> GetPath(r.configs[ip], p) == GetPath(f.configs[ip], p)
  {
    hide *;
    OthersApart(enabled, p);
    LackingScalars(nodes, f.configs, enabled, p, f, now, accepts, lacking);
    HostsApart(p);
    ReservationsAside(f, nodes, enabled, hostsEnabled, macs, now, accepts, acceptsTable, p);
    ScalarsOfOutcome(f, nodes, enabled, hostsEnabled, macs, now, accepts, acceptsTable);
  }

  lemma OthersApart(enabled: seq<Path>, p: Path)
    requires Selected(enabled) && p in SCALAR_PATHS
    ensures forall q :: q in enabled ==> q == p || Apart(q, p)
  {
    hide Apart;
    forall q | q in enabled && q != p ensures Apart(q, p) {
      ScalarPathsApart(q, p);
    }
  }

  /** A run that saves has the settings' ledger of its scalar phase, any other the one from before. */
  lemma ScalarsOfOutcome(f: Fleet, nodes: seq<Ip>, enabled: seq<Path>, hostsEnabled: bool, macs: seq<string>, now: int,
                         accepts: set<(Ip, Path)>, acceptsTable: set<Ip>)
    requires |nodes| >= 2 && Covers(nodes, f.configs)
    ensures
      var r := RunOutcome(f, nodes, enabled, hostsEnabled, macs, now, accepts, acceptsTable).0;
      r.scalars == f.scalars || r.scalars == ScalarRun(nodes, f.configs, enabled, f, now, accepts).scalars
  {
    hide ScalarRun, MergedItems, MacLedgers, NodeHosts;
  }

  /** A run whose pushes all succeed: the reachable nodes agree on every enabled path they all have, on
      one table of reservations when those are enabled and the run saves, and every other path of
      every node reads as before. */
  lemma SuccessfulRunAgrees(f: Fleet, nodes: seq<Ip>, enabled: seq<Path>, hostsEnabled: bool, macs: seq<string>, now: int,
                            accepts: set<(Ip, Path)>, acceptsTable: set<Ip>)
    requires |nodes| >= 2 && Covers(nodes, f.configs) && Selected(enabled) && ListsAllMacs(macs, nodes, NodeHosts(nodes, f.configs))
    requires forall ip, p :: ip in nodes && p in enabled ==> (ip, p) in accepts
    requires hostsEnabled ==> forall ip :: ip in nodes ==> ip in acceptsTable
    ensures
      var (r, saved) := RunOutcome(f, nodes, enabled, hostsEnabled, macs, now, accepts, acceptsTable);
      && r.configs.Keys == f.configs.Keys
      && (forall p, ip, ip' :: p in enabled && FoundEverywhere(nodes, f.configs, p) && ip in nodes && ip' in nodes ==>
           GetPath(r.configs[ip], p) == GetPath(r.configs[ip'], p))
      && (hostsEnabled && saved ==> forall ip, ip' :: ip in nodes && ip' in nodes ==> HostsOf(r.configs[ip]) == HostsOf(r.configs[ip']))
      && (forall q, ip :: ip in f.configs && ApartFrom(q, enabled) && (hostsEnabled ==> Apart(HOSTS_PATH, q)) ==>
           GetPath(r.configs[ip], q) == GetPath(f.configs[ip], q))
  {
    hide RunOutcome, HostsOf, GetPath, Apart, ApartFrom, FoundEverywhere, ListsAllMacs, NodeHosts, Selected;
    var (r, saved) := RunOutcome(f, nodes, enabled, hostsEnabled, macs, now, accepts, acceptsTable);
    OutcomeKeys(f, nodes, enabled, hostsEnabled, macs, now, accepts, acceptsTable);
    if hostsEnabled && saved {
      TablesAgree(f, nodes, enabled, macs, now, accepts, acceptsTable);
    }
    forall p, ip, ip' | p in enabled && FoundEverywhere(nodes, f.configs, p) && ip in nodes && ip' in nodes
      ensures GetPath(r.configs[ip], p) == GetPath(r.configs[ip'], p)
    {
      PathsAgree(f, nodes, enabled, hostsEnabled, macs, now, accepts, acceptsTable, p);
    }
    forall q, ip | ip in f.configs && ApartFrom(q, enabled) && (hostsEnabled ==> Apart(HOSTS_PATH, q))
      ensures GetPath(r.configs[ip], q) == GetPath(f.configs[ip], q)
    {
      RestReadsAsBefore(f, nodes, enabled, hostsEnabled, macs, now, accepts, acceptsTable, q);
    }
  }

  /** The same of the fleet as it is listed: when two entries take part and all their pushes succeed,
      those that take part agree, and a node that is in maintenance, down or not listed is left
      alone. */
  lemma FleetRunAgrees(f: Fleet, ips: seq<Ip>, maintenance: set<Ip>, up: set<Ip>, enabled: seq<Path>, hostsEnabled: bool, macs: seq<string>,
                       now: int, accepts: set<(Ip, Path)>, acceptsTable: set<Ip>, nodes: seq<Ip>)
    requires Selected(enabled) && Participants(nodes, ips, maintenance, up)
    requires exists j, k :: 0 <= j < k < |ips| && TakesPart(ips[j], maintenance, up) && TakesPart(ips[k], maintenance, up)
    requires Covers(nodes, f.configs) && ListsAllMacs(macs, nodes, NodeHosts(nodes, f.configs))
    requires forall ip, p :: ip in ips && TakesPart(ip, maintenance, up) && p in enabled ==> (ip, p) in accepts
    requires hostsEnabled ==> forall ip :: ip in ips && TakesPart(ip, maintenance, up) ==> ip in acceptsTable
    ensures
      var (r, saved) := RunOutcome(f, nodes, enabled, hostsEnabled, macs, now, accepts, acceptsTable);
      var part := set ip | ip in ips && TakesPart(ip, maintenance, up);
      && r.configs.Keys == f.configs.Keys
      && (forall p, ip, ip' :: p in enabled && (forall x :: x in part ==> GetPath(f.configs[x], p).Some?) && ip in part && ip' in part ==>
           GetPath(r.configs[ip], p) == GetPath(r.configs[ip'], p))
      && (hostsEnabled && saved ==> forall ip, ip' :: ip in part && ip' in part ==> HostsOf(r.configs[ip]) == HostsOf(r.configs[ip']))
      && (forall ip :: ip !in part ==> Bystander(f, r, ip))
  {
    hide GetPath, HostsOf, NodeHosts, ListsAllMacs, Selected, RunOutcome, Bystander, TakesPart;
    PartTaken(nodes, ips, maintenance, up);
    var part := set ip | ip in ips && TakesPart(ip, maintenance, up);
    forall ip | ip !in part ensures Bystander(f, RunOutcome(f, nodes, enabled, hostsEnabled, macs, now, accepts, acceptsTable).0, ip) {
      BystanderOfRun(f, nodes, enabled, hostsEnabled, macs, now, accepts, acceptsTable, ip);
    }
    SuccessfulRunAgrees(f, nodes, enabled, hostsEnabled, macs, now, accepts, acceptsTable);
  }

  lemma PartTaken(nodes: seq<Ip>, ips: seq<Ip>, maintenance: set<Ip>, up: set<Ip>)
    requires Participants(nodes, ips, maintenance, up)
    ensures forall ip :: ip in nodes <==> ip in ips && TakesPart(ip, maintenance, up)
    ensures (exists j, k :: 0 <= j < k < |ips| && TakesPart(ips[j], maintenance, up) && TakesPart(ips[k], maintenance, up)) ==> |nodes| >= 2
  {
    var at: seq<nat> :| Selects(at, nodes, ips, maintenance, up);
    hide *;
    PlacesMember(at, nodes, ips, maintenance, up);
    if j, k :| 0 <= j < k < |ips| && TakesPart(ips[j], maintenance, up) && TakesPart(ips[k], maintenance, up) {
      TwoPlaces(at, nodes, ips, maintenance, up, j, k);
    }
  }

  lemma PlacesMember(at: seq<nat>, nodes: seq<Ip>, ips: seq<Ip>, maintenance: set<Ip>, up: set<Ip>)
    requires Selects(at, nodes, ips, maintenance, up)
    ensures forall ip :: ip in nodes <==> ip in ips && TakesPart(ip, maintenance, up)
  {
    hide TakesPart;
    forall ip | ip in ips && TakesPart(ip, maintenance, up) ensures ip in nodes {
      var k: nat :| k < |ips| && ips[k] == ip;
      assert k in at;
    }
  }

  lemma TwoPlaces(at: seq<nat>, nodes: seq<Ip>, ips: seq<Ip>, maintenance: set<Ip>, up: set<Ip>, j: nat, k: nat)
    requires Selects(at, nodes, ips, maintenance, up)
    requires j < k < |ips| && TakesPart(ips[j], maintenance, up) && TakesPart(ips[k], maintenance, up)
    ensures |nodes| >= 2
  {
    assert j in at && k in at;
    hide TakesPart;
  }

  lemma SameHosts(a: Value, b: Value)
    requires GetPath(a, HOSTS_PATH) == GetPath(b, HOSTS_PATH)
    ensures HostsOf(a) == HostsOf(b)
  {
  }
}
