/** One replication run over the whole fleet: every enabled configuration path, then the mac-keyed
    reservations. */
module MergeRun {
  import opened Common
  import opened Ledger
  import opened Paths
  import opened Reservations

  const HOSTS_PATH: Path := ["dhcp", "hosts"]

  /** The live configuration of every node, and the saved ledger. */
  datatype Fleet = Fleet(configs: map<Ip, Value>, scalars: map<Path, Stamps<Json>>,
                         hosts: map<string, Stamps<Reservation>>)

  // --- Configuration paths ---

  predicate FoundEverywhere(nodes: seq<Ip>, configs: map<Ip, Value>, p: Path)
    requires Covers(nodes, configs)
  {
    forall ip | ip in nodes :: GetPath(configs[ip], p).Some?
  }

  /** One path across the reachable nodes, as the ledger protocol sees it. */
  function PathSite(nodes: seq<Ip>, configs: map<Ip, Value>, scalars: map<Path, Stamps<Json>>, p: Path): (s: Site<Json>)
    requires Covers(nodes, configs)
    ensures Covers(nodes, s.values)
  {
    Site(map ip | ip in nodes :: GetPath(configs[ip], p).GetOr(None), Get(scalars, p).GetOr(map[]))
  }

  function Accepting(nodes: seq<Ip>, accepts: set<(Ip, Path)>, p: Path): set<Ip>
  {
    set ip | ip in nodes && (ip, p) in accepts
  }

  /** One path of a run: values come from the configurations fetched at the start, pushes go to the
      live ones. A path missing on some node is passed over. */
  function PathStep(nodes: seq<Ip>, fetched: map<Ip, Value>, p: Path, f: Fleet, now: int, accepts: set<(Ip, Path)>): Fleet
    requires nodes != [] && Covers(nodes, fetched)
  {
    if !FoundEverywhere(nodes, fetched, p) then f
    else
      var s := PathSite(nodes, fetched, f.scalars, p);
      var acc := Accepting(nodes, accepts, p);
      var w := Pick(nodes, s, now);
      f.(configs := map ip | ip in f.configs ::
           if ip in acc && s.values[ip] != w.value then SetPath(f.configs[ip], p, w.value) else f.configs[ip],
         scalars := f.scalars[p := Round(nodes, s, now, acc).ledger])
  }

  function ScalarRun(nodes: seq<Ip>, fetched: map<Ip, Value>, paths: seq<Path>, f: Fleet, now: int,
                     accepts: set<(Ip, Path)>): Fleet
    requires nodes != [] && Covers(nodes, fetched)
  {
    if paths == [] then f
    else
      PathStep(nodes, fetched, paths[|paths| - 1],
               ScalarRun(nodes, fetched, paths[..|paths| - 1], f, now, accepts), now, accepts)
  }

  ghost predicate AllApart(paths: seq<Path>)
  {
    forall i, j :: 0 <= i < j < |paths| ==> Apart(paths[i], paths[j])
  }

  ghost predicate ApartFrom(q: Path, paths: seq<Path>)
  {
    forall p :: p in paths ==> Apart(p, q)
  }

  /** Every path apart from the enabled ones reads as before on every node, and a node outside the
      run is untouched. */
  lemma {:induction false} ScalarRunFrame(nodes: seq<Ip>, fetched: map<Ip, Value>, paths: seq<Path>, f: Fleet,
                                          now: int, accepts: set<(Ip, Path)>, q: Path)
    requires nodes != [] && Covers(nodes, fetched) && ApartFrom(q, paths)
    ensures
      var r := ScalarRun(nodes, fetched, paths, f, now, accepts);
      && r.configs.Keys == f.configs.Keys && r.hosts == f.hosts
      && Get(r.scalars, q) == Get(f.scalars, q)
      && (forall ip :: ip in f.configs ==> GetPath(r.configs[ip], q) == GetPath(f.configs[ip], q))
      && (forall ip :: ip in f.configs && ip !in nodes ==> r.configs[ip] == f.configs[ip])
  {
    if paths != [] {
      var init, last := paths[..|paths| - 1], paths[|paths| - 1];
      ScalarRunFrame(nodes, fetched, init, f, now, accepts, q);
      PathStepKeeps(nodes, fetched, ScalarRun(nodes, fetched, init, f, now, accepts), now, accepts, last, q);
    }
  }

  /** Each enabled path that all nodes have goes through exactly one round of the ledger protocol,
      and a path missing on some node is left alone. */
  lemma {:induction false} ScalarRunIsRound(nodes: seq<Ip>, paths: seq<Path>, f: Fleet, now: int,
                                            accepts: set<(Ip, Path)>, p: Path)
    requires nodes != [] && Covers(nodes, f.configs) && AllApart(paths) && p in paths
    ensures
      var r := ScalarRun(nodes, f.configs, paths, f, now, accepts);
      && Covers(nodes, r.configs)
      && PathSite(nodes, r.configs, r.scalars, p) ==
         (if FoundEverywhere(nodes, f.configs, p)
          then Round(nodes, PathSite(nodes, f.configs, f.scalars, p), now, Accepting(nodes, accepts, p))
          else PathSite(nodes, f.configs, f.scalars, p))
      && (FoundEverywhere(nodes, f.configs, p) <==> FoundEverywhere(nodes, r.configs, p))
    decreases |paths|
  {
    var init, last := paths[..|paths| - 1], paths[|paths| - 1];
    var mid := ScalarRun(nodes, f.configs, init, f, now, accepts);
    if p == last {
      forall q | q in init ensures Apart(q, p) {
        var i :| 0 <= i < |init| && init[i] == q;
        assert Apart(paths[i], paths[|paths| - 1]);
      }
      ScalarRunFrame(nodes, f.configs, init, f, now, accepts, p);
      if FoundEverywhere(nodes, f.configs, p) {
        PathStepIsRound(nodes, f, mid, now, accepts, p);
      } else {
        SameSite(nodes, f, mid, p);
      }
    } else {
      var i :| 0 <= i < |init| && init[i] == p;
      assert Apart(paths[i], paths[|paths| - 1]);
      ScalarRunIsRound(nodes, init, f, now, accepts, p);
      PathStepKeeps(nodes, f.configs, mid, now, accepts, last, p);
      SameSite(nodes, mid, PathStep(nodes, f.configs, last, mid, now, accepts), p);
    }
  }

  lemma {:induction false} SameSite(nodes: seq<Ip>, a: Fleet, b: Fleet, p: Path)
    requires Covers(nodes, a.configs) && Covers(nodes, b.configs)
    requires Get(a.scalars, p) == Get(b.scalars, p)
    requires forall ip :: ip in nodes ==> GetPath(a.configs[ip], p) == GetPath(b.configs[ip], p)
    ensures PathSite(nodes, a.configs, a.scalars, p) == PathSite(nodes, b.configs, b.scalars, p)
    ensures FoundEverywhere(nodes, a.configs, p) == FoundEverywhere(nodes, b.configs, p)
  {
    assert PathSite(nodes, a.configs, a.scalars, p).values == PathSite(nodes, b.configs, b.scalars, p).values;
  }

  /** One step at path p, on live configurations that still read at p as they were fetched. */
  lemma {:induction false} PathStepIsRound(nodes: seq<Ip>, f: Fleet, mid: Fleet, now: int, accepts: set<(Ip, Path)>, p: Path)
    requires nodes != [] && Covers(nodes, f.configs) && Covers(nodes, mid.configs)
    requires Get(mid.scalars, p) == Get(f.scalars, p)
    requires forall ip :: ip in nodes ==> GetPath(mid.configs[ip], p) == GetPath(f.configs[ip], p)
    requires FoundEverywhere(nodes, f.configs, p)
    ensures
      var r := PathStep(nodes, f.configs, p, mid, now, accepts);
      && Covers(nodes, r.configs) && FoundEverywhere(nodes, r.configs, p)
      && PathSite(nodes, r.configs, r.scalars, p)
         == Round(nodes, PathSite(nodes, f.configs, f.scalars, p), now, Accepting(nodes, accepts, p))
  {
    var r := PathStep(nodes, f.configs, p, mid, now, accepts);
    var s := PathSite(nodes, f.configs, f.scalars, p);
    assert PathSite(nodes, f.configs, mid.scalars, p) == s;
    var acc := Accepting(nodes, accepts, p);
    var w := Pick(nodes, s, now);
    var t := Round(nodes, s, now, acc);
    forall ip | ip in nodes ensures GetPath(r.configs[ip], p) == Some(t.values[ip]) {
      if ip in acc && s.values[ip] != w.value {
        GetSet(mid.configs[ip], p, w.value);
      }
    }
    assert PathSite(nodes, r.configs, r.scalars, p).values == t.values;
  }

  lemma {:induction false} PathStepKeeps(nodes: seq<Ip>, fetched: map<Ip, Value>, f: Fleet, now: int, accepts: set<(Ip, Path)>, last: Path, p: Path)
    requires nodes != [] && Covers(nodes, fetched) && Apart(last, p)
    ensures
      var r := PathStep(nodes, fetched, last, f, now, accepts);
      && r.configs.Keys == f.configs.Keys && r.hosts == f.hosts
      && Get(r.scalars, p) == Get(f.scalars, p)
      && forall ip :: ip in f.configs ==> GetPath(r.configs[ip], p) == GetPath(f.configs[ip], p)
  {
    assert p != last;
    forall v: Value, x: Value ensures GetPath(SetPath(v, last, x), p) == GetPath(v, p) {
      GetSetApart(v, last, p, x);
    }
  }

  /** After a run whose pushes all succeed, all nodes hold the same value at every enabled path that
      all of them have, and it is a value one of them held before. */
  lemma {:induction false} AllAcceptedAgree(nodes: seq<Ip>, paths: seq<Path>, f: Fleet, now: int, accepts: set<(Ip, Path)>, p: Path)
    requires nodes != [] && Covers(nodes, f.configs) && AllApart(paths) && p in paths
    requires FoundEverywhere(nodes, f.configs, p)
    requires forall ip, q :: ip in nodes && q in paths ==> (ip, q) in accepts
    ensures
      var r := ScalarRun(nodes, f.configs, paths, f, now, accepts);
      && Covers(nodes, r.configs)
      && exists src :: src in nodes
           && forall ip :: ip in nodes ==> GetPath(r.configs[ip], p) == GetPath(f.configs[src], p)
  {
    ScalarRunIsRound(nodes, paths, f, now, accepts, p);
    var r := ScalarRun(nodes, f.configs, paths, f, now, accepts);
    var s := PathSite(nodes, f.configs, f.scalars, p);
    var seen := Observe(nodes, s.values, s.ledger, now);
    var src := nodes[Leader(nodes, seen, |nodes|)];
    assert seen[src].value == s.values[src];
    forall ip | ip in nodes ensures GetPath(r.configs[ip], p) == GetPath(f.configs[src], p) {
      assert PathSite(nodes, r.configs, r.scalars, p).values[ip] == s.values[src];
    }
  }

  // --- Reservations ---

  /** The `dhcp.hosts` lines of a configuration; none where the path is missing. */
  function HostLines(config: Value): seq<string>
  {
    match GetPath(config, HOSTS_PATH)
    case Some(Some(Lines(lines))) => lines
    case _ => []
  }

  function HostsOf(config: Value): (t: Table)
    ensures forall mac :: mac in t ==> WellFormed(mac, t[mac])
  {
    ParseHosts(HostLines(config))
  }

  /** `all_macs`, in whatever order the set is walked. */
  ghost predicate ListsAllMacs(macs: seq<string>, nodes: seq<Ip>, tables: map<Ip, Table>)
    requires Covers(nodes, tables)
  {
    && Distinct(macs)
    && (forall mac :: mac in macs ==> exists ip :: ip in nodes && mac in tables[ip])
    && (forall ip, mac :: ip in nodes && mac in tables[ip] ==> mac in macs)
  }

  function MacSite(nodes: seq<Ip>, tables: map<Ip, Table>, hosts: map<string, Stamps<Reservation>>, mac: string): (s: Site<Reservation>)
    requires Covers(nodes, tables)
    ensures Covers(nodes, s.values)
  {
    Site(map ip | ip in nodes :: Get(tables[ip], mac), Get(hosts, mac).GetOr(map[]))
  }

  /** `mac_meta`: the winner for every mac. */
  function MacWinners(nodes: seq<Ip>, tables: map<Ip, Table>, hosts: map<string, Stamps<Reservation>>,
                      macs: seq<string>, now: int): map<string, Entry<Reservation>>
    requires nodes != [] && Covers(nodes, tables)
  {
    map mac | mac in macs :: Pick(nodes, MacSite(nodes, tables, hosts, mac), now)
  }

  /** `merged`: the items of every mac whose winner is present, in the order of the walk. */
  function PresentItems(macs: seq<string>, winners: map<string, Entry<Reservation>>): (items: seq<(string, Reservation)>)
    requires forall mac :: mac in macs ==> mac in winners
    ensures forall e :: e in items ==> e.0 in macs && winners[e.0].value == Some(e.1)
    ensures forall mac :: mac in macs && winners[mac].value.Some? ==> (mac, winners[mac].value.value) in items
    ensures Distinct(macs) ==> DistinctKeys(items)
  {
    if macs == [] then []
    else
      var mac := macs[|macs| - 1];
      var init := PresentItems(macs[..|macs| - 1], winners);
      match winners[mac].value
      case Some(r) => init + [(mac, r)]
      case None => init
  }

  function MergedItems(nodes: seq<Ip>, tables: map<Ip, Table>, hosts: map<string, Stamps<Reservation>>,
                       macs: seq<string>, now: int): seq<(string, Reservation)>
    requires nodes != [] && Covers(nodes, tables)
  {
    PresentItems(macs, MacWinners(nodes, tables, hosts, macs, now))
  }

  function MacUpdates(nodes: seq<Ip>, tables: map<Ip, Table>, hosts: map<string, Stamps<Reservation>>,
                      macs: seq<string>, now: int, accepts: set<Ip>): map<string, Stamps<Reservation>>
    requires nodes != [] && Covers(nodes, tables)
  {
    map mac | mac in macs :: Round(nodes, MacSite(nodes, tables, hosts, mac), now, accepts).ledger
  }

  function MacLedgers(nodes: seq<Ip>, tables: map<Ip, Table>, hosts: map<string, Stamps<Reservation>>,
                      macs: seq<string>, now: int, accepts: set<Ip>): map<string, Stamps<Reservation>>
    requires nodes != [] && Covers(nodes, tables)
  {
    hosts + MacUpdates(nodes, tables, hosts, macs, now, accepts)
  }

  /** `node_hosts`: the parsed reservations of every node. */
  function NodeHosts(nodes: seq<Ip>, configs: map<Ip, Value>): (tables: map<Ip, Table>)
    requires Covers(nodes, configs)
    ensures Covers(nodes, tables)
  {
    map ip | ip in nodes :: HostsOf(configs[ip])
  }

  /** Push the table to every node whose own differs and who accepts. */
  function PushTable(nodes: seq<Ip>, tables: map<Ip, Table>, configs: map<Ip, Value>, merged: Table,
                     lines: seq<string>, accepts: set<Ip>): (r: map<Ip, Value>)
    requires Covers(nodes, tables)
    ensures r.Keys == configs.Keys
  {
    map ip | ip in configs ::
      if ip in nodes && ip in accepts && tables[ip] != merged
      then SetPath(configs[ip], HOSTS_PATH, Some(Lines(lines))) else configs[ip]
  }

  /** Write the merged table where it is needed; None where it cannot be rendered and a node needs
      it: rendering raises before anything is pushed. */
  function WriteTable(nodes: seq<Ip>, tables: map<Ip, Table>, f: Fleet, merged: Table, rendered: Option<seq<string>>,
                      ledgers: map<string, Stamps<Reservation>>, accepts: set<Ip>): (r: Option<Fleet>)
    requires Covers(nodes, tables)
    ensures r.Some? ==> r.value.hosts == ledgers && r.value.scalars == f.scalars && r.value.configs.Keys == f.configs.Keys
    ensures r.None? ==> rendered.None? && exists ip :: ip in nodes && tables[ip] != merged
  {
    match rendered
    case Some(lines) => Some(Fleet(PushTable(nodes, tables, f.configs, merged, lines, accepts), f.scalars, ledgers))
    case None => if forall ip | ip in nodes :: tables[ip] == merged then Some(f.(hosts := ledgers)) else None
  }

  /** The hosts part of a run, from the tables as fetched. */
  function HostRun(nodes: seq<Ip>, tables: map<Ip, Table>, macs: seq<string>, f: Fleet, now: int, accepts: set<Ip>): (r: Option<Fleet>)
    requires nodes != [] && Covers(nodes, tables)
    ensures r.Some? ==> r.value.hosts == MacLedgers(nodes, tables, f.hosts, macs, now, accepts)
    ensures r.Some? ==> r.value.scalars == f.scalars && r.value.configs.Keys == f.configs.Keys
  {
    var items := MergedItems(nodes, tables, f.hosts, macs, now);
    WriteTable(nodes, tables, f, Dict(items), RenderHosts(items),
               MacLedgers(nodes, tables, f.hosts, macs, now, accepts), accepts)
  }

  lemma {:induction false} PresentItemsDict(macs: seq<string>, winners: map<string, Entry<Reservation>>)
    requires Distinct(macs) && forall mac :: mac in macs ==> mac in winners
    ensures
      var merged := Dict(PresentItems(macs, winners));
      && (forall mac :: mac in macs ==> Get(merged, mac) == winners[mac].value)
      && (forall mac :: mac in merged ==> mac in macs)
  {
    var items := PresentItems(macs, winners);
    DictOfDistinct(items);
    forall mac | mac in macs ensures Get(Dict(items), mac) == winners[mac].value {
      if winners[mac].value.Some? {
        var i :| 0 <= i < |items| && items[i] == (mac, winners[mac].value.value);
        assert Dict(items)[items[i].0] == items[i].1;
      } else if mac in Dict(items) {
        DictItem(items, mac);
      }
    }
    forall mac | mac in Dict(items) ensures mac in macs {
      DictItem(items, mac);
    }
  }

  /** The merged table has exactly the macs whose winner is present, with the winner's value. */
  lemma {:induction false} MergedIsWinners(nodes: seq<Ip>, tables: map<Ip, Table>, hosts: map<string, Stamps<Reservation>>,
                        macs: seq<string>, now: int)
    requires nodes != [] && Covers(nodes, tables) && Distinct(macs)
    ensures
      var items := MergedItems(nodes, tables, hosts, macs, now);
      && DistinctKeys(items)
      && (forall mac :: mac in macs ==> Get(Dict(items), mac) == Pick(nodes, MacSite(nodes, tables, hosts, mac), now).value)
      && (forall mac :: mac in Dict(items) ==> mac in macs)
  {
    PresentItemsDict(macs, MacWinners(nodes, tables, hosts, macs, now));
  }

  /** Every merged reservation was some node's own, so it is well formed. */
  lemma {:induction false} MergedIsWellFormed(nodes: seq<Ip>, tables: map<Ip, Table>, hosts: map<string, Stamps<Reservation>>,
                           macs: seq<string>, now: int, e: (string, Reservation))
    requires nodes != [] && Covers(nodes, tables) && e in MergedItems(nodes, tables, hosts, macs, now)
    requires forall ip, mac :: ip in nodes && mac in tables[ip] ==> WellFormed(mac, tables[ip][mac])
    ensures WellFormed(e.0, e.1)
  {
    var ip := WinnerIsHeld(nodes, MacSite(nodes, tables, hosts, e.0), now);
    assert Get(tables[ip], e.0) == Some(e.1);
  }

  lemma {:induction false} WinnerIsHeld<V>(nodes: seq<Ip>, s: Site<V>, now: int) returns (ip: Ip)
    requires nodes != [] && Covers(nodes, s.values)
    ensures ip in nodes && s.values[ip] == Pick(nodes, s, now).value
  {
    var seen := Observe(nodes, s.values, s.ledger, now);
    ip := nodes[Leader(nodes, seen, |nodes|)];
    assert seen[ip].value == s.values[ip];
  }

  /** A node's table differs from the merged one exactly when the node is stale for some mac. */
  lemma {:induction false} BehindIffStale(nodes: seq<Ip>, tables: map<Ip, Table>, hosts: map<string, Stamps<Reservation>>,
                       macs: seq<string>, now: int, ip: Ip)
    requires nodes != [] && Covers(nodes, tables) && ListsAllMacs(macs, nodes, tables) && ip in nodes
    ensures tables[ip] != Dict(MergedItems(nodes, tables, hosts, macs, now))
       <==> exists mac :: mac in macs
              && ip in Stale(nodes, MacSite(nodes, tables, hosts, mac).values, Pick(nodes, MacSite(nodes, tables, hosts, mac), now))
  {
    MergedIsWinners(nodes, tables, hosts, macs, now);
    var mine, merged := tables[ip], Dict(MergedItems(nodes, tables, hosts, macs, now));
    forall mac | mac in macs
      ensures ip in Stale(nodes, MacSite(nodes, tables, hosts, mac).values, Pick(nodes, MacSite(nodes, tables, hosts, mac), now))
         <==> Get(mine, mac) != Get(merged, mac)
    {
    }
    if forall mac :: mac in macs ==> Get(mine, mac) == Get(merged, mac) {
      SameTable(mine, merged, macs);
    }
  }

  lemma {:induction false} SameTable(a: Table, b: Table, macs: seq<string>)
    requires forall mac :: mac in macs ==> Get(a, mac) == Get(b, mac)
    requires forall mac :: mac in a || mac in b ==> mac in macs
    ensures a == b
  {
    forall mac ensures mac in a <==> mac in b {
      assert mac in macs ==> Get(a, mac) == Get(b, mac);
    }
    forall mac | mac in a ensures a[mac] == b[mac] {
      assert Get(a, mac) == Get(b, mac);
    }
  }

  lemma {:induction false} WriteTableAt(nodes: seq<Ip>, tables: map<Ip, Table>, f: Fleet, merged: Table, rendered: Option<seq<string>>,
                     ledgers: map<string, Stamps<Reservation>>, accepts: set<Ip>, ip: Ip)
    requires Covers(nodes, tables) && ip in nodes && ip in f.configs && HostsOf(f.configs[ip]) == tables[ip]
    requires rendered.Some? ==> ParseHosts(rendered.value) == merged
    requires WriteTable(nodes, tables, f, merged, rendered, ledgers, accepts).Some?
    ensures HostsOf(WriteTable(nodes, tables, f, merged, rendered, ledgers, accepts).value.configs[ip])
         == if ip in accepts then merged else tables[ip]
  {
    if rendered.Some? {
      GetSet(f.configs[ip], HOSTS_PATH, Some(Lines(rendered.value)));
    }
  }

  lemma {:induction false} WriteTableFrame(nodes: seq<Ip>, tables: map<Ip, Table>, f: Fleet, merged: Table, rendered: Option<seq<string>>,
                        ledgers: map<string, Stamps<Reservation>>, accepts: set<Ip>, q: Path, ip: Ip)
    requires Covers(nodes, tables) && ip in f.configs && Apart(HOSTS_PATH, q)
    requires WriteTable(nodes, tables, f, merged, rendered, ledgers, accepts).Some?
    ensures GetPath(WriteTable(nodes, tables, f, merged, rendered, ledgers, accepts).value.configs[ip], q)
         == GetPath(f.configs[ip], q)
  {
    if rendered.Some? {
      GetSetApart(f.configs[ip], HOSTS_PATH, q, Some(Lines(rendered.value)));
    }
  }

  /** The reservations of the live configurations are still those that were fetched. */
  ghost predicate TablesAsFetched(nodes: seq<Ip>, tables: map<Ip, Table>, configs: map<Ip, Value>)
  {
    && Covers(nodes, tables) && Covers(nodes, configs)
    && forall ip :: ip in nodes ==> HostsOf(configs[ip]) == tables[ip]
  }

  /** After the run a node that accepts, or needs no push, parses back to the merged table, and a
      node that refuses keeps its own. */
  lemma {:induction false} HostRunTables(nodes: seq<Ip>, tables: map<Ip, Table>, macs: seq<string>, f: Fleet, now: int, accepts: set<Ip>, ip: Ip)
    requires nodes != [] && TablesAsFetched(nodes, tables, f.configs) && ListsAllMacs(macs, nodes, tables)
    requires ip in nodes && HostRun(nodes, tables, macs, f, now, accepts).Some?
    ensures
      var r := HostRun(nodes, tables, macs, f, now, accepts).value;
      && r.configs.Keys == f.configs.Keys
      && HostsOf(r.configs[ip]) ==
         if ip in accepts then Dict(MergedItems(nodes, tables, f.hosts, macs, now)) else tables[ip]
  {
    var items := MergedItems(nodes, tables, f.hosts, macs, now);
    MergedIsWinners(nodes, tables, f.hosts, macs, now);
    if AllAddressed(items) {
      forall i | 0 <= i < |items| ensures WellFormed(items[i].0, items[i].1) {
        MergedIsWellFormed(nodes, tables, f.hosts, macs, now, items[i]);
      }
      ParseUndoesRender(items);
    }
    WriteTableAt(nodes, tables, f, Dict(items), RenderHosts(items),
                 MacLedgers(nodes, tables, f.hosts, macs, now, accepts), accepts, ip);
  }

  /** Every mac goes through exactly one round of the ledger protocol, with the nodes that accept
      the table as the nodes that accept its winner. */
  lemma {:induction false} HostRunIsRound(nodes: seq<Ip>, tables: map<Ip, Table>, macs: seq<string>, f: Fleet, now: int, accepts: set<Ip>, mac: string)
    requires nodes != [] && TablesAsFetched(nodes, tables, f.configs) && ListsAllMacs(macs, nodes, tables)
    requires mac in macs && HostRun(nodes, tables, macs, f, now, accepts).Some?
    ensures
      var r := HostRun(nodes, tables, macs, f, now, accepts).value;
      && Covers(nodes, r.configs)
      && MacSite(nodes, NodeHosts(nodes, r.configs), r.hosts, mac) == Round(nodes, MacSite(nodes, tables, f.hosts, mac), now, accepts)
  {
    var r := HostRun(nodes, tables, macs, f, now, accepts).value;
    var merged := Dict(MergedItems(nodes, tables, f.hosts, macs, now));
    HostRunTables(nodes, tables, macs, f, now, accepts, nodes[0]);
    var tables' := NodeHosts(nodes, r.configs);
    forall ip | ip in nodes ensures tables'[ip] == if ip in accepts then merged else tables[ip] {
      HostRunTables(nodes, tables, macs, f, now, accepts, ip);
    }
    MergedIsWinners(nodes, tables, f.hosts, macs, now);
    MacLedgerAt(nodes, tables, macs, f.hosts, now, accepts, mac);
    MacAfterPush(nodes, tables, tables', f.hosts, r.hosts, merged, now, accepts, mac);
  }

  lemma {:induction false} MacLedgerAt(nodes: seq<Ip>, tables: map<Ip, Table>, macs: seq<string>, hosts: map<string, Stamps<Reservation>>,
                    now: int, accepts: set<Ip>, mac: string)
    requires nodes != [] && Covers(nodes, tables) && mac in macs
    ensures Get(MacLedgers(nodes, tables, hosts, macs, now, accepts), mac)
         == Some(Round(nodes, MacSite(nodes, tables, hosts, mac), now, accepts).ledger)
  {
  }

  lemma {:induction false} MacAfterPush(nodes: seq<Ip>, tables: map<Ip, Table>, tables': map<Ip, Table>, hosts: map<string, Stamps<Reservation>>,
                     hosts': map<string, Stamps<Reservation>>, merged: Table, now: int, accepts: set<Ip>, mac: string)
    requires nodes != [] && Covers(nodes, tables) && Covers(nodes, tables')
    requires Get(merged, mac) == Pick(nodes, MacSite(nodes, tables, hosts, mac), now).value
    requires Get(hosts', mac) == Some(Round(nodes, MacSite(nodes, tables, hosts, mac), now, accepts).ledger)
    requires forall ip :: ip in nodes ==> tables'[ip] == if ip in accepts then merged else tables[ip]
    ensures MacSite(nodes, tables', hosts', mac) == Round(nodes, MacSite(nodes, tables, hosts, mac), now, accepts)
  {
    var t := Round(nodes, MacSite(nodes, tables, hosts, mac), now, accepts);
    assert MacSite(nodes, tables', hosts', mac).values == t.values;
  }

  /** A reservation run touches no other path. */
  lemma {:induction false} HostRunFrame(nodes: seq<Ip>, tables: map<Ip, Table>, macs: seq<string>, f: Fleet, now: int, accepts: set<Ip>, q: Path)
    requires nodes != [] && Covers(nodes, tables) && Apart(HOSTS_PATH, q)
    requires HostRun(nodes, tables, macs, f, now, accepts).Some?
    ensures
      var r := HostRun(nodes, tables, macs, f, now, accepts).value;
      && r.configs.Keys == f.configs.Keys && r.scalars == f.scalars
      && forall ip :: ip in f.configs ==> GetPath(r.configs[ip], q) == GetPath(f.configs[ip], q)
  {
    var items := MergedItems(nodes, tables, f.hosts, macs, now);
    forall ip | ip in f.configs
      ensures GetPath(HostRun(nodes, tables, macs, f, now, accepts).value.configs[ip], q) == GetPath(f.configs[ip], q)
    {
      WriteTableFrame(nodes, tables, f, Dict(items), RenderHosts(items),
                      MacLedgers(nodes, tables, f.hosts, macs, now, accepts), accepts, q, ip);
    }
  }

  /** A reservation the ledger has never seen is not wiped, even when one node alone has it. */
  lemma {:induction false} NewMacSurvives(nodes: seq<Ip>, tables: map<Ip, Table>, hosts: map<string, Stamps<Reservation>>,
                       macs: seq<string>, now: int, mac: string)
    requires nodes != [] && Covers(nodes, tables) && ListsAllMacs(macs, nodes, tables)
    requires mac in macs && mac !in hosts
    ensures mac in Dict(MergedItems(nodes, tables, hosts, macs, now))
  {
    MergedIsWinners(nodes, tables, hosts, macs, now);
    var s := MacSite(nodes, tables, hosts, mac);
    var ip :| ip in nodes && mac in tables[ip];
    WinnerTops(nodes, Observe(nodes, s.values, s.ledger, now), ip);
  }

  /** The same of the lines a node holds, however they are written: a mac that the ledger has never seen
      is in the merged table, and every node that accepts it reads it back. */
  lemma NewLineSurvives(nodes: seq<Ip>, f: Fleet, macs: seq<string>, now: int, accepts: set<Ip>, ip: Ip, mac: string, r: Reservation)
    requires nodes != [] && Covers(nodes, f.configs) && ListsAllMacs(macs, nodes, NodeHosts(nodes, f.configs))
    requires ip in nodes && LastGiven(HostLines(f.configs[ip]), mac, r) && mac !in f.hosts
    ensures mac in Dict(MergedItems(nodes, NodeHosts(nodes, f.configs), f.hosts, macs, now))
    ensures
      var run := HostRun(nodes, NodeHosts(nodes, f.configs), macs, f, now, accepts);
      run.Some? ==> Covers(nodes, run.value.configs) && forall x :: x in nodes && x in accepts ==> mac in HostsOf(run.value.configs[x])
  {
    hide LastGiven, HostLines, ParseHosts, HostRun, MergedItems, ListsAllMacs, HostsOf;
    var tables := NodeHosts(nodes, f.configs);
    TableIff(HostLines(f.configs[ip]), mac, r);
    HostsAreParsed(f.configs[ip]);
    assert mac in tables[ip];
    AllListed(macs, nodes, tables, mac, ip);
    NewMacSurvives(nodes, tables, f.hosts, macs, now, mac);
    hide NodeHosts;
    if HostRun(nodes, tables, macs, f, now, accepts).Some? {
      NodesRead(nodes, f);
      forall x | x in nodes
        ensures
          var run := HostRun(nodes, tables, macs, f, now, accepts).value;
          x in run.configs && (x in accepts ==> mac in HostsOf(run.configs[x]))
      {
        HostRunTables(nodes, tables, macs, f, now, accepts, x);
      }
    }
  }

  lemma HostsAreParsed(config: Value)
    ensures HostsOf(config) == ParseHosts(HostLines(config))
  {
    hide HostLines, ParseHosts;
  }

  lemma NodesRead(nodes: seq<Ip>, f: Fleet)
    requires Covers(nodes, f.configs)
    ensures TablesAsFetched(nodes, NodeHosts(nodes, f.configs), f.configs)
  {
    hide HostsOf;
  }

  lemma AllListed(macs: seq<string>, nodes: seq<Ip>, tables: map<Ip, Table>, mac: string, ip: Ip)
    requires Covers(nodes, tables) && ListsAllMacs(macs, nodes, tables) && ip in nodes && mac in tables[ip]
    ensures mac in macs
  {
  }

  /** A reservation absent on one node, where the ledger does not already record an absence, and on the
      others as the ledger recorded it, is removed everywhere: every node that accepts the table is
      rid of it. The ledger may be older than the last run: see the histories in RunLapses. */
  lemma {:induction false} RemovalReplicates(nodes: seq<Ip>, tables: map<Ip, Table>, hosts: map<string, Stamps<Reservation>>,
                          macs: seq<string>, now: int, mac: string, gone: Ip)
    requires nodes != [] && Covers(nodes, tables) && ListsAllMacs(macs, nodes, tables)
    requires gone in nodes && mac in hosts && mac !in tables[gone]
    requires gone in hosts[mac] ==> hosts[mac][gone].value.Some?
    requires forall ip :: ip in nodes && ip != gone ==>
      ip in hosts[mac] && hosts[mac][ip].value == Get(tables[ip], mac) && hosts[mac][ip].changedAt < now
    ensures mac !in Dict(MergedItems(nodes, tables, hosts, macs, now))
  {
    MergedIsWinners(nodes, tables, hosts, macs, now);
    LoneChangeWins(nodes, MacSite(nodes, tables, hosts, mac), now, gone);
  }
}
