/** When a run of the whole fleet changes nothing, and that one run is enough to get there. */
module RunIdle {
  import opened Common
  import opened Ledger
  import opened Paths
  import opened Reservations
  import opened MergeRun
  import opened Recency
  import opened Replicator
  import opened RunHistory

  /** The ledger has exactly these nodes, with the values they hold, and all hold the same. */
  ghost predicate Settled<V>(nodes: seq<Ip>, s: Site<V>)
  {
    Recorded(nodes, s) && forall ip, ip' :: ip in nodes && ip' in nodes ==> s.values[ip] == s.values[ip']
  }

  ghost predicate PathSettled(nodes: seq<Ip>, f: Fleet, w: Run, p: Path)
    requires Covers(nodes, w.found)
  {
    FoundEverywhere(nodes, w.found, p) ==> p in f.scalars && Settled(nodes, PathSite(nodes, w.found, f.scalars, p))
  }

  ghost predicate MacSettled(nodes: seq<Ip>, f: Fleet, w: Run, mac: string)
    requires Covers(nodes, w.found)
  {
    mac in f.hosts && Settled(nodes, MacSite(nodes, NodeHosts(nodes, w.found), f.hosts, mac))
  }

  /** Every enabled path that all nodes have, and every reservation if those are enabled. */
  ghost predicate AllSettled(nodes: seq<Ip>, f: Fleet, w: Run)
    requires Covers(nodes, w.found)
  {
    && (forall p :: p in w.enabled ==> PathSettled(nodes, f, w, p))
    && (w.hostsEnabled ==> forall mac :: mac in w.macs ==> MacSettled(nodes, f, w, mac))
  }

  // --- One setting ---

  lemma SettledPick<V>(nodes: seq<Ip>, s: Site<V>, now: int)
    requires nodes != [] && Settled(nodes, s)
    ensures forall ip :: ip in nodes ==> s.values[ip] == Pick(nodes, s, now).value
  {
    var seen := Observe(nodes, s.values, s.ledger, now);
    assert Winner(nodes, seen) == seen[nodes[Leader(nodes, seen, |nodes|)]];
  }

  lemma SettledIsIdle<V>(nodes: seq<Ip>, s: Site<V>, now: int, accepts: set<Ip>)
    requires nodes != [] && Settled(nodes, s)
    ensures Round(nodes, s, now, accepts) == s && Stale(nodes, s.values, Pick(nodes, s, now)) == []
  {
    SettledPick(nodes, s, now);
    AgreedRoundIsIdle(nodes, s, now, accepts);
  }

  /** A round that every node accepts settles the setting. */
  lemma AcceptedRoundSettles<V>(nodes: seq<Ip>, s: Site<V>, now: int, accepts: set<Ip>)
    requires nodes != [] && Covers(nodes, s.values) && forall ip :: ip in nodes ==> ip in accepts
    ensures Settled(nodes, Round(nodes, s, now, accepts))
  {
    RoundRecords(nodes, s, now, accepts);
  }

  // --- A settled fleet ---

  lemma {:induction false} SettledScalarRun(nodes: seq<Ip>, f: Fleet, w: Run, paths: seq<Path>)
    requires nodes != [] && Covers(nodes, w.found) && forall p :: p in paths ==> PathSettled(nodes, f, w, p)
    ensures ScalarRun(nodes, w.found, paths, f, w.now, w.accepts) == f
  {
    if paths != [] {
      var p := paths[|paths| - 1];
      assert PathSettled(nodes, f, w, p);
      hide PathSettled;
      SettledScalarRun(nodes, f, w, paths[..|paths| - 1]);
      SettledStep(nodes, f, w, p);
      hide PathStep;
    }
  }

  lemma SettledStep(nodes: seq<Ip>, f: Fleet, w: Run, p: Path)
    requires nodes != [] && Covers(nodes, w.found) && PathSettled(nodes, f, w, p)
    ensures PathStep(nodes, w.found, p, f, w.now, w.accepts) == f
  {
    if FoundEverywhere(nodes, w.found, p) {
      var s, acc := PathSite(nodes, w.found, f.scalars, p), Accepting(nodes, w.accepts, p);
      SettledIsIdle(nodes, s, w.now, acc);
      SettledPick(nodes, s, w.now);
      hide Pick, Round, Settled, PathSite, SetPath, FoundEverywhere, Stale;
      assert Get(f.scalars, p).GetOr(map[]) == s.ledger by { LedgerOf(nodes, w.found, f.scalars, p); }
    }
  }

  lemma LedgerOf(nodes: seq<Ip>, configs: map<Ip, Value>, scalars: map<Path, Stamps<Json>>, p: Path)
    requires Covers(nodes, configs)
    ensures PathSite(nodes, configs, scalars, p).ledger == Get(scalars, p).GetOr(map[])
  {
    hide GetPath;
  }

  lemma SettledMac(nodes: seq<Ip>, f: Fleet, w: Run, mac: string)
    requires nodes != [] && Covers(nodes, w.found) && MacSettled(nodes, f, w, mac)
    ensures
      var s := MacSite(nodes, NodeHosts(nodes, w.found), f.hosts, mac);
      && mac in f.hosts && Round(nodes, s, w.now, w.acceptsTable).ledger == f.hosts[mac]
      && Stale(nodes, s.values, Pick(nodes, s, w.now)) == []
  {
    hide NodeHosts, Settled, Round, Stale, Pick;
    SettledIsIdle(nodes, MacSite(nodes, NodeHosts(nodes, w.found), f.hosts, mac), w.now, w.acceptsTable);
  }

  lemma SettledLedgers(nodes: seq<Ip>, f: Fleet, w: Run)
    requires nodes != [] && Covers(nodes, w.found) && forall mac :: mac in w.macs ==> MacSettled(nodes, f, w, mac)
    ensures MacLedgers(nodes, NodeHosts(nodes, w.found), f.hosts, w.macs, w.now, w.acceptsTable) == f.hosts
  {
    hide NodeHosts, MacSettled, Round, Stale, Pick, MacSite;
    forall mac | mac in w.macs
      ensures mac in f.hosts && Round(nodes, MacSite(nodes, NodeHosts(nodes, w.found), f.hosts, mac), w.now, w.acceptsTable).ledger == f.hosts[mac]
    {
      SettledMac(nodes, f, w, mac);
    }
  }

  lemma SettledTable(nodes: seq<Ip>, f: Fleet, w: Run, ip: Ip)
    requires Proper(nodes, w) && ip in nodes && forall mac :: mac in w.macs ==> MacSettled(nodes, f, w, mac)
    ensures NodeHosts(nodes, w.found)[ip] == Dict(MergedItems(nodes, NodeHosts(nodes, w.found), f.hosts, w.macs, w.now))
  {
    hide NodeHosts, MacSettled, Stale, Pick, MacSite, MergedItems, ListsAllMacs, Selected;
    var tables := NodeHosts(nodes, w.found);
    forall mac | mac in w.macs
      ensures Stale(nodes, MacSite(nodes, tables, f.hosts, mac).values, Pick(nodes, MacSite(nodes, tables, f.hosts, mac), w.now)) == []
    {
      SettledMac(nodes, f, w, mac);
    }
    BehindIffStale(nodes, tables, f.hosts, w.macs, w.now, ip);
  }

  lemma SettledHostRun(nodes: seq<Ip>, f: Fleet, w: Run)
    requires Proper(nodes, w) && forall mac :: mac in w.macs ==> MacSettled(nodes, f, w, mac)
    ensures HostRun(nodes, NodeHosts(nodes, w.found), w.macs, f, w.now, w.acceptsTable) == Some(f)
  {
    SettledLedgers(nodes, f, w);
    hide NodeHosts, MacSettled, MergedItems, MacLedgers, ListsAllMacs, Selected, WriteTable;
    var tables := NodeHosts(nodes, w.found);
    var items := MergedItems(nodes, tables, f.hosts, w.macs, w.now);
    forall ip | ip in nodes ensures tables[ip] == Dict(items) {
      SettledTable(nodes, f, w, ip);
    }
    NothingWritten(nodes, tables, f, Dict(items), RenderHosts(items), w.acceptsTable);
  }

  lemma NothingWritten(nodes: seq<Ip>, tables: map<Ip, Table>, f: Fleet, merged: Table, rendered: Option<seq<string>>, accepts: set<Ip>)
    requires Covers(nodes, tables) && forall ip :: ip in nodes ==> tables[ip] == merged
    ensures WriteTable(nodes, tables, f, merged, rendered, f.hosts, accepts) == Some(f)
  {
    if rendered.Some? {
      assert PushTable(nodes, tables, f.configs, merged, rendered.value, accepts) == f.configs;
    }
  }

  /** A run over a settled fleet pushes nothing, saves, and changes neither a node nor a ledger. */
  lemma SettledRunIsIdle(nodes: seq<Ip>, f: Fleet, w: Run)
    requires Proper(nodes, w) && |nodes| >= 2 && (w.enabled != [] || w.hostsEnabled) && AllSettled(nodes, f.(configs := w.found), w)
    ensures Outcome(nodes, f, w) == (f.(configs := w.found), true)
  {
    var g := f.(configs := w.found);
    SettledScalarRun(nodes, g, w, w.enabled);
    if w.hostsEnabled {
      SettledHostRun(nodes, g, w);
    }
    hide ScalarRun, HostRun, NodeHosts;
  }

  /** Every push of the run is accepted. */
  ghost predicate AllAccept(nodes: seq<Ip>, w: Run)
  {
    && (forall ip, p :: ip in nodes && p in w.enabled ==> (ip, p) in w.accepts)
    && forall ip :: ip in nodes ==> ip in w.acceptsTable
  }

  lemma AllAccepting(nodes: seq<Ip>, w: Run, p: Path)
    requires AllAccept(nodes, w) && p in w.enabled
    ensures forall ip :: ip in nodes ==> ip in Accepting(nodes, w.accepts, p)
  {
  }

  /** A run that saves and whose pushes all succeed leaves every path it went over settled. */
  lemma PathSettles(nodes: seq<Ip>, f: Fleet, w: Run, p: Path)
    requires Proper(nodes, w) && Outcome(nodes, f, w).1 && AllAccept(nodes, w) && p in w.enabled && FoundEverywhere(nodes, w.found, p)
    ensures
      var r := Outcome(nodes, f, w).0;
      Covers(nodes, r.configs) && p in r.scalars && Settled(nodes, PathSite(nodes, r.configs, r.scalars, p))
  {
    SavedPathIsRound(nodes, f, w, p);
    AllAccepting(nodes, w, p);
    hide Outcome, Proper, FoundEverywhere, AllAccept, PathSite, Accepting;
    var r := Outcome(nodes, f, w).0;
    AcceptedRoundSettles(nodes, PathSite(nodes, w.found, f.scalars, p), w.now, Accepting(nodes, w.accepts, p));
    LedgerOf(nodes, r.configs, r.scalars, p);
    assert nodes[0] in nodes;
    hide Round;
  }

  lemma MacSettles(nodes: seq<Ip>, f: Fleet, w: Run, mac: string)
    requires Proper(nodes, w) && Outcome(nodes, f, w).1 && AllAccept(nodes, w) && w.hostsEnabled && mac in w.macs
    ensures
      var r := Outcome(nodes, f, w).0;
      Covers(nodes, r.configs) && mac in r.hosts && Settled(nodes, MacSite(nodes, NodeHosts(nodes, r.configs), r.hosts, mac))
  {
    SavedMacIsRound(nodes, f, w, mac);
    hide Outcome, NodeHosts, ListsAllMacs, Selected;
    var r := Outcome(nodes, f, w).0;
    AcceptedRoundSettles(nodes, MacSite(nodes, NodeHosts(nodes, w.found), f.hosts, mac), w.now, w.acceptsTable);
    assert nodes[0] in nodes;
    hide Round;
  }

  /** When a run that saves and whose pushes all succeed changes nothing: exactly over a settled fleet. */
  lemma IdleIffSettled(nodes: seq<Ip>, f: Fleet, w: Run)
    requires Proper(nodes, w) && |nodes| >= 2 && (w.enabled != [] || w.hostsEnabled)
    requires AllAccept(nodes, w) && Outcome(nodes, f, w).1
    ensures Outcome(nodes, f, w).0 == f.(configs := w.found) <==> AllSettled(nodes, f.(configs := w.found), w)
  {
    var g := f.(configs := w.found);
    hide Selected, ListsAllMacs, Outcome, AllAccept, AllSettled;
    if AllSettled(nodes, g, w) {
      SettledRunIsIdle(nodes, f, w);
    }
    if Outcome(nodes, f, w).0 == g {
      SettledAfter(nodes, f, w);
    }
  }

  lemma SettledAfter(nodes: seq<Ip>, f: Fleet, w: Run)
    requires Proper(nodes, w) && AllAccept(nodes, w) && Outcome(nodes, f, w).1 && Outcome(nodes, f, w).0 == f.(configs := w.found)
    ensures AllSettled(nodes, f.(configs := w.found), w)
  {
    hide Selected, ListsAllMacs, Outcome, AllAccept, FoundEverywhere, Settled, NodeHosts, PathSite, MacSite;
    var g := f.(configs := w.found);
    forall p | p in w.enabled ensures PathSettled(nodes, g, w, p) {
      if FoundEverywhere(nodes, w.found, p) {
        PathSettles(nodes, f, w, p);
      }
    }
    if w.hostsEnabled {
      forall mac | mac in w.macs ensures MacSettled(nodes, g, w, mac) {
        MacSettles(nodes, f, w, mac);
      }
    }
  }

  // --- Two runs ---

  /** What a run leaves is found everywhere if it was before. */
  lemma FoundBefore(nodes: seq<Ip>, f: Fleet, w: Run, p: Path)
    requires Proper(nodes, w) && Outcome(nodes, f, w).1 && p in w.enabled && !FoundEverywhere(nodes, w.found, p)
    ensures Covers(nodes, Outcome(nodes, f, w).0.configs) && !FoundEverywhere(nodes, Outcome(nodes, f, w).0.configs, p)
  {
    var g := f.(configs := w.found);
    SelectedApart(w.enabled);
    ScalarRunIsRound(nodes, w.enabled, g, w.now, w.accepts, p);
    if |nodes| >= 2 {
      ReservationsAside(g, nodes, w.enabled, w.hostsEnabled, w.macs, w.now, w.accepts, w.acceptsTable, p);
    }
    hide RunOutcome, ScalarRun, GetPath, Selected, ListsAllMacs, Round, PathSite;
  }

  /** One run suffices: after a run that saves and whose pushes all succeed, the next run with the same
      options changes neither a node nor a ledger, at whatever time and whoever would accept. */
  lemma SecondRunIsIdle(nodes: seq<Ip>, f: Fleet, w: Run, again: Run)
    requires Proper(nodes, w) && |nodes| >= 2 && AllAccept(nodes, w) && Outcome(nodes, f, w).1
    requires again.found == Outcome(nodes, f, w).0.configs && again.enabled == w.enabled && again.hostsEnabled == w.hostsEnabled
    requires Proper(nodes, again)
    ensures Outcome(nodes, Outcome(nodes, f, w).0, again) == (Outcome(nodes, f, w).0, true)
  {
    var r := Outcome(nodes, f, w).0;
    assert w.enabled != [] || w.hostsEnabled;
    assert r.(configs := again.found) == r;
    hide Outcome, AllAccept, FoundEverywhere, Settled, HostsOf, Selected;
    forall p | p in again.enabled ensures PathSettled(nodes, r, again, p) {
      if FoundEverywhere(nodes, again.found, p) {
        if !FoundEverywhere(nodes, w.found, p) {
          FoundBefore(nodes, f, w, p);
        } else {
          PathSettles(nodes, f, w, p);
        }
      }
    }
    if again.hostsEnabled {
      forall mac | mac in again.macs ensures MacSettled(nodes, r, again, mac) {
        var ip :| ip in nodes && mac in NodeHosts(nodes, again.found)[ip];
        if mac !in w.macs {
          UnlistedStaysAway(nodes, f, w, mac, ip);
        }
        MacSettles(nodes, f, w, mac);
      }
    }
    hide Proper;
    SettledRunIsIdle(nodes, r, again);
  }
}
