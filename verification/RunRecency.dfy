/** Recency and convergence over whole histories of runs, edit by edit, and exactly where they stop. */
module RunRecency {
  import opened Common
  import opened Ledger
  import opened Paths
  import opened Reservations
  import opened Ipv4
  import opened MergeRun
  import opened Replicator
  import opened Visits
  import opened RunHistory

  // --- Runs that save ---

  /** Every reservation on a reachable node has a valid address. */
  ghost predicate Addressed(nodes: seq<Ip>, w: Run)
    requires Covers(nodes, w.found)
  {
    forall ip, mac :: ip in nodes && mac in HostsOf(w.found[ip]) ==> ValidIp(HostsOf(w.found[ip])[mac].ip)
  }

  lemma MergedAddressed(nodes: seq<Ip>, tables: map<Ip, Table>, hosts: map<string, Stamps<Reservation>>, macs: seq<string>, now: int)
    requires nodes != [] && Covers(nodes, tables)
    requires forall ip, mac :: ip in nodes && mac in tables[ip] ==> ValidIp(tables[ip][mac].ip)
    ensures AllAddressed(MergedItems(nodes, tables, hosts, macs, now))
  {
    hide ValidIp, Pick;
    var items := MergedItems(nodes, tables, hosts, macs, now);
    forall i | 0 <= i < |items| ensures ValidIp(items[i].1.ip) {
      var (mac, r) := items[i];
      assert items[i] in items;
      var s := MacSite(nodes, tables, hosts, mac);
      var ip := WinnerIsHeld(nodes, s, now);
      assert s.values[ip] == Some(r) && tables[ip][mac] == r;
    }
  }

  lemma WrittenIff(nodes: seq<Ip>, tables: map<Ip, Table>, macs: seq<string>, f: Fleet, now: int, accepts: set<Ip>)
    requires nodes != [] && Covers(nodes, tables)
    ensures
      var items := MergedItems(nodes, tables, f.hosts, macs, now);
      HostRun(nodes, tables, macs, f, now, accepts).Some? <==> AllAddressed(items) || forall ip :: ip in nodes ==> tables[ip] == Dict(items)
  {
    hide MergedItems, MacLedgers, PushTable, AllAddressed;
  }

  /** A run raises exactly when some merged reservation has no valid address and some node has to be
      written. */
  lemma RaisesIff(nodes: seq<Ip>, f: Fleet, w: Run)
    requires Proper(nodes, w) && |nodes| >= 2 && w.hostsEnabled
    ensures
      var tables := NodeHosts(nodes, w.found);
      var items := MergedItems(nodes, tables, f.hosts, w.macs, w.now);
      Outcome(nodes, f, w).1 <==> AllAddressed(items) || forall ip :: ip in nodes ==> tables[ip] == Dict(items)
  {
    hide ScalarRun, HostRun, MergedItems, NodeHosts, ListsAllMacs, Selected, AllAddressed, TablesAsFetched;
    TablesKept(nodes, f.(configs := w.found), w);
    var s := ScalarRun(nodes, w.found, w.enabled, f.(configs := w.found), w.now, w.accepts);
    WrittenIff(nodes, NodeHosts(nodes, w.found), w.macs, s, w.now, w.acceptsTable);
  }

  /** What a caller can check: with at least two nodes, something to do and only valid addresses, a run
      saves. */
  lemma AddressedRunSaves(nodes: seq<Ip>, f: Fleet, w: Run)
    requires Proper(nodes, w) && |nodes| >= 2 && (w.enabled != [] || w.hostsEnabled) && (w.hostsEnabled ==> Addressed(nodes, w))
    ensures Outcome(nodes, f, w).1
  {
    if w.hostsEnabled {
      RaisesIff(nodes, f, w);
      hide ScalarRun, HostRun, HostsOf, ValidIp, MergedItems;
      MergedAddressed(nodes, NodeHosts(nodes, w.found), f.hosts, w.macs, w.now);
    } else {
      hide ScalarRun;
    }
  }

  /** A run that is sure to look at the setting and to save: there is nothing to raise on. */
  ghost predicate Sure<V>(nodes: seq<Ip>, z: Setting<V>, w: Run)
  {
    && |nodes| >= 2 && Covers(nodes, w.found) && (w.enabled != [] || w.hostsEnabled) && z.looks(nodes, w)
    && (w.hostsEnabled ==> Addressed(nodes, w))
  }

  ghost predicate AlwaysVisited<V>(nodes: seq<Ip>, z: Setting<V>, start: Fleet, h: seq<Run>)
    requires Covered(nodes, h)
  {
    forall i :: 0 < i <= |h| ==> Visited(nodes, z, start, h[..i])
  }

  lemma SureRunVisits<V>(nodes: seq<Ip>, z: Setting<V>, start: Fleet, g: seq<Run>)
    requires Covered(nodes, g) && g != [] && Proper(nodes, g[|g| - 1]) && Sure(nodes, z, g[|g| - 1])
    ensures Visited(nodes, z, start, g)
  {
    hide Outcome, LeftBy, Addressed, Proper;
    AddressedRunSaves(nodes, LeftBy(nodes, start, g[..|g| - 1]), g[|g| - 1]);
  }

  lemma SureRunsVisit<V>(nodes: seq<Ip>, z: Setting<V>, start: Fleet, h: seq<Run>)
    requires AllProper(nodes, h) && Covered(nodes, h) && forall i :: 0 <= i < |h| ==> Sure(nodes, z, h[i])
    ensures AlwaysVisited(nodes, z, start, h)
  {
    hide Proper, Sure, Visited, Covers;
    forall i | 0 < i <= |h| ensures Visited(nodes, z, start, h[..i]) {
      assert Proper(nodes, h[i - 1]) && Sure(nodes, z, h[i - 1]);
      SureRunVisits(nodes, z, start, h[..i]);
    }
  }

  // --- Edits ---

  function ConfigAt(configs: map<Ip, Value>, ip: Ip): Value
  {
    Get(configs, ip).GetOr(None)
  }

  /** What run k finds at the node, and what run k - 1 left there. */
  function FoundAt<V>(z: Setting<V>, h: seq<Run>, k: nat, ip: Ip): Option<V>
    requires k < |h|
  {
    z.shows(ConfigAt(h[k].found, ip))
  }

  function LeftAt<V>(nodes: seq<Ip>, z: Setting<V>, start: Fleet, h: seq<Run>, k: nat, ip: Ip): Option<V>
    requires Covered(nodes, h) && k <= |h|
  {
    z.shows(ConfigAt(LeftBy(nodes, start, h[..k]).configs, ip))
  }

  /** An edit between run k - 1 and run k shows at the node; the first run finds every node anew. */
  ghost predicate Edited<V>(nodes: seq<Ip>, z: Setting<V>, start: Fleet, h: seq<Run>, k: nat, ip: Ip)
    requires Covered(nodes, h) && k < |h|
  {
    ip in nodes && (k == 0 || FoundAt(z, h, k, ip) != LeftAt(nodes, z, start, h, k, ip))
  }

  ghost predicate AnyEdited<V>(nodes: seq<Ip>, z: Setting<V>, start: Fleet, h: seq<Run>, k: nat)
    requires Covered(nodes, h) && k < |h|
  {
    exists ip :: Edited(nodes, z, start, h, k, ip)
  }

  /** Run k is the latest before which an edit shows, the entry carries its time, and an edit that shows
      there made the value. */
  ghost predicate FromLatestEdit<V>(nodes: seq<Ip>, z: Setting<V>, start: Fleet, h: seq<Run>, e: Entry<V>, k: nat)
    requires Covered(nodes, h)
  {
    && k < |h| && e.changedAt == h[k].now
    && (exists ip :: Edited(nodes, z, start, h, k, ip) && FoundAt(z, h, k, ip) == e.value)
    && forall i :: k < i < |h| ==> !AnyEdited(nodes, z, start, h, i)
  }

  lemma {:induction false} AllVisits<V>(nodes: seq<Ip>, z: Setting<V>, start: Fleet, h: seq<Run>, n: nat)
    requires Covered(nodes, h) && AlwaysVisited(nodes, z, start, h) && n <= |h|
    ensures |VisitsOf(nodes, z, start, h[..n])| == n
    ensures forall i :: 0 <= i < n ==> VisitsOf(nodes, z, start, h[..n])[i] == VisitOf(nodes, z, h[i])
  {
    hide Visited, VisitOf, Covers, LeftBy;
    if n > 0 {
      AllVisits(nodes, z, start, h, n - 1);
      assert h[..n][..n - 1] == h[..n - 1];
      VisitsStep(nodes, z, start, h[..n]);
      hide VisitsOf;
      assert VisitsOf(nodes, z, start, h[..n]) == VisitsOf(nodes, z, start, h[..n - 1]) + [VisitOf(nodes, z, h[n - 1])];
    }
  }

  lemma CoveredPrefix(nodes: seq<Ip>, h: seq<Run>, k: nat)
    requires Covered(nodes, h) && k <= |h|
    ensures Covered(nodes, h[..k]) && (k < |h| ==> Covers(nodes, h[k].found))
  {
    hide Covers;
  }

  lemma PrefixByItem<T>(s: seq<T>, t: seq<T>)
    requires |t| <= |s| && forall i :: 0 <= i < |t| ==> s[i] == t[i]
    ensures s[..|t|] == t
  {
  }

  /** Run by run, the visits of a history in which every run looks. */
  lemma VisitAt<V>(nodes: seq<Ip>, z: Setting<V>, start: Fleet, h: seq<Run>, k: nat)
    requires Covered(nodes, h) && AlwaysVisited(nodes, z, start, h) && k <= |h|
    ensures
      var visits := VisitsOf(nodes, z, start, h);
      && |visits| == |h| && visits[..k] == VisitsOf(nodes, z, start, h[..k])
      && (k < |h| ==> visits[k] == VisitOf(nodes, z, h[k]))
  {
    hide *;
    CoveredPrefix(nodes, h, k);
    AllVisits(nodes, z, start, h, k);
    AllVisits(nodes, z, start, h, |h|);
    assert h[..|h|] == h;
    PrefixByItem(VisitsOf(nodes, z, start, h), VisitsOf(nodes, z, start, h[..k]));
  }

  lemma EditedIsChanged<V>(nodes: seq<Ip>, z: Setting<V>, start: Fleet, h: seq<Run>, k: nat)
    requires nodes != [] && AllProper(nodes, h) && Covered(nodes, h) && Managed(nodes, z) && Unknown(z, start)
    requires AlwaysVisited(nodes, z, start, h) && k < |h|
    ensures
      var visits := VisitsOf(nodes, z, start, h);
      && |visits| == |h| && visits[k].now == h[k].now
      && (forall ip :: ip in nodes ==> ip in visits[k].values && visits[k].values[ip] == FoundAt(z, h, k, ip))
      && (forall ip :: Changed(nodes, visits, k, ip) <==> Edited(nodes, z, start, h, k, ip))
      && (AnyChanged(nodes, visits, k) <==> AnyEdited(nodes, z, start, h, k))
  {
    VisitAt(nodes, z, start, h, k);
    var visits := VisitsOf(nodes, z, start, h);
    assert AllProper(nodes, h[..k]) by { hide Proper; }
    VisitIs(nodes, z, h[k]);
    if k > 0 {
      hide Managed;
      Replays(nodes, z, start, h[..k]);
      LeftIs(nodes, z, start, h, k);
    }
    hide Replay, VisitsOf, VisitOf, LeftBy, Visited, Proper, Covers, Over, Managed;
    forall ip ensures Changed(nodes, visits, k, ip) <==> Edited(nodes, z, start, h, k, ip) {
    }
    hide Changed, Edited;
    SameAny(nodes, z, start, h, k);
  }

  lemma SameAny<V>(nodes: seq<Ip>, z: Setting<V>, start: Fleet, h: seq<Run>, k: nat)
    requires nodes != [] && Covered(nodes, h) && k < |h| && k < |VisitsOf(nodes, z, start, h)|
    requires forall ip :: Changed(nodes, VisitsOf(nodes, z, start, h), k, ip) <==> Edited(nodes, z, start, h, k, ip)
    ensures AnyChanged(nodes, VisitsOf(nodes, z, start, h), k) <==> AnyEdited(nodes, z, start, h, k)
  {
    hide Changed, Edited, VisitsOf, Covers;
  }

  lemma VisitIs<V>(nodes: seq<Ip>, z: Setting<V>, w: Run)
    requires Covers(nodes, w.found)
    ensures VisitOf(nodes, z, w).now == w.now
    ensures forall ip :: ip in nodes ==> ip in VisitOf(nodes, z, w).values && VisitOf(nodes, z, w).values[ip] == z.shows(ConfigAt(w.found, ip))
  {
  }

  lemma LeftIs<V>(nodes: seq<Ip>, z: Setting<V>, start: Fleet, h: seq<Run>, k: nat)
    requires nodes != [] && Covered(nodes, h) && 0 < k <= |h| && Replayed(nodes, z, start, h[..k])
    ensures
      var left := Replay(nodes, VisitsOf(nodes, z, start, h[..k])).values;
      forall ip :: ip in nodes ==> ip in left && left[ip] == LeftAt(nodes, z, start, h, k, ip)
  {
    hide Replay, VisitsOf, LeftBy, Picked, PickAt;
  }

  /** Last writer wins over whole histories of runs: when every run looks at the setting and saves, the
      last run picks the entry of the latest edit, whichever pushes failed on the way. The history
      may start from any fleet whose ledger does not know the setting yet. */
  lemma RunsHonourEdits<V>(nodes: seq<Ip>, z: Setting<V>, start: Fleet, h: seq<Run>)
    requires nodes != [] && AllProper(nodes, h) && Covered(nodes, h) && Managed(nodes, z) && Unknown(z, start) && TimesRise(h) && h != []
    requires AlwaysVisited(nodes, z, start, h)
    ensures exists k :: FromLatestEdit(nodes, z, start, h, Picked(nodes, z, start, h), k)
  {
    LastVisited(nodes, z, start, h);
    hide *;
    ChangeWins(nodes, z, start, h);
    var visits, e := VisitsOf(nodes, z, start, h), Picked(nodes, z, start, h);
    var k :| FromLatestChange(nodes, visits, e, k);
    Source(nodes, z, start, h, e, k);
  }

  lemma LastVisited<V>(nodes: seq<Ip>, z: Setting<V>, start: Fleet, h: seq<Run>)
    requires Covered(nodes, h) && h != [] && AlwaysVisited(nodes, z, start, h)
    ensures Visited(nodes, z, start, h)
  {
    hide Visited;
    assert h[..|h|] == h;
  }

  lemma Source<V>(nodes: seq<Ip>, z: Setting<V>, start: Fleet, h: seq<Run>, e: Entry<V>, k: int)
    requires nodes != [] && AllProper(nodes, h) && Covered(nodes, h) && Managed(nodes, z) && Unknown(z, start)
    requires AlwaysVisited(nodes, z, start, h) && FromLatestChange(nodes, VisitsOf(nodes, z, start, h), e, k)
    ensures 0 <= k && FromLatestEdit(nodes, z, start, h, e, k)
  {
    hide *;
    var ip := ChangeParts(nodes, VisitsOf(nodes, z, start, h), e, k);
    AnyEditedIsChanged(nodes, z, start, h);
    EditedIsChanged(nodes, z, start, h, k);
    forall i | k < i < |h| ensures !AnyEdited(nodes, z, start, h, i) {
      NoLaterChange(nodes, VisitsOf(nodes, z, start, h), e, k, i);
    }
    FromParts(nodes, z, start, h, e, k, ip);
  }

  lemma FromParts<V>(nodes: seq<Ip>, z: Setting<V>, start: Fleet, h: seq<Run>, e: Entry<V>, k: nat, ip: Ip)
    requires Covered(nodes, h) && k < |h| && e.changedAt == h[k].now
    requires Edited(nodes, z, start, h, k, ip) && FoundAt(z, h, k, ip) == e.value
    requires forall i :: k < i < |h| ==> !AnyEdited(nodes, z, start, h, i)
    ensures FromLatestEdit(nodes, z, start, h, e, k)
  {
    hide Edited, AnyEdited, FoundAt;
  }

  lemma AnyEditedIsChanged<V>(nodes: seq<Ip>, z: Setting<V>, start: Fleet, h: seq<Run>)
    requires nodes != [] && AllProper(nodes, h) && Covered(nodes, h) && Managed(nodes, z) && Unknown(z, start)
    requires AlwaysVisited(nodes, z, start, h)
    ensures |VisitsOf(nodes, z, start, h)| == |h|
    ensures forall k :: 0 <= k < |h| ==> (AnyChanged(nodes, VisitsOf(nodes, z, start, h), k) <==> AnyEdited(nodes, z, start, h, k))
  {
    hide *;
    VisitAt(nodes, z, start, h, 0);
    forall k | 0 <= k < |h| ensures AnyChanged(nodes, VisitsOf(nodes, z, start, h), k) <==> AnyEdited(nodes, z, start, h, k) {
      EditedIsChanged(nodes, z, start, h, k);
    }
  }

  // --- Paths and reservations ---

  /** What a caller can check for a path at each run: it is enabled, found on every node, and every
      reservation has a valid address if reservations are enabled. */
  lemma PathRunsHonourEdits(nodes: seq<Ip>, start: Fleet, h: seq<Run>, p: Path)
    requires |nodes| >= 2 && AllProper(nodes, h) && Covered(nodes, h) && TimesRise(h) && h != [] && p !in start.scalars
    requires forall i :: 0 <= i < |h| ==>
      p in h[i].enabled && FoundEverywhere(nodes, h[i].found, p) && (h[i].hostsEnabled ==> Addressed(nodes, h[i]))
    ensures exists k :: FromLatestEdit(nodes, PathSetting(p), start, h, Picked(nodes, PathSetting(p), start, h), k)
  {
    var z := PathSetting(p);
    forall i | 0 <= i < |h| ensures Sure(nodes, z, h[i]) {
      hide Addressed, FoundEverywhere, AllProper;
    }
    assert Unknown(z, start);
    hide *;
    PathIsManaged(nodes, p);
    SureRunsVisit(nodes, z, start, h);
    RunsHonourEdits(nodes, z, start, h);
  }

  /** For a reservation: some node has it at each run, and every reservation has a valid address. */
  lemma MacRunsHonourEdits(nodes: seq<Ip>, start: Fleet, h: seq<Run>, mac: string)
    requires |nodes| >= 2 && AllProper(nodes, h) && Covered(nodes, h) && TimesRise(h) && h != [] && mac !in start.hosts
    requires forall i :: 0 <= i < |h| ==> h[i].hostsEnabled && HeldSomewhere(nodes, h[i], mac) && Addressed(nodes, h[i])
    ensures exists k :: FromLatestEdit(nodes, MacSetting(mac), start, h, Picked(nodes, MacSetting(mac), start, h), k)
  {
    var z := MacSetting(mac);
    forall i | 0 <= i < |h| ensures Sure(nodes, z, h[i]) {
      hide Addressed, Proper, HeldSomewhere;
      assert Proper(nodes, h[i]) && Covers(nodes, h[i].found);
      MacIsListed(nodes, h[i], mac);
    }
    assert Unknown(z, start);
    hide *;
    MacIsManaged(nodes, mac);
    SureRunsVisit(nodes, z, start, h);
    RunsHonourEdits(nodes, z, start, h);
  }

  ghost predicate HeldSomewhere(nodes: seq<Ip>, w: Run, mac: string)
    requires Covers(nodes, w.found)
  {
    exists ip :: ip in nodes && mac in HostsOf(w.found[ip])
  }

  lemma MacIsListed(nodes: seq<Ip>, w: Run, mac: string)
    requires Proper(nodes, w)
    ensures mac in w.macs <==> HeldSomewhere(nodes, w, mac)
  {
    hide HostsOf;
    var tables := NodeHosts(nodes, w.found);
    if mac in w.macs {
      var ip :| ip in nodes && mac in tables[ip];
    }
  }

  // --- Convergence ---

  /** The nodes that do not hold the pick when the last run looks. */
  ghost function BehindNow<V>(nodes: seq<Ip>, z: Setting<V>, start: Fleet, h: seq<Run>): set<Ip>
    requires nodes != [] && Covered(nodes, h) && h != []
  {
    set ip | ip in nodes && FoundAt(z, h, |h| - 1, ip) != Picked(nodes, z, start, h).value
  }

  /** Without edits after run q the last run picks what run q picked, and is behind on the nodes that
      run q was behind on less those that have accepted a push since. */
  lemma RunsConverge<V>(nodes: seq<Ip>, z: Setting<V>, start: Fleet, h: seq<Run>, q: nat)
    requires nodes != [] && AllProper(nodes, h) && Covered(nodes, h) && Managed(nodes, z) && Unknown(z, start)
    requires AlwaysVisited(nodes, z, start, h) && q < |h|
    requires forall i :: q < i < |h| ==> !AnyEdited(nodes, z, start, h, i)
    ensures Picked(nodes, z, start, h) == Picked(nodes, z, start, h[..q + 1])
    ensures |VisitsOf(nodes, z, start, h)| == |h|
    ensures BehindNow(nodes, z, start, h)
         == BehindNow(nodes, z, start, h[..q + 1]) - AcceptedIn(VisitsOf(nodes, z, start, h), q, |h| - 1)
  {
    hide *;
    VisitAt(nodes, z, start, h, q + 1);
    var visits := VisitsOf(nodes, z, start, h);
    PrefixVisited(nodes, z, start, h, q + 1);
    PickAndBehind(nodes, z, start, h[..q + 1]);
    PickAndBehind(nodes, z, start, h);
    AnyEditedIsChanged(nodes, z, start, h);
    QuietVisitsKeep(nodes, visits, q, |visits|);
    assert visits[..|visits|] == visits;
  }

  lemma PickAndBehind<V>(nodes: seq<Ip>, z: Setting<V>, start: Fleet, g: seq<Run>)
    requires nodes != [] && AllProper(nodes, g) && Covered(nodes, g) && Managed(nodes, z) && Unknown(z, start)
    requires AlwaysVisited(nodes, z, start, g) && g != []
    ensures
      var visits := VisitsOf(nodes, z, start, g);
      && visits != [] && PickAt(nodes, visits) == Picked(nodes, z, start, g)
      && BehindAt(nodes, visits) == BehindNow(nodes, z, start, g)
  {
    hide *;
    LastVisited(nodes, z, start, g);
    Replays(nodes, z, start, g);
    ReplayedPick(nodes, z, start, g);
    VisitAt(nodes, z, start, g, |g| - 1);
    BehindIs(nodes, VisitsOf(nodes, z, start, g));
    CoveredPrefix(nodes, g, |g| - 1);
    VisitIs(nodes, z, g[|g| - 1]);
    BehindNowIs(nodes, z, start, g);
  }

  lemma PrefixVisited<V>(nodes: seq<Ip>, z: Setting<V>, start: Fleet, h: seq<Run>, n: nat)
    requires Covered(nodes, h) && AllProper(nodes, h) && AlwaysVisited(nodes, z, start, h) && n <= |h|
    ensures AllProper(nodes, h[..n]) && Covered(nodes, h[..n]) && AlwaysVisited(nodes, z, start, h[..n])
  {
    hide Proper, Visited, Covers;
    assert forall i :: 0 < i <= n ==> h[..n][..i] == h[..i];
  }

  lemma ReplayedPick<V>(nodes: seq<Ip>, z: Setting<V>, start: Fleet, g: seq<Run>)
    requires nodes != [] && Covered(nodes, g) && g != [] && Replayed(nodes, z, start, g)
    ensures VisitsOf(nodes, z, start, g) != [] && Picked(nodes, z, start, g) == PickAt(nodes, VisitsOf(nodes, z, start, g))
  {
    hide VisitsOf, Picked, PickAt;
  }

  lemma BehindNowIs<V>(nodes: seq<Ip>, z: Setting<V>, start: Fleet, g: seq<Run>)
    requires nodes != [] && Covered(nodes, g) && g != []
    ensures BehindNow(nodes, z, start, g)
         == set ip | ip in nodes && z.shows(ConfigAt(g[|g| - 1].found, ip)) != Picked(nodes, z, start, g).value
  {
    hide Picked, ConfigAt;
  }
}
