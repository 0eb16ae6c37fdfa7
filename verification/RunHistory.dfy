/** Whole histories of replication runs on a fixed list of reachable nodes, with any edits in between
    and any pushes failing. */
module RunHistory {
  import opened Common
  import opened Ledger
  import opened Paths
  import opened Reservations
  import opened MergeRun
  import opened ScalarPaths
  import opened Replicator
  import opened Visits

  /** One run: the configurations it finds, which hold whatever was edited since the last run, its
      options, and which pushes are accepted. */
  datatype Run = Run(found: map<Ip, Value>, enabled: seq<Path>, hostsEnabled: bool, macs: seq<string>, now: int,
                     accepts: set<(Ip, Path)>, acceptsTable: set<Ip>)

  ghost predicate Proper(nodes: seq<Ip>, w: Run)
  {
    && nodes != [] && Covers(nodes, w.found)
    && Selected(w.enabled) && ListsAllMacs(w.macs, nodes, NodeHosts(nodes, w.found))
  }

  ghost predicate AllProper(nodes: seq<Ip>, h: seq<Run>)
  {
    forall i :: 0 <= i < |h| ==> Proper(nodes, h[i])
  }

  function Outcome(nodes: seq<Ip>, f: Fleet, w: Run): (Fleet, bool)
    requires Covers(nodes, w.found)
  {
    RunOutcome(f.(configs := w.found), nodes, w.enabled, w.hostsEnabled, w.macs, w.now, w.accepts, w.acceptsTable)
  }

  ghost predicate Covered(nodes: seq<Ip>, h: seq<Run>)
  {
    forall i :: 0 <= i < |h| ==> Covers(nodes, h[i].found)
  }

  /** The fleet and the saved ledger after a history. */
  function LeftBy(nodes: seq<Ip>, start: Fleet, h: seq<Run>): Fleet
    requires Covered(nodes, h)
  {
    if h == [] then start else Outcome(nodes, LeftBy(nodes, start, h[..|h| - 1]), h[|h| - 1]).0
  }

  /** The last run saved its ledger. */
  predicate Saves(nodes: seq<Ip>, start: Fleet, h: seq<Run>)
    requires Covered(nodes, h) && h != []
  {
    Outcome(nodes, LeftBy(nodes, start, h[..|h| - 1]), h[|h| - 1]).1
  }

  // --- One run, setting by setting ---

  lemma {:induction false} ScalarLedgerKept(nodes: seq<Ip>, fetched: map<Ip, Value>, paths: seq<Path>, f: Fleet, now: int,
                                            accepts: set<(Ip, Path)>, p: Path)
    requires nodes != [] && Covers(nodes, fetched) && (p !in paths || !FoundEverywhere(nodes, fetched, p))
    ensures Get(ScalarRun(nodes, fetched, paths, f, now, accepts).scalars, p) == Get(f.scalars, p)
  {
    if paths != [] {
      hide Round, Pick, PathSite;
      ScalarLedgerKept(nodes, fetched, paths[..|paths| - 1], f, now, accepts, p);
    }
  }

  /** What the live reservations are when the reservations' turn comes. */
  lemma TablesKept(nodes: seq<Ip>, f: Fleet, w: Run)
    requires Proper(nodes, w) && f.configs == w.found
    ensures
      var s := ScalarRun(nodes, w.found, w.enabled, f, w.now, w.accepts);
      s.hosts == f.hosts && TablesAsFetched(nodes, NodeHosts(nodes, w.found), s.configs)
  {
    hide ScalarRun, HostsOf, ListsAllMacs, Selected;
    TablesUntouched(f, nodes, w.enabled, w.now, w.accepts);
  }

  /** A run that does not save leaves both ledgers as they were. */
  lemma UnsavedKeepsLedgers(nodes: seq<Ip>, f: Fleet, w: Run)
    requires Covers(nodes, w.found) && !Outcome(nodes, f, w).1
    ensures Outcome(nodes, f, w).0.scalars == f.scalars && Outcome(nodes, f, w).0.hosts == f.hosts
  {
    hide ScalarRun, HostRun;
  }

  /** An enabled path that all nodes have goes through one round of a run that saves. */
  lemma SavedPathIsRound(nodes: seq<Ip>, f: Fleet, w: Run, p: Path)
    requires Proper(nodes, w) && Outcome(nodes, f, w).1 && p in w.enabled && FoundEverywhere(nodes, w.found, p)
    ensures
      var r := Outcome(nodes, f, w).0;
      && Covers(nodes, r.configs)
      && PathSite(nodes, r.configs, r.scalars, p)
         == Round(nodes, PathSite(nodes, w.found, f.scalars, p), w.now, Accepting(nodes, w.accepts, p))
  {
    hide Round, ListsAllMacs, ScalarRun, HostRun, FoundEverywhere;
    var g := f.(configs := w.found);
    EnabledPathsApart(w.enabled);
    ScalarRunIsRound(nodes, w.enabled, g, w.now, w.accepts, p);
    if w.hostsEnabled {
      var s := ScalarRun(nodes, w.found, w.enabled, g, w.now, w.accepts);
      HostsApart(p);
      HostRunFrame(nodes, NodeHosts(nodes, w.found), w.macs, s, w.now, w.acceptsTable, p);
      SamePathSite(nodes, s, Outcome(nodes, f, w).0, p);
    }
  }

  lemma SamePathSite(nodes: seq<Ip>, a: Fleet, b: Fleet, p: Path)
    requires Covers(nodes, a.configs) && a.configs.Keys == b.configs.Keys && a.scalars == b.scalars
    requires forall ip :: ip in a.configs ==> GetPath(b.configs[ip], p) == GetPath(a.configs[ip], p)
    ensures Covers(nodes, b.configs) && PathSite(nodes, b.configs, b.scalars, p) == PathSite(nodes, a.configs, a.scalars, p)
  {
    hide GetPath;
  }

  /** Any other path keeps its ledger entry. */
  lemma OtherPathKept(nodes: seq<Ip>, f: Fleet, w: Run, p: Path)
    requires Proper(nodes, w) && !(Outcome(nodes, f, w).1 && p in w.enabled && FoundEverywhere(nodes, w.found, p))
    ensures Get(Outcome(nodes, f, w).0.scalars, p) == Get(f.scalars, p)
  {
    hide ListsAllMacs, ScalarRun, HostRun, FoundEverywhere;
    if Outcome(nodes, f, w).1 {
      ScalarLedgerKept(nodes, w.found, w.enabled, f.(configs := w.found), w.now, w.accepts, p);
    } else {
      UnsavedKeepsLedgers(nodes, f, w);
    }
  }

  /** A mac that some node has goes through one round of a run that saves. */
  lemma SavedMacIsRound(nodes: seq<Ip>, f: Fleet, w: Run, mac: string)
    requires Proper(nodes, w) && Outcome(nodes, f, w).1 && w.hostsEnabled && mac in w.macs
    ensures
      var r := Outcome(nodes, f, w).0;
      && Covers(nodes, r.configs)
      && MacSite(nodes, NodeHosts(nodes, r.configs), r.hosts, mac)
         == Round(nodes, MacSite(nodes, NodeHosts(nodes, w.found), f.hosts, mac), w.now, w.acceptsTable)
  {
    var g := f.(configs := w.found);
    TablesKept(nodes, g, w);
    hide Round, ListsAllMacs, ScalarRun, HostRun, HostsOf;
    var s := ScalarRun(nodes, w.found, w.enabled, g, w.now, w.accepts);
    HostRunIsRound(nodes, NodeHosts(nodes, w.found), w.macs, s, w.now, w.acceptsTable, mac);
  }

  /** Any other mac keeps its ledger entry. */
  lemma OtherMacKept(nodes: seq<Ip>, f: Fleet, w: Run, mac: string)
    requires Proper(nodes, w) && !(Outcome(nodes, f, w).1 && w.hostsEnabled && mac in w.macs)
    ensures Get(Outcome(nodes, f, w).0.hosts, mac) == Get(f.hosts, mac)
  {
    if Outcome(nodes, f, w).1 {
      TablesKept(nodes, f.(configs := w.found), w);
      hide ListsAllMacs, ScalarRun, HostRun, HostsOf, Round;
    } else {
      UnsavedKeepsLedgers(nodes, f, w);
    }
  }

  /** A mac that no node has is on no node after the run either. */
  lemma UnlistedStaysAway(nodes: seq<Ip>, f: Fleet, w: Run, mac: string, ip: Ip)
    requires Proper(nodes, w) && Outcome(nodes, f, w).1 && w.hostsEnabled && ip in nodes && mac !in w.macs
    ensures Covers(nodes, Outcome(nodes, f, w).0.configs) && mac !in HostsOf(Outcome(nodes, f, w).0.configs[ip])
  {
    var g := f.(configs := w.found);
    TablesKept(nodes, g, w);
    var tables := NodeHosts(nodes, w.found);
    var s := ScalarRun(nodes, w.found, w.enabled, g, w.now, w.accepts);
    HostRunTables(nodes, tables, w.macs, s, w.now, w.acceptsTable, ip);
    MergedIsWinners(nodes, tables, s.hosts, w.macs, w.now);
    hide ScalarRun, HostRun, HostsOf, MergedItems, Pick;
  }

  // --- Settings ---

  /** What runs keep alike: what a configuration shows of it, what the saved ledgers have of it, whether a
      run looks at it, and which nodes accept a push of it. */
  datatype Setting<!V> = Setting(shows: Value -> Option<V>, stamps: Fleet -> Stamps<V>,
                                 looks: (seq<Ip>, Run) -> bool, takes: (seq<Ip>, Run) -> set<Ip>)

  function PathValue(config: Value, p: Path): Option<Json>
  {
    GetPath(config, p).GetOr(None)
  }

  function MacValue(config: Value, mac: string): Option<Reservation>
  {
    Get(HostsOf(config), mac)
  }

  /** A path, looked at where it is enabled and every node has it. */
  ghost function PathSetting(p: Path): Setting<Json>
  {
    Setting(c => PathValue(c, p), (f: Fleet) => Get(f.scalars, p).GetOr(map[]),
            (nodes: seq<Ip>, w: Run) => Covers(nodes, w.found) && p in w.enabled && FoundEverywhere(nodes, w.found, p),
            (nodes: seq<Ip>, w: Run) => Accepting(nodes, w.accepts, p))
  }

  /** The reservation of a mac, looked at where some node has one. */
  ghost function MacSetting(mac: string): Setting<Reservation>
  {
    Setting(c => MacValue(c, mac), (f: Fleet) => Get(f.hosts, mac).GetOr(map[]),
            (nodes: seq<Ip>, w: Run) => w.hostsEnabled && mac in w.macs,
            (nodes: seq<Ip>, w: Run) => w.acceptsTable)
  }

  function Shown<V>(nodes: seq<Ip>, z: Setting<V>, configs: map<Ip, Value>): (values: Values<V>)
    requires Covers(nodes, configs)
    ensures values.Keys == set ip | ip in nodes
  {
    map ip | ip in nodes :: z.shows(configs[ip])
  }

  /** A run that looks at the setting and saves takes it through one round; any other run leaves its
      ledger entry as it was. */
  ghost predicate OneRound<V>(nodes: seq<Ip>, z: Setting<V>, f: Fleet, w: Run)
    requires nodes != [] && Covers(nodes, w.found)
  {
    var (r, saved) := Outcome(nodes, f, w);
    if saved && z.looks(nodes, w) then
      && Covers(nodes, r.configs)
      && Site(Shown(nodes, z, r.configs), z.stamps(r))
         == Round(nodes, Site(Shown(nodes, z, w.found), z.stamps(f)), w.now, z.takes(nodes, w))
    else z.stamps(r) == z.stamps(f)
  }

  ghost predicate Managed<V>(nodes: seq<Ip>, z: Setting<V>)
  {
    forall f: Fleet, w: Run :: Proper(nodes, w) ==> OneRound(nodes, z, f, w)
  }

  lemma PathSiteIs(nodes: seq<Ip>, f: Fleet, configs: map<Ip, Value>, p: Path)
    requires Covers(nodes, configs)
    ensures PathSite(nodes, configs, f.scalars, p) == Site(Shown(nodes, PathSetting(p), configs), PathSetting(p).stamps(f))
  {
    hide GetPath;
  }

  lemma MacSiteIs(nodes: seq<Ip>, f: Fleet, configs: map<Ip, Value>, mac: string)
    requires Covers(nodes, configs)
    ensures MacSite(nodes, NodeHosts(nodes, configs), f.hosts, mac) == Site(Shown(nodes, MacSetting(mac), configs), MacSetting(mac).stamps(f))
  {
    hide HostsOf;
  }

  lemma PathOneRound(nodes: seq<Ip>, f: Fleet, w: Run, p: Path)
    requires Proper(nodes, w)
    ensures OneRound(nodes, PathSetting(p), f, w)
  {
    hide Outcome, Round, Selected, ListsAllMacs, FoundEverywhere, PathSite, Accepting, PathValue;
    var (r, saved) := Outcome(nodes, f, w);
    if saved && PathSetting(p).looks(nodes, w) {
      SavedPathIsRound(nodes, f, w, p);
      PathSiteIs(nodes, f, w.found, p);
      PathSiteIs(nodes, r, r.configs, p);
    } else {
      OtherPathKept(nodes, f, w, p);
    }
  }

  lemma MacOneRound(nodes: seq<Ip>, f: Fleet, w: Run, mac: string)
    requires Proper(nodes, w)
    ensures OneRound(nodes, MacSetting(mac), f, w)
  {
    hide Outcome, Round, Selected, ListsAllMacs, MacSite, NodeHosts, MacValue;
    var (r, saved) := Outcome(nodes, f, w);
    if saved && MacSetting(mac).looks(nodes, w) {
      SavedMacIsRound(nodes, f, w, mac);
      MacSiteIs(nodes, f, w.found, mac);
      MacSiteIs(nodes, r, r.configs, mac);
    } else {
      OtherMacKept(nodes, f, w, mac);
    }
  }

  /** Every path and every mac is such a setting. */
  lemma PathIsManaged(nodes: seq<Ip>, p: Path)
    ensures Managed(nodes, PathSetting(p))
  {
    hide Selected, ListsAllMacs, OneRound, PathSetting;
    forall f: Fleet, w: Run | Proper(nodes, w) ensures OneRound(nodes, PathSetting(p), f, w) {
      PathOneRound(nodes, f, w, p);
    }
  }

  lemma MacIsManaged(nodes: seq<Ip>, mac: string)
    ensures Managed(nodes, MacSetting(mac))
  {
    hide Selected, ListsAllMacs, OneRound, MacSetting;
    forall f: Fleet, w: Run | Proper(nodes, w) ensures OneRound(nodes, MacSetting(mac), f, w) {
      MacOneRound(nodes, f, w, mac);
    }
  }

  // --- A setting over a history ---

  /** The last run looked at the setting and saved what it saw. */
  predicate Visited<V>(nodes: seq<Ip>, z: Setting<V>, start: Fleet, h: seq<Run>)
    requires Covered(nodes, h) && h != []
  {
    Saves(nodes, start, h) && z.looks(nodes, h[|h| - 1])
  }

  function VisitOf<V>(nodes: seq<Ip>, z: Setting<V>, w: Run): Visit<V>
    requires Covers(nodes, w.found)
  {
    Visit(Shown(nodes, z, w.found), w.now, z.takes(nodes, w))
  }

  /** The visits of a history: what lies between two of them, runs that raised included, is one window
      of edits. */
  function VisitsOf<V>(nodes: seq<Ip>, z: Setting<V>, start: Fleet, h: seq<Run>): (visits: seq<Visit<V>>)
    requires Covered(nodes, h)
    ensures Over(nodes, visits)
  {
    if h == [] then []
    else VisitsOf(nodes, z, start, h[..|h| - 1]) + (if Visited(nodes, z, start, h) then [VisitOf(nodes, z, h[|h| - 1])] else [])
  }

  /** What the last run finds, with the ledger it starts from. */
  function Met<V>(nodes: seq<Ip>, z: Setting<V>, start: Fleet, h: seq<Run>): (s: Site<V>)
    requires Covered(nodes, h) && h != []
    ensures Covers(nodes, s.values)
  {
    Site(Shown(nodes, z, h[|h| - 1].found), z.stamps(LeftBy(nodes, start, h[..|h| - 1])))
  }

  /** The entry the last run picks. */
  function Picked<V(==)>(nodes: seq<Ip>, z: Setting<V>, start: Fleet, h: seq<Run>): Entry<V>
    requires nodes != [] && Covered(nodes, h) && h != []
  {
    Pick(nodes, Met(nodes, z, start, h), h[|h| - 1].now)
  }

  ghost predicate Unknown<V>(z: Setting<V>, start: Fleet)
  {
    z.stamps(start) == map[]
  }

  lemma VisitsStep<V>(nodes: seq<Ip>, z: Setting<V>, start: Fleet, h: seq<Run>)
    requires Covered(nodes, h) && h != []
    ensures VisitsOf(nodes, z, start, h)
         == VisitsOf(nodes, z, start, h[..|h| - 1]) + (if Visited(nodes, z, start, h) then [VisitOf(nodes, z, h[|h| - 1])] else [])
  {
    hide Visited, VisitOf;
  }

  lemma LeftByStep(nodes: seq<Ip>, start: Fleet, h: seq<Run>)
    requires Covered(nodes, h) && h != []
    ensures LeftBy(nodes, start, h) == Outcome(nodes, LeftBy(nodes, start, h[..|h| - 1]), h[|h| - 1]).0
  {
    hide Outcome;
  }

  /** A visiting run finds, picks and leaves what the visits alone do. */
  ghost predicate Replayed<V>(nodes: seq<Ip>, z: Setting<V>, start: Fleet, h: seq<Run>)
    requires nodes != [] && Covered(nodes, h) && h != []
  {
    var visits, left := VisitsOf(nodes, z, start, h), LeftBy(nodes, start, h);
    && visits != [] && Covers(nodes, left.configs)
    && Site(Shown(nodes, z, left.configs), z.stamps(left)) == Replay(nodes, visits)
    && Picked(nodes, z, start, h) == PickAt(nodes, visits)
  }

  lemma StepReplays<V>(nodes: seq<Ip>, z: Setting<V>, start: Fleet, h: seq<Run>)
    requires nodes != [] && Covered(nodes, h) && h != [] && OneRound(nodes, z, LeftBy(nodes, start, h[..|h| - 1]), h[|h| - 1])
    requires z.stamps(LeftBy(nodes, start, h[..|h| - 1])) == Replay(nodes, VisitsOf(nodes, z, start, h[..|h| - 1])).ledger
    ensures z.stamps(LeftBy(nodes, start, h)) == Replay(nodes, VisitsOf(nodes, z, start, h)).ledger
    ensures Visited(nodes, z, start, h) ==> Replayed(nodes, z, start, h)
  {
    var init, w := h[..|h| - 1], h[|h| - 1];
    var before := VisitsOf(nodes, z, start, init);
    LeftByStep(nodes, start, h);
    VisitsStep(nodes, z, start, h);
    hide Replay, PickAt, LeftBy, Outcome, VisitsOf, Round, Pick, Over, Shown;
    if Visited(nodes, z, start, h) {
      ReplayAppend(nodes, before, VisitOf(nodes, z, w));
    } else {
      assert before + [] == before;
    }
  }

  /** Over every history, whatever runs were skipped or raised, the saved entry of a setting is what the
      visits alone leave, and a visiting run finds, picks and leaves what the visits do. */
  lemma {:induction false} Replays<V>(nodes: seq<Ip>, z: Setting<V>, start: Fleet, h: seq<Run>)
    requires nodes != [] && AllProper(nodes, h) && Covered(nodes, h) && Managed(nodes, z) && Unknown(z, start)
    ensures z.stamps(LeftBy(nodes, start, h)) == Replay(nodes, VisitsOf(nodes, z, start, h)).ledger
    ensures h != [] && Visited(nodes, z, start, h) ==> Replayed(nodes, z, start, h)
  {
    if h != [] {
      hide Proper, LeftBy, VisitsOf, Replay, Visited, Replayed, OneRound;
      Replays(nodes, z, start, h[..|h| - 1]);
      assert Proper(nodes, h[|h| - 1]);
      StepReplays(nodes, z, start, h);
    }
  }

  ghost predicate TimesRise(h: seq<Run>)
  {
    forall i, j :: 0 <= i < j < |h| ==> h[i].now < h[j].now
  }

  lemma {:induction false} VisitsInTime<V>(nodes: seq<Ip>, z: Setting<V>, start: Fleet, h: seq<Run>)
    requires Covered(nodes, h) && TimesRise(h)
    ensures InTime(VisitsOf(nodes, z, start, h))
    ensures if h == [] then VisitsOf(nodes, z, start, h) == [] else Until(VisitsOf(nodes, z, start, h), h[|h| - 1].now)
  {
    if h != [] {
      var init := h[..|h| - 1];
      VisitsInTime(nodes, z, start, init);
      VisitsStep(nodes, z, start, h);
      hide VisitsOf, InTime, Until, Visited, Covers, Shown;
      var earlier := if init == [] then h[|h| - 1].now - 1 else init[|init| - 1].now;
      NoneUntil(VisitsOf(nodes, z, start, init), earlier);
      InTimeAppend(VisitsOf(nodes, z, start, init), earlier,
                   if Visited(nodes, z, start, h) then [VisitOf(nodes, z, h[|h| - 1])] else [], h[|h| - 1].now);
    }
  }

  lemma NoneUntil<V>(visits: seq<Visit<V>>, now: int)
    ensures visits == [] ==> Until(visits, now)
  {
  }

  /** Every history: the pick of a visiting run comes from the latest window between two visits in which
      anything changed, where the pushes of a run that raises count as changes. */
  lemma ChangeWins<V>(nodes: seq<Ip>, z: Setting<V>, start: Fleet, h: seq<Run>)
    requires nodes != [] && AllProper(nodes, h) && Covered(nodes, h) && Managed(nodes, z) && Unknown(z, start) && TimesRise(h)
    requires h != [] && Visited(nodes, z, start, h)
    ensures exists k :: FromLatestChange(nodes, VisitsOf(nodes, z, start, h), Picked(nodes, z, start, h), k)
  {
    Replays(nodes, z, start, h);
    assert VisitsOf(nodes, z, start, h) != [] && Picked(nodes, z, start, h) == PickAt(nodes, VisitsOf(nodes, z, start, h));
    hide *;
    VisitsInTime(nodes, z, start, h);
    LatestChangeWins(nodes, VisitsOf(nodes, z, start, h));
  }
}
