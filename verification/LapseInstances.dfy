/** One family of histories each of what goes wrong: a reservation taken off every node and put back on
    one, and a run that raises between two edits of a setting. */
module LapseInstances {
  import opened Common
  import opened Ledger
  import opened Paths
  import opened Reservations
  import opened Ipv4
  import opened MergeRun
  import opened ScalarPaths
  import opened RunHistory
  import opened RunRecency

  const NOTHING := Fleet(map[], map[], map[])

  type Reserved = (string, Reservation)

  function LinesOf(reserved: Option<Reserved>): seq<string>
  {
    match reserved
    case Some(e) => [RenderLine(e)]
    case None => []
  }

  function TableOf(reserved: Option<Reserved>): Table
  {
    match reserved
    case Some(e) => map[e.0 := e.1]
    case None => map[]
  }

  /** A configuration with one setting, and with one reservation or none. */
  function Config(p: Path, setting: Option<Json>, reserved: Option<Reserved>): Value
  {
    SetPath(SetPath(None, p, setting), HOSTS_PATH, Some(Lines(LinesOf(reserved))))
  }

  ghost predicate ScalarPath(p: Path)
  {
    p in SCALAR_PATHS
  }

  lemma ScalarApart(p: Path)
    requires ScalarPath(p)
    ensures Apart(HOSTS_PATH, p)
  {
    HostsApart(p);
  }

  lemma LinesParse(reserved: Option<Reserved>)
    requires reserved.Some? ==> WellFormed(reserved.value.0, reserved.value.1)
    ensures ParseHosts(LinesOf(reserved)) == TableOf(reserved)
  {
    hide WellFormed, RenderLine;
    if reserved.Some? {
      var e := reserved.value;
      ParseRenderedItems([e]);
      assert Map([e], RenderLine) == [RenderLine(e)];
      assert [e][..0] == [];
      assert Dict([e]) == Dict([e][..0])[e.0 := e.1];
    }
  }

  lemma ConfigReads(p: Path, setting: Option<Json>, reserved: Option<Reserved>)
    requires ScalarPath(p) && (reserved.Some? ==> WellFormed(reserved.value.0, reserved.value.1))
    ensures GetPath(Config(p, setting, reserved), p) == Some(setting)
    ensures HostsOf(Config(p, setting, reserved)) == TableOf(reserved)
  {
    hide GetPath, SetPath, Apart, ParseHosts, LinesOf, TableOf, ScalarPath, WellFormed;
    ScalarApart(p);
    LinesParse(reserved);
    var lines := LinesOf(reserved);
    GetSet(None, p, setting);
    GetSet(SetPath(None, p, setting), HOSTS_PATH, Some(Lines(lines)));
    GetSetApart(SetPath(None, p, setting), HOSTS_PATH, p, Some(Lines(lines)));
  }

  /** A run that finds these settings at the path, and the reservation on these nodes. */
  ghost function Scene(nodes: seq<Ip>, p: Path, settings: map<Ip, Option<Json>>, e: Reserved, holders: set<Ip>, now: int): Run
    requires Covers(nodes, settings)
  {
    Run(map ip | ip in nodes :: Config(p, settings[ip], if ip in holders then Some(e) else None), [p], true,
        if exists ip :: ip in nodes && ip in holders then [e.0] else [], now,
        set ip | ip in nodes :: (ip, p), set ip | ip in nodes)
  }

  lemma SceneReads(nodes: seq<Ip>, p: Path, settings: map<Ip, Option<Json>>, e: Reserved, holders: set<Ip>, now: int)
    requires ScalarPath(p) && WellFormed(e.0, e.1) && nodes != [] && Covers(nodes, settings)
    ensures
      var w := Scene(nodes, p, settings, e, holders, now);
      && Proper(nodes, w) && FoundEverywhere(nodes, w.found, p)
      && forall ip :: ip in nodes ==>
           GetPath(w.found[ip], p) == Some(settings[ip]) && HostsOf(w.found[ip]) == (if ip in holders then map[e.0 := e.1] else map[])
  {
    hide Config, GetPath, HostsOf, WellFormed, ScalarPath;
    var w := Scene(nodes, p, settings, e, holders, now);
    forall ip | ip in nodes
      ensures GetPath(w.found[ip], p) == Some(settings[ip]) && HostsOf(w.found[ip]) == (if ip in holders then map[e.0 := e.1] else map[])
    {
      ConfigReads(p, settings[ip], if ip in holders then Some(e) else None);
    }
    ListedInScene(nodes, w, e, holders);
    OnlyScalar(p);
  }

  lemma OnlyScalar(p: Path)
    requires ScalarPath(p)
    ensures Distinct([p]) && forall q :: q in [p] ==> q in SCALAR_PATHS
  {
  }

  lemma ListedInScene(nodes: seq<Ip>, w: Run, e: Reserved, holders: set<Ip>)
    requires Covers(nodes, w.found)
    requires forall ip :: ip in nodes ==> HostsOf(w.found[ip]) == (if ip in holders then map[e.0 := e.1] else map[])
    requires w.macs == if exists ip :: ip in nodes && ip in holders then [e.0] else []
    ensures ListsAllMacs(w.macs, nodes, NodeHosts(nodes, w.found))
  {
    hide HostsOf;
    var tables := NodeHosts(nodes, w.found);
    forall mac | mac in w.macs ensures exists ip :: ip in nodes && mac in tables[ip] {
      var ip :| ip in nodes && ip in holders;
      assert mac in tables[ip];
    }
  }

  // --- A reservation taken off every node and put back on one ---

  /** Both nodes have it; neither; the first has it again. */
  ghost function PutBack(a: Ip, b: Ip, p: Path, x: Option<Json>, e: Reserved, t1: int, t2: int, t3: int): (h: seq<Run>)
    ensures Covered([a, b], h)
  {
    var settings := map[a := x, b := x];
    [Scene([a, b], p, settings, e, {a, b}, t1), Scene([a, b], p, settings, e, {}, t2), Scene([a, b], p, settings, e, {a}, t3)]
  }

  lemma RoundOfTwo<V>(a: Ip, b: Ip, s: Site<V>, t: int, accepts: set<Ip>, v: Option<V>)
    requires a != b && s == Site(map[a := v, b := v], map[])
    ensures Round([a, b], s, t, accepts).ledger == map[a := Entry(v, t), b := Entry(v, t)]
  {
    var nodes := [a, b];
    assert nodes[0] == a && nodes[1] == b;
  }

  /** One node has its recorded value again, the other has lost it. */
  lemma AbsenceOfTwo<V>(a: Ip, b: Ip, s: Site<V>, t: int, t3: int, accepts: set<Ip>, v: V)
    requires a != b && t < t3 && s == Site(map[a := Some(v), b := None], map[a := Entry(Some(v), t), b := Entry(Some(v), t)])
    ensures Pick([a, b], s, t3) == Entry(None, t3)
    ensures a in accepts ==> Round([a, b], s, t3, accepts).values[a] == None
  {
    var nodes := [a, b];
    assert nodes[0] == a && nodes[1] == b;
  }

  /** What such runs find of the mac is all that matters. */
  ghost predicate FindsMac(a: Ip, b: Ip, w: Run, mac: string, atA: Option<Reservation>, atB: Option<Reservation>)
  {
    && Proper([a, b], w) && w.hostsEnabled && (forall f :: Outcome([a, b], f, w).1)
    && Shown([a, b], MacSetting(mac), w.found) == map[a := atA, b := atB]
    && (mac in w.macs <==> atA.Some? || atB.Some?)
  }

  lemma FirstSaved(a: Ip, b: Ip, w: Run, mac: string, r: Reservation)
    requires a != b && FindsMac(a, b, w, mac, Some(r), Some(r))
    ensures Get(Outcome([a, b], NOTHING, w).0.hosts, mac).GetOr(map[]) == map[a := Entry(Some(r), w.now), b := Entry(Some(r), w.now)]
  {
    hide HostsOf, Outcome, ListsAllMacs, Round, NodeHosts, Shown;
    var nodes := [a, b];
    SavedMacIsRound(nodes, NOTHING, w, mac);
    MacSiteIs(nodes, NOTHING, w.found, mac);
    RoundOfTwo(a, b, MacSite(nodes, NodeHosts(nodes, w.found), NOTHING.hosts, mac), w.now, w.acceptsTable, Some(r));
  }

  lemma ThirdPicks(a: Ip, b: Ip, f: Fleet, w: Run, mac: string, r: Reservation, t: int)
    requires a != b && FindsMac(a, b, w, mac, Some(r), None) && t < w.now && a in w.acceptsTable
    requires Get(f.hosts, mac).GetOr(map[]) == map[a := Entry(Some(r), t), b := Entry(Some(r), t)]
    ensures Pick([a, b], MacSite([a, b], NodeHosts([a, b], w.found), f.hosts, mac), w.now) == Entry(None, w.now)
    ensures MacValue(ConfigAt(Outcome([a, b], f, w).0.configs, a), mac) == None
  {
    hide HostsOf, Outcome, ListsAllMacs, Round, Shown, Pick;
    var nodes := [a, b];
    SavedMacIsRound(nodes, f, w, mac);
    MacSiteIs(nodes, f, w.found, mac);
    var s, r' := MacSite(nodes, NodeHosts(nodes, w.found), f.hosts, mac), Outcome(nodes, f, w).0;
    AbsenceOfTwo(a, b, s, t, w.now, w.acceptsTable, r);
    assert a in nodes;
    assert MacSite(nodes, NodeHosts(nodes, r'.configs), r'.hosts, mac).values[a] == MacValue(r'.configs[a], mac);
  }

  lemma SceneFinds(a: Ip, b: Ip, p: Path, x: Option<Json>, e: Reserved, holders: set<Ip>, t: int)
    requires a != b && ScalarPath(p) && WellFormed(e.0, e.1) && ValidIp(e.1.ip)
    ensures
      var w := Scene([a, b], p, map[a := x, b := x], e, holders, t);
      && FindsMac(a, b, w, e.0, if a in holders then Some(e.1) else None, if b in holders then Some(e.1) else None)
      && w.acceptsTable == {a, b} && w.now == t
  {
    hide Config, GetPath, HostsOf, ValidIp, ScalarPath, WellFormed, Outcome, ListsAllMacs, FoundEverywhere;
    var nodes, w := [a, b], Scene([a, b], p, map[a := x, b := x], e, holders, t);
    SceneReads(nodes, p, map[a := x, b := x], e, holders, t);
    AddressedScene(nodes, w, e);
    assert a in nodes && b in nodes && forall ip :: ip in nodes ==> ip == a || ip == b;
    hide Proper;
    VisitOfTwo(a, b, w, e, holders);
  }

  lemma VisitOfTwo(a: Ip, b: Ip, w: Run, e: Reserved, holders: set<Ip>)
    requires a != b && Covers([a, b], w.found)
    requires forall ip :: ip in [a, b] ==> HostsOf(w.found[ip]) == (if ip in holders then map[e.0 := e.1] else map[])
    ensures Shown([a, b], MacSetting(e.0), w.found) == map[a := if a in holders then Some(e.1) else None, b := if b in holders then Some(e.1) else None]
  {
    hide HostsOf;
    assert a in [a, b] && b in [a, b] && forall ip :: ip in [a, b] ==> ip == a || ip == b;
  }

  lemma AddressedScene(nodes: seq<Ip>, w: Run, e: Reserved)
    requires Proper(nodes, w) && |nodes| >= 2 && w.hostsEnabled
    requires forall ip :: ip in nodes ==> HostsOf(w.found[ip]) == map[] || (ValidIp(e.1.ip) && HostsOf(w.found[ip]) == map[e.0 := e.1])
    ensures forall f :: Outcome(nodes, f, w).1
  {
    hide HostsOf, ValidIp, Outcome, ListsAllMacs;
    assert Addressed(nodes, w);
    forall f ensures Outcome(nodes, f, w).1 {
      AddressedRunSaves(nodes, f, w);
    }
  }

  lemma ThreeRuns(nodes: seq<Ip>, w1: Run, w2: Run, w3: Run)
    requires Covers(nodes, w1.found) && Covers(nodes, w2.found) && Covers(nodes, w3.found)
    ensures
      var h := [w1, w2, w3];
      && Covered(nodes, h) && h[..2] == [w1, w2] && h[..1] == [w1] && h[..3] == h
      && LeftBy(nodes, NOTHING, h[..1]) == Outcome(nodes, NOTHING, w1).0
      && LeftBy(nodes, NOTHING, h[..2]) == Outcome(nodes, Outcome(nodes, NOTHING, w1).0, w2).0
      && LeftBy(nodes, NOTHING, h) == Outcome(nodes, Outcome(nodes, Outcome(nodes, NOTHING, w1).0, w2).0, w3).0
  {
    hide Outcome;
    var h := [w1, w2, w3];
    assert h[..2] == [w1, w2] && [w1, w2][..1] == [w1] && [w1][..0] == [];
    LeftByStep(nodes, NOTHING, h);
    LeftByStep(nodes, NOTHING, [w1, w2]);
    LeftByStep(nodes, NOTHING, [w1]);
  }

  lemma ShownIs<V>(nodes: seq<Ip>, z: Setting<V>, configs: map<Ip, Value>)
    requires Covers(nodes, configs)
    ensures forall ip :: ip in nodes ==> ip in Shown(nodes, z, configs) && Shown(nodes, z, configs)[ip] == z.shows(ConfigAt(configs, ip))
  {
  }

  lemma NoValue(configs: map<Ip, Value>, ip: Ip, mac: string)
    requires ip in configs && mac !in HostsOf(configs[ip])
    ensures MacValue(ConfigAt(configs, ip), mac) == None
  {
    hide HostsOf;
  }

  lemma ThreeProper(nodes: seq<Ip>, w1: Run, w2: Run, w3: Run)
    requires Proper(nodes, w1) && Proper(nodes, w2) && Proper(nodes, w3) && w1.now < w2.now < w3.now
    ensures AllProper(nodes, [w1, w2, w3]) && TimesRise([w1, w2, w3])
  {
    hide Proper;
  }

  lemma TwoThenNoneThenOne(a: Ip, b: Ip, w1: Run, w2: Run, w3: Run, mac: string, r: Reservation)
    requires a != b && FindsMac(a, b, w1, mac, Some(r), Some(r)) && FindsMac(a, b, w2, mac, None, None) && FindsMac(a, b, w3, mac, Some(r), None)
    requires w1.now < w2.now < w3.now && a in w3.acceptsTable
    ensures
      var nodes, h := [a, b], [w1, w2, w3];
      && AllProper(nodes, h) && Covered(nodes, h) && TimesRise(h)
      && FoundAt(MacSetting(mac), h, 2, a) == Some(r) && Edited(nodes, MacSetting(mac), NOTHING, h, 2, a)
      && Picked(nodes, MacSetting(mac), NOTHING, h) == Entry(None, w3.now)
      && MacValue(ConfigAt(LeftBy(nodes, NOTHING, h).configs, a), mac) == None
  {
    hide HostsOf, Outcome, ListsAllMacs, LeftBy, Pick, NodeHosts, Shown, MacValue;
    var nodes, h := [a, b], [w1, w2, w3];
    assert Proper(nodes, w1) && Proper(nodes, w2) && Proper(nodes, w3) && a in nodes;
    ThreeProper(nodes, w1, w2, w3);
    hide AllProper, TimesRise, Proper;
    ThreeRuns(nodes, w1, w2, w3);
    var f1 := Outcome(nodes, NOTHING, w1).0;
    var f2 := Outcome(nodes, f1, w2).0;
    FirstSaved(a, b, w1, mac, r);
    OtherMacKept(nodes, f1, w2, mac);
    UnlistedStaysAway(nodes, f1, w2, mac, a);
    NoValue(f2.configs, a, mac);
    ThirdPicks(a, b, f2, w3, mac, r, w1.now);
    MacSiteIs(nodes, f2, w3.found, mac);
    ShownIs(nodes, MacSetting(mac), w3.found);
  }

  /** The one edit before run 3 puts the reservation back on the first node, unchanged; the absence on the
      other wins, and the run takes the reservation off the first node again. */
  lemma PutBackIsLost(a: Ip, b: Ip, p: Path, x: Option<Json>, e: Reserved, t1: int, t2: int, t3: int)
    requires a != b && ScalarPath(p) && WellFormed(e.0, e.1) && ValidIp(e.1.ip) && t1 < t2 < t3
    ensures
      var nodes, h := [a, b], PutBack(a, b, p, x, e, t1, t2, t3);
      && AllProper(nodes, h) && TimesRise(h)
      && FoundAt(MacSetting(e.0), h, 2, a) == Some(e.1) && Edited(nodes, MacSetting(e.0), NOTHING, h, 2, a)
      && Picked(nodes, MacSetting(e.0), NOTHING, h) == Entry(None, t3)
      && MacValue(ConfigAt(LeftBy(nodes, NOTHING, h).configs, a), e.0) == None
  {
    var h := PutBack(a, b, p, x, e, t1, t2, t3);
    SceneFinds(a, b, p, x, e, {a, b}, t1);
    SceneFinds(a, b, p, x, e, {}, t2);
    SceneFinds(a, b, p, x, e, {a}, t3);
    hide *;
    TwoThenNoneThenOne(a, b, h[0], h[1], h[2], e.0, e.1);
  }

  // --- A run that raises between two edits ---

  /** What such runs find at the path is all that matters. */
  ghost predicate FindsPath(a: Ip, b: Ip, c: Ip, w: Run, p: Path, x: Option<Json>, y: Option<Json>, z: Option<Json>)
    ensures FindsPath(a, b, c, w, p, x, y, z) ==> Covers([a, b, c], w.found)
  {
    var nodes := [a, b, c];
    && Proper(nodes, w) && p in w.enabled && FoundEverywhere(nodes, w.found, p)
    && Shown(nodes, PathSetting(p), w.found) == map[a := x, b := y, c := z]
    && forall ip :: ip in nodes ==> (ip, p) in w.accepts
  }

  /** The first node has a reservation without a valid address, the others have none of that mac. */
  ghost predicate HoldsBad(a: Ip, b: Ip, c: Ip, w: Run, mac: string, r: Reservation)
  {
    && w.hostsEnabled && !ValidIp(r.ip) && MacValue(ConfigAt(w.found, a), mac) == Some(r)
    && MacValue(ConfigAt(w.found, b), mac) == None && MacValue(ConfigAt(w.found, c), mac) == None
  }

  /** The mac is on no node, and every reservation has a valid address. */
  ghost predicate HoldsNone(a: Ip, b: Ip, c: Ip, w: Run, mac: string)
    requires Covers([a, b, c], w.found)
  {
    w.hostsEnabled && Addressed([a, b, c], w) && mac !in w.macs
  }

  lemma RoundOfThree<V>(a: Ip, b: Ip, c: Ip, s: Site<V>, t: int, accepts: set<Ip>, v: Option<V>)
    requires a != b && b != c && a != c && s == Site(map[a := v, b := v, c := v], map[])
    ensures Round([a, b, c], s, t, accepts).ledger == map[a := Entry(v, t), b := Entry(v, t), c := Entry(v, t)]
  {
    var nodes := [a, b, c];
    assert nodes[0] == a && nodes[1] == b && nodes[2] == c;
  }

  /** The first node was edited: its value is pushed to the others. */
  lemma RoundPushes<V>(nodes: seq<Ip>, s: Site<V>, now: int, accepts: set<Ip>)
    requires nodes != [] && Covers(nodes, s.values)
    ensures Round(nodes, s, now, accepts).values
         == map ip | ip in s.values :: if ip in nodes && ip in accepts then Pick(nodes, s, now).value else s.values[ip]
  {
    hide Winner, Observe;
  }

  lemma ThreeAlike<V>(m: map<Ip, V>, a: Ip, b: Ip, c: Ip, v: V)
    requires m.Keys == {a, b, c} && m[a] == v && m[b] == v && m[c] == v
    ensures m == map[a := v, b := v, c := v]
  {
  }

  lemma PushOfThree<V>(a: Ip, b: Ip, c: Ip, s: Site<V>, t1: int, t2: int, accepts: set<Ip>, old_: Option<V>, v: V)
    requires a != b && b != c && a != c && t1 < t2 && old_ != Some(v) && b in accepts && c in accepts
    requires s == Site(map[a := Some(v), b := old_, c := old_], map[a := Entry(old_, t1), b := Entry(old_, t1), c := Entry(old_, t1)])
    ensures Round([a, b, c], s, t2, accepts).values == map[a := Some(v), b := Some(v), c := Some(v)]
  {
    var nodes := [a, b, c];
    var r, w := Round(nodes, s, t2, accepts).values, Pick(nodes, s, t2);
    assert a in nodes && b in nodes && c in nodes by {
      assert nodes[0] == a && nodes[1] == b && nodes[2] == c;
    }
    assert w.value == Some(v) by {
      LoneChangeWins(nodes, s, t2, a);
    }
    RoundPushes(nodes, s, t2, accepts);
    hide *;
    assert r.Keys == {a, b, c} && r[a] == r[b] == r[c] == Some(v);
    ThreeAlike(r, a, b, c, Some(v));
  }

  /** All three differ from the ledger: the first of them wins. */
  lemma PickOfThree<V>(a: Ip, b: Ip, c: Ip, s: Site<V>, t1: int, t3: int, old_: Option<V>, v: V, z: Option<V>)
    requires a != b && b != c && a != c && t1 < t3 && old_ != Some(v) && old_ != z
    requires s == Site(map[a := Some(v), b := Some(v), c := z], map[a := Entry(old_, t1), b := Entry(old_, t1), c := Entry(old_, t1)])
    ensures Pick([a, b, c], s, t3) == Entry(Some(v), t3)
  {
    var nodes := [a, b, c];
    assert nodes[0] == a && nodes[1] == b && nodes[2] == c;
  }

  lemma FirstSavedPath(a: Ip, b: Ip, c: Ip, w: Run, p: Path, x: Option<Json>)
    requires a != b && b != c && a != c && FindsPath(a, b, c, w, p, x, x, x) && Outcome([a, b, c], NOTHING, w).1
    ensures Get(Outcome([a, b, c], NOTHING, w).0.scalars, p).GetOr(map[]) == map[a := Entry(x, w.now), b := Entry(x, w.now), c := Entry(x, w.now)]
  {
    hide Outcome, ListsAllMacs, Round, Shown, GetPath, FoundEverywhere;
    var nodes := [a, b, c];
    SavedPathIsRound(nodes, NOTHING, w, p);
    PathSiteIs(nodes, NOTHING, w.found, p);
    RoundOfThree(a, b, c, PathSite(nodes, w.found, NOTHING.scalars, p), w.now, Accepting(nodes, w.accepts, p), x);
  }

  /** A run that raises has pushed all the same. */
  lemma RaisedHasPushed(nodes: seq<Ip>, f: Fleet, w: Run, p: Path)
    requires Proper(nodes, w) && |nodes| >= 2 && w.hostsEnabled && p in w.enabled && FoundEverywhere(nodes, w.found, p)
    requires !Outcome(nodes, f, w).1
    ensures
      var r := Outcome(nodes, f, w).0;
      && r.scalars == f.scalars && r.hosts == f.hosts && Covers(nodes, r.configs)
      && forall ip :: ip in nodes ==>
           PathValue(ConfigAt(r.configs, ip), p)
           == Round(nodes, PathSite(nodes, w.found, f.scalars, p), w.now, Accepting(nodes, w.accepts, p)).values[ip]
  {
    hide ScalarRun, HostRun, FoundEverywhere, ListsAllMacs, Round, GetPath, Under;
    var g := f.(configs := w.found);
    EnabledPathsApart(w.enabled);
    ScalarRunIsRound(nodes, w.enabled, g, w.now, w.accepts, p);
    ReadsAsSite(nodes, ScalarRun(nodes, w.found, w.enabled, g, w.now, w.accepts), p);
  }

  lemma ReadsAsSite(nodes: seq<Ip>, f: Fleet, p: Path)
    requires Covers(nodes, f.configs)
    ensures forall ip :: ip in nodes ==> PathValue(ConfigAt(f.configs, ip), p) == PathSite(nodes, f.configs, f.scalars, p).values[ip]
  {
    hide GetPath;
  }

  lemma BadItem(nodes: seq<Ip>, tables: map<Ip, Table>, hosts: map<string, Stamps<Reservation>>, macs: seq<string>, now: int,
                mac: string, r: Reservation, with_: Ip)
    requires nodes != [] && Covers(nodes, tables) && ListsAllMacs(macs, nodes, tables) && mac !in hosts
    requires with_ in nodes && mac in tables[with_]
    requires forall ip :: ip in nodes && mac in tables[ip] ==> tables[ip][mac] == r
    ensures (mac, r) in MergedItems(nodes, tables, hosts, macs, now) && mac in Dict(MergedItems(nodes, tables, hosts, macs, now))
  {
    NewMacSurvives(nodes, tables, hosts, macs, now, mac);
    MergedIsWinners(nodes, tables, hosts, macs, now);
    var s := MacSite(nodes, tables, hosts, mac);
    var held := WinnerIsHeld(nodes, s, now);
    assert s.values[held] == Get(tables[held], mac);
    hide MergedItems, Pick;
    DictItem(MergedItems(nodes, tables, hosts, macs, now), mac);
  }

  lemma NotAddressed(items: seq<(string, Reservation)>, e: (string, Reservation))
    requires e in items && !ValidIp(e.1.ip)
    ensures !AllAddressed(items)
  {
    hide ValidIp;
  }

  /** A new reservation without a valid address, on one node only, makes the run raise. */
  lemma BadReservationRaises(a: Ip, b: Ip, c: Ip, f: Fleet, w: Run, mac: string, r: Reservation)
    requires Proper([a, b, c], w) && HoldsBad(a, b, c, w, mac, r) && mac !in f.hosts
    ensures !Outcome([a, b, c], f, w).1
  {
    hide HostsOf, Outcome, ValidIp, MergedItems, AllAddressed, ListsAllMacs;
    var nodes := [a, b, c];
    var tables := NodeHosts(nodes, w.found);
    var items := MergedItems(nodes, tables, f.hosts, w.macs, w.now);
    assert a in nodes && b in nodes && c in nodes && forall ip :: ip in nodes ==> ip == a || ip == b || ip == c;
    assert mac in tables[a] && mac !in tables[b];
    BadItem(nodes, tables, f.hosts, w.macs, w.now, mac, r, a);
    NotAddressed(items, (mac, r));
    RaisesIff(nodes, f, w);
    assert tables[b] != Dict(items);
  }

  lemma SecondRaises(a: Ip, b: Ip, c: Ip, w1: Run, w2: Run, p: Path, old_: Option<Json>, v: Json, mac: string, r: Reservation)
    requires a != b && b != c && a != c && old_ != Some(v) && w1.now < w2.now
    requires FindsPath(a, b, c, w1, p, old_, old_, old_) && FindsPath(a, b, c, w2, p, Some(v), old_, old_)
    requires Outcome([a, b, c], NOTHING, w1).1 && mac !in w1.macs && HoldsBad(a, b, c, w2, mac, r)
    ensures
      var nodes, f1 := [a, b, c], Outcome([a, b, c], NOTHING, w1).0;
      var f2 := Outcome(nodes, f1, w2).0;
      && !Outcome(nodes, f1, w2).1 && f2.scalars == f1.scalars && mac !in f2.hosts
      && PathValue(ConfigAt(f2.configs, a), p) == Some(v) && PathValue(ConfigAt(f2.configs, b), p) == Some(v)
      && PathValue(ConfigAt(f2.configs, c), p) == Some(v)
  {
    FirstSavedPath(a, b, c, w1, p, old_);
    hide Outcome, ListsAllMacs, Shown, GetPath, PathValue, Round, FoundEverywhere, HostsOf, ConfigAt;
    var nodes, f1 := [a, b, c], Outcome([a, b, c], NOTHING, w1).0;
    OtherMacKept(nodes, NOTHING, w1, mac);
    BadReservationRaises(a, b, c, f1, w2, mac, r);
    RaisedHasPushed(nodes, f1, w2, p);
    PathSiteIs(nodes, f1, w2.found, p);
    assert a in nodes && b in nodes && c in nodes;
    PushOfThree(a, b, c, PathSite(nodes, w2.found, f1.scalars, p), w1.now, w2.now, Accepting(nodes, w2.accepts, p), old_, v);
  }

  lemma ThirdPicksFirst(a: Ip, b: Ip, c: Ip, f: Fleet, w: Run, p: Path, t: int, old_: Option<Json>, v: Json, z: Option<Json>)
    requires a != b && b != c && a != c && old_ != Some(v) && old_ != z && t < w.now
    requires FindsPath(a, b, c, w, p, Some(v), Some(v), z)
    requires Get(f.scalars, p).GetOr(map[]) == map[a := Entry(old_, t), b := Entry(old_, t), c := Entry(old_, t)]
    ensures Pick([a, b, c], PathSite([a, b, c], w.found, f.scalars, p), w.now) == Entry(Some(v), w.now)
  {
    hide ListsAllMacs, Shown, FoundEverywhere, Pick, PathSite;
    PathSiteIs([a, b, c], f, w.found, p);
    PickOfThree(a, b, c, PathSite([a, b, c], w.found, f.scalars, p), t, w.now, old_, v, z);
  }

  lemma FoundProper(a: Ip, b: Ip, c: Ip, w: Run, p: Path, x: Option<Json>, y: Option<Json>, z: Option<Json>)
    requires FindsPath(a, b, c, w, p, x, y, z)
    ensures Proper([a, b, c], w) && Shown([a, b, c], PathSetting(p), w.found) == map[a := x, b := y, c := z]
  {
    hide Proper, Shown, FoundEverywhere;
  }

  lemma FoundOfThree(a: Ip, b: Ip, c: Ip, w: Run, p: Path, x: Option<Json>, y: Option<Json>, z: Option<Json>)
    requires a != b && b != c && a != c && Covers([a, b, c], w.found)
    requires Shown([a, b, c], PathSetting(p), w.found) == map[a := x, b := y, c := z]
    ensures PathValue(ConfigAt(w.found, a), p) == x && PathValue(ConfigAt(w.found, b), p) == y && PathValue(ConfigAt(w.found, c), p) == z
  {
    var nodes := [a, b, c];
    assert nodes[0] == a && nodes[1] == b && nodes[2] == c;
    hide *;
    ShownIs(nodes, PathSetting(p), w.found);
    ReadsOff(nodes, map[a := x, b := y, c := z], w, p, a);
    ReadsOff(nodes, map[a := x, b := y, c := z], w, p, b);
    ReadsOff(nodes, map[a := x, b := y, c := z], w, p, c);
  }

  lemma ReadsOff(nodes: seq<Ip>, values: Values<Json>, w: Run, p: Path, ip: Ip)
    requires ip in nodes && forall i :: i in nodes ==> i in values && values[i] == PathValue(ConfigAt(w.found, i), p)
    ensures ip in values && values[ip] == PathValue(ConfigAt(w.found, ip), p)
  {
    hide *;
  }

  lemma InProper(a: Ip, b: Ip, c: Ip, w: Run, p: Path, x: Option<Json>, y: Option<Json>, z: Option<Json>)
    requires a != b && b != c && a != c && FindsPath(a, b, c, w, p, x, y, z)
    ensures Proper([a, b, c], w) && Covers([a, b, c], w.found)
    ensures PathValue(ConfigAt(w.found, a), p) == x && PathValue(ConfigAt(w.found, b), p) == y && PathValue(ConfigAt(w.found, c), p) == z
  {
    hide *;
    FoundProper(a, b, c, w, p, x, y, z);
    FoundOfThree(a, b, c, w, p, x, y, z);
  }

  lemma HistoryOfThree(nodes: seq<Ip>, w1: Run, w2: Run, w3: Run)
    requires Proper(nodes, w1) && Proper(nodes, w2) && Proper(nodes, w3) && w1.now < w2.now < w3.now
    ensures AllProper(nodes, [w1, w2, w3]) && TimesRise([w1, w2, w3])
  {
    hide Proper;
  }

  lemma PathMet(nodes: seq<Ip>, h: seq<Run>, p: Path)
    requires nodes != [] && Covered(nodes, h) && h != []
    ensures Met(nodes, PathSetting(p), NOTHING, h) == PathSite(nodes, h[|h| - 1].found, LeftBy(nodes, NOTHING, h[..|h| - 1]).scalars, p)
  {
    hide LeftBy;
  }

  lemma SavesOfThree(nodes: seq<Ip>, w1: Run, w2: Run, w3: Run, p: Path)
    requires nodes != [] && Covers(nodes, w1.found) && Covers(nodes, w2.found) && Covers(nodes, w3.found)
    ensures
      var h, f1 := [w1, w2, w3], Outcome(nodes, NOTHING, w1).0;
      && Covered(nodes, h) && Covered(nodes, h[..2]) && Saves(nodes, NOTHING, h[..2]) == Outcome(nodes, f1, w2).1
      && Picked(nodes, PathSetting(p), NOTHING, h) == Pick(nodes, PathSite(nodes, w3.found, Outcome(nodes, f1, w2).0.scalars, p), w3.now)
  {
    hide Outcome, LeftBy, Pick;
    ThreeRuns(nodes, w1, w2, w3);
    var h := [w1, w2, w3];
    assert h[..2] == [w1, w2] && h[..2][..1] == [w1] == h[..1];
    PathMet(nodes, h, p);
    hide PathSite;
  }

  lemma EditsOfThree(a: Ip, b: Ip, c: Ip, h: seq<Run>, p: Path, v: Json, z: Option<Json>)
    requires z != Some(v) && |h| == 3 && Covered([a, b, c], h)
    requires FoundAt(PathSetting(p), h, 2, a) == Some(v) && FoundAt(PathSetting(p), h, 2, b) == Some(v) && FoundAt(PathSetting(p), h, 2, c) == z
    requires forall ip :: ip in [a, b, c] ==> LeftAt([a, b, c], PathSetting(p), NOTHING, h, 2, ip) == Some(v)
    ensures !Edited([a, b, c], PathSetting(p), NOTHING, h, 2, a) && !Edited([a, b, c], PathSetting(p), NOTHING, h, 2, b)
    ensures Edited([a, b, c], PathSetting(p), NOTHING, h, 2, c)
  {
    hide FoundAt, LeftAt;
    var nodes := [a, b, c];
    assert a in nodes && b in nodes && c in nodes;
  }

  /** The first run saves the old value everywhere; the second finds the first node edited, pushes its
      value and raises on the reservation; before the third the last node alone is edited. */
  ghost predicate RaisesBetween(a: Ip, b: Ip, c: Ip, h: seq<Run>, p: Path, old_: Option<Json>, v: Json, z: Option<Json>, e: Reserved)
    requires |h| == 3 && Covered([a, b, c], h)
  {
    && FindsPath(a, b, c, h[0], p, old_, old_, old_) && FindsPath(a, b, c, h[1], p, Some(v), old_, old_)
    && FindsPath(a, b, c, h[2], p, Some(v), Some(v), z) && h[0].now < h[1].now < h[2].now
    && HoldsNone(a, b, c, h[0], e.0) && HoldsBad(a, b, c, h[1], e.0, e.1) && HoldsBad(a, b, c, h[2], e.0, e.1)
  }

  /** The older edit wins, and the third run writes it over the newer one. */
  ghost predicate NewerIsLost(a: Ip, b: Ip, c: Ip, h: seq<Run>, p: Path, v: Json)
    requires |h| == 3 && Covered([a, b, c], h)
  {
    var nodes := [a, b, c];
    && AllProper(nodes, h) && TimesRise(h) && !Saves(nodes, NOTHING, h[..2])
    && !Edited(nodes, PathSetting(p), NOTHING, h, 2, a) && !Edited(nodes, PathSetting(p), NOTHING, h, 2, b) && Edited(nodes, PathSetting(p), NOTHING, h, 2, c)
    && Picked(nodes, PathSetting(p), NOTHING, h) == Entry(Some(v), h[2].now)
    && PathValue(ConfigAt(LeftBy(nodes, NOTHING, h).configs, c), p) == Some(v)
  }

  lemma LastWritten(a: Ip, b: Ip, c: Ip, f: Fleet, w: Run, p: Path, y: Option<Json>, z: Option<Json>, v: Json, mac: string, r: Reservation)
    requires a != b && b != c && a != c && mac !in f.hosts
    requires FindsPath(a, b, c, w, p, y, y, z) && HoldsBad(a, b, c, w, mac, r)
    requires Pick([a, b, c], PathSite([a, b, c], w.found, f.scalars, p), w.now) == Entry(Some(v), w.now)
    ensures PathValue(ConfigAt(Outcome([a, b, c], f, w).0.configs, c), p) == Some(v)
  {
    hide Outcome, ListsAllMacs, Shown, GetPath, PathValue, FoundEverywhere, HostsOf, ConfigAt, PathSite, Pick;
    var nodes := [a, b, c];
    BadReservationRaises(a, b, c, f, w, mac, r);
    RaisedHasPushed(nodes, f, w, p);
    assert c in nodes && c in Accepting(nodes, w.accepts, p);
    PushedReads(nodes, PathSite(nodes, w.found, f.scalars, p), w.now, Accepting(nodes, w.accepts, p), c);
  }

  lemma PushedReads<V>(nodes: seq<Ip>, s: Site<V>, now: int, accepts: set<Ip>, ip: Ip)
    requires nodes != [] && Covers(nodes, s.values) && ip in nodes && ip in accepts
    ensures Round(nodes, s, now, accepts).values[ip] == Pick(nodes, s, now).value
  {
  }

  lemma FirstSaves(a: Ip, b: Ip, c: Ip, w: Run, p: Path, x: Option<Json>, mac: string)
    requires FindsPath(a, b, c, w, p, x, x, x) && HoldsNone(a, b, c, w, mac)
    ensures Outcome([a, b, c], NOTHING, w).1 && mac !in w.macs
  {
    hide Outcome, ListsAllMacs, FoundEverywhere, Shown, Addressed;
    AddressedRunSaves([a, b, c], NOTHING, w);
  }

  lemma OlderEditWins(a: Ip, b: Ip, c: Ip, h: seq<Run>, p: Path, old_: Option<Json>, v: Json, z: Option<Json>, e: Reserved)
    requires a != b && b != c && a != c && old_ != Some(v) && old_ != z && z != Some(v)
    requires |h| == 3 && Covered([a, b, c], h) && RaisesBetween(a, b, c, h, p, old_, v, z, e)
    ensures NewerIsLost(a, b, c, h, p, v)
  {
    hide LeftBy, Outcome, Shown, PathValue, GetPath, ConfigAt, Round, FoundEverywhere, HoldsBad, HoldsNone, FindsPath;
    hide Proper, Pick, Picked, PathSite, Saves, Edited;
    var nodes, w1, w2, w3 := [a, b, c], h[0], h[1], h[2];
    assert h == [w1, w2, w3];
    FirstSaves(a, b, c, w1, p, old_, e.0);
    InProper(a, b, c, w1, p, old_, old_, old_);
    InProper(a, b, c, w2, p, Some(v), old_, old_);
    InProper(a, b, c, w3, p, Some(v), Some(v), z);
    HistoryOfThree(nodes, w1, w2, w3);
    var f1 := Outcome(nodes, NOTHING, w1).0;
    var f2 := Outcome(nodes, f1, w2).0;
    FirstSavedPath(a, b, c, w1, p, old_);
    SecondRaises(a, b, c, w1, w2, p, old_, v, e.0, e.1);
    ThirdPicksFirst(a, b, c, f2, w3, p, w1.now, old_, v, z);
    LastWritten(a, b, c, f2, w3, p, Some(v), z, v, e.0, e.1);
    SavesOfThree(nodes, w1, w2, w3, p);
    ThreeRuns(nodes, w1, w2, w3);
    EditsOfThree(a, b, c, h, p, v, z);
  }

  /** Such runs exist: a setting on all three nodes, and a reservation on the first that the first run does
      not find. */
  ghost function RaiseBetween(a: Ip, b: Ip, c: Ip, p: Path, old_: Option<Json>, v: Json, z: Option<Json>, e: Reserved,
                              t1: int, t2: int, t3: int): (h: seq<Run>)
    ensures Covered([a, b, c], h)
  {
    var nodes := [a, b, c];
    [Scene(nodes, p, map[a := old_, b := old_, c := old_], e, {}, t1),
     Scene(nodes, p, map[a := Some(v), b := old_, c := old_], e, {a}, t2),
     Scene(nodes, p, map[a := Some(v), b := Some(v), c := z], e, {a}, t3)]
  }

  lemma SceneFindsPath(a: Ip, b: Ip, c: Ip, p: Path, x: Option<Json>, y: Option<Json>, z: Option<Json>, e: Reserved, holders: set<Ip>, now: int)
    requires a != b && b != c && a != c && ScalarPath(p) && WellFormed(e.0, e.1)
    ensures
      var w := Scene([a, b, c], p, map[a := x, b := y, c := z], e, holders, now);
      && FindsPath(a, b, c, w, p, x, y, z) && w.now == now
      && (holders == {} ==> HoldsNone(a, b, c, w, e.0))
      && (holders == {a} && !ValidIp(e.1.ip) ==> HoldsBad(a, b, c, w, e.0, e.1))
  {
    hide *;
    SettingsOfThree(a, b, c, x, y, z);
    var nodes, settings := [a, b, c], map[a := x, b := y, c := z];
    SceneParts(nodes, p, settings, e, holders, now, Scene(nodes, p, settings, e, holders, now));
    FindsFromParts(a, b, c, Scene(nodes, p, settings, e, holders, now), p, x, y, z);
    HoldsFromParts(a, b, c, Scene(nodes, p, settings, e, holders, now), e, holders);
  }

  lemma SettingsOfThree<V>(a: Ip, b: Ip, c: Ip, x: V, y: V, z: V)
    ensures Covers([a, b, c], map[a := x, b := y, c := z]) && Tight([a, b, c], map[a := x, b := y, c := z])
  {
  }

  ghost predicate Tight<V>(nodes: seq<Ip>, settings: map<Ip, V>)
  {
    settings.Keys == set ip | ip in nodes
  }

  lemma SceneParts(nodes: seq<Ip>, p: Path, settings: map<Ip, Option<Json>>, e: Reserved, holders: set<Ip>, now: int, w: Run)
    requires ScalarPath(p) && WellFormed(e.0, e.1) && nodes != [] && Covers(nodes, settings)
    requires w == Scene(nodes, p, settings, e, holders, now) && Tight(nodes, settings)
    ensures Proper(nodes, w) && Covers(nodes, w.found) && FoundEverywhere(nodes, w.found, p)
    ensures w.now == now && w.hostsEnabled && p in w.enabled && (holders == {} ==> w.macs == [])
    ensures Shown(nodes, PathSetting(p), w.found) == settings
    ensures forall ip :: ip in nodes ==> (ip, p) in w.accepts
    ensures forall ip :: ip in nodes ==> HostsOf(w.found[ip]) == (if ip in holders then map[e.0 := e.1] else map[])
  {
    hide *;
    SceneFields(nodes, p, settings, e, holders, now);
    SceneReads(nodes, p, settings, e, holders, now);
    VisitOfThree(nodes, settings, w, p);
  }

  lemma SceneFields(nodes: seq<Ip>, p: Path, settings: map<Ip, Option<Json>>, e: Reserved, holders: set<Ip>, now: int)
    requires Covers(nodes, settings)
    ensures
      var w := Scene(nodes, p, settings, e, holders, now);
      && Covers(nodes, w.found) && w.now == now && w.hostsEnabled && p in w.enabled && forall ip :: ip in nodes ==> (ip, p) in w.accepts
    ensures holders == {} ==> Scene(nodes, p, settings, e, holders, now).macs == []
  {
    hide Config;
  }

  lemma FindsFromParts(a: Ip, b: Ip, c: Ip, w: Run, p: Path, x: Option<Json>, y: Option<Json>, z: Option<Json>)
    requires Proper([a, b, c], w) && p in w.enabled && FoundEverywhere([a, b, c], w.found, p)
    requires Shown([a, b, c], PathSetting(p), w.found) == map[a := x, b := y, c := z]
    requires forall ip :: ip in [a, b, c] ==> (ip, p) in w.accepts
    ensures FindsPath(a, b, c, w, p, x, y, z)
  {
    hide Shown, FoundEverywhere, ListsAllMacs;
  }

  lemma HoldsFromParts(a: Ip, b: Ip, c: Ip, w: Run, e: Reserved, holders: set<Ip>)
    requires a != b && b != c && a != c && Covers([a, b, c], w.found) && w.hostsEnabled && (holders == {} ==> w.macs == [])
    requires forall ip :: ip in [a, b, c] ==> HostsOf(w.found[ip]) == (if ip in holders then map[e.0 := e.1] else map[])
    ensures holders == {} ==> HoldsNone(a, b, c, w, e.0)
    ensures holders == {a} && !ValidIp(e.1.ip) ==> HoldsBad(a, b, c, w, e.0, e.1)
  {
    hide HostsOf, ValidIp;
    var nodes := [a, b, c];
    assert a in nodes && b in nodes && c in nodes;
  }

  lemma VisitOfThree(nodes: seq<Ip>, settings: Values<Json>, w: Run, p: Path)
    requires Covers(nodes, w.found) && Tight(nodes, settings)
    requires forall ip :: ip in nodes ==> GetPath(w.found[ip], p) == Some(settings[ip])
    ensures Shown(nodes, PathSetting(p), w.found) == settings
  {
    hide GetPath;
  }

  /** The second of three runs raises after its pushes: the edit before it beats the newer edit before the
      third run, which is written over. */
  lemma RaisedRunLosesEdit(a: Ip, b: Ip, c: Ip, p: Path, old_: Option<Json>, v: Json, z: Option<Json>, e: Reserved, t1: int, t2: int, t3: int)
    requires a != b && b != c && a != c && old_ != Some(v) && old_ != z && z != Some(v)
    requires ScalarPath(p) && WellFormed(e.0, e.1) && !ValidIp(e.1.ip) && t1 < t2 < t3
    ensures NewerIsLost(a, b, c, RaiseBetween(a, b, c, p, old_, v, z, e, t1, t2, t3), p, v)
  {
    var nodes, h := [a, b, c], RaiseBetween(a, b, c, p, old_, v, z, e, t1, t2, t3);
    hide NewerIsLost, FindsPath, HoldsBad, HoldsNone, Scene, ScalarPath, WellFormed, ValidIp;
    SceneFindsPath(a, b, c, p, old_, old_, old_, e, {}, t1);
    SceneFindsPath(a, b, c, p, Some(v), old_, old_, e, {a}, t2);
    SceneFindsPath(a, b, c, p, Some(v), Some(v), z, e, {a}, t3);
    OlderEditWins(a, b, c, h, p, old_, v, z, e);
  }
}
