/** Where whole histories of runs stop being recent: a reservation that no node has is not looked at, and
    a run that raises has pushed without saving. When edits are honoured all the same, exactly. */
module RunLapses {
  import opened Common
  import opened Ledger
  import opened MergeRun
  import opened Visits
  import opened Lapses
  import opened RunHistory
  import opened RunRecency

  // --- The saved stamps ---

  lemma ReplayIsEarlier<V>(nodes: seq<Ip>, visits: seq<Visit<V>>, until: int, now: int)
    requires nodes != [] && Over(nodes, visits) && Until(visits, until) && until < now
    ensures Earlier(nodes, Replay(nodes, visits).ledger, now)
  {
    if visits != [] {
      hide Replay;
      forall ip | ip in nodes ensures Replay(nodes, visits).ledger[ip].changedAt < now {
        StampsFromChanges(nodes, visits, ip);
      }
    }
  }

  lemma ReplayIsRecorded<V>(nodes: seq<Ip>, visits: seq<Visit<V>>)
    requires nodes != [] && Over(nodes, visits) && visits != []
    ensures RecordedAs(nodes, Replay(nodes, visits).ledger, Replay(nodes, visits).values)
  {
    hide Replay;
    forall ip | ip in nodes
      ensures ip in Replay(nodes, visits).ledger && Replay(nodes, visits).ledger[ip].value == Replay(nodes, visits).values[ip]
    {
      StampsFromChanges(nodes, visits, ip);
    }
  }

  /** The next run comes after the history. */
  ghost predicate ComesAfter(h: seq<Run>, now: int)
  {
    h != [] ==> h[|h| - 1].now < now
  }

  lemma StampsEarlier<V>(nodes: seq<Ip>, z: Setting<V>, start: Fleet, h: seq<Run>, now: int)
    requires nodes != [] && AllProper(nodes, h) && Covered(nodes, h) && Managed(nodes, z) && Unknown(z, start)
    requires TimesRise(h) && ComesAfter(h, now)
    ensures Earlier(nodes, z.stamps(LeftBy(nodes, start, h)), now)
  {
    Replays(nodes, z, start, h);
    VisitsInTime(nodes, z, start, h);
    var until := if h == [] then now - 1 else h[|h| - 1].now;
    hide LeftBy, Replay, VisitsOf, Earlier, Until, Managed;
    NoneUntil(VisitsOf(nodes, z, start, h), until);
    ReplayIsEarlier(nodes, VisitsOf(nodes, z, start, h), until, now);
  }

  function LeftNow<V>(nodes: seq<Ip>, z: Setting<V>, start: Fleet, h: seq<Run>): Values<V>
    requires Covered(nodes, h)
  {
    map ip | ip in nodes :: z.shows(ConfigAt(LeftBy(nodes, start, h).configs, ip))
  }

  /** After any history, runs that raised included: whatever is edited next, the next run stamps exactly
      the edited nodes, if and only if the saved ledger has every node with the value it was left
      with. */
  lemma StampsTrueIff<V(!new)>(nodes: seq<Ip>, z: Setting<V>, start: Fleet, h: seq<Run>, now: int)
    requires nodes != [] && AllProper(nodes, h) && Covered(nodes, h) && Managed(nodes, z) && Unknown(z, start)
    requires TimesRise(h) && ComesAfter(h, now)
    ensures
      var ledger, left := z.stamps(LeftBy(nodes, start, h)), LeftNow(nodes, z, start, h);
      (forall found: Values<V> :: Covers(nodes, found) ==> TellsEdits(nodes, ledger, left, found, now))
      <==> RecordedAs(nodes, ledger, left)
  {
    StampsEarlier(nodes, z, start, h, now);
    hide LeftBy, ConfigAt;
    StampsTellEdits(nodes, z.stamps(LeftBy(nodes, start, h)), LeftNow(nodes, z, start, h), now);
  }

  /** Over every history: what the run picks is present exactly when some node has a value other than the
      ledger recorded there, or every node is as recorded and the recorded winner is present. A
      reservation that all nodes had lost and one node gets back unchanged fails both. */
  lemma SurvivesIff<V>(nodes: seq<Ip>, z: Setting<V>, start: Fleet, h: seq<Run>)
    requires nodes != [] && AllProper(nodes, h) && Covered(nodes, h) && Managed(nodes, z) && Unknown(z, start)
    requires TimesRise(h) && h != []
    ensures
      var s := Met(nodes, z, start, h);
      Picked(nodes, z, start, h).value.Some?
      <==> (exists ip :: ip in nodes && NewHere(s, ip)) || (RecordedAs(nodes, s.ledger, s.values) && Winner(nodes, s.ledger).value.Some?)
  {
    var init := h[..|h| - 1];
    assert AllProper(nodes, init) && TimesRise(init) && ComesAfter(init, h[|h| - 1].now) by { hide Proper; }
    StampsEarlier(nodes, z, start, init, h[|h| - 1].now);
    hide LeftBy, Shown, Pick, Winner, AllProper, Covered, Managed;
    PresentWinsIff(nodes, Met(nodes, z, start, h), h[|h| - 1].now);
  }

  // --- Removal ---

  /** A reservation that the last run looked at, removed on one node since and left alone on the
      others, is removed everywhere: its absence is picked and every node that accepts the table is
      rid of it. */
  lemma RemovalSinceLastRun(nodes: seq<Ip>, start: Fleet, h: seq<Run>, mac: string, gone: Ip)
    requires nodes != [] && AllProper(nodes, h) && Covered(nodes, h) && mac !in start.hosts && TimesRise(h) && |h| >= 2
    requires Visited(nodes, MacSetting(mac), start, h[..|h| - 1]) && Visited(nodes, MacSetting(mac), start, h) && gone in nodes
    requires LeftAt(nodes, MacSetting(mac), start, h, |h| - 1, gone).Some? && FoundAt(MacSetting(mac), h, |h| - 1, gone).None?
    requires forall ip :: ip in nodes && ip != gone ==>
      FoundAt(MacSetting(mac), h, |h| - 1, ip) == LeftAt(nodes, MacSetting(mac), start, h, |h| - 1, ip)
    ensures Picked(nodes, MacSetting(mac), start, h) == Entry(None, h[|h| - 1].now)
    ensures forall ip :: ip in nodes && ip in h[|h| - 1].acceptsTable ==> MacValue(ConfigAt(LeftBy(nodes, start, h).configs, ip), mac).None?
  {
    hide *;
    var z := MacSetting(mac);
    MacSettingIs(nodes, mac, start, h[|h| - 1]);
    MacIsManaged(nodes, mac);
    LoneChangeIsPicked(nodes, z, start, h, gone);
    PickReaches(nodes, z, start, h);
  }

  lemma MacSettingIs(nodes: seq<Ip>, mac: string, start: Fleet, w: Run)
    ensures mac !in start.hosts ==> Unknown(MacSetting(mac), start)
    ensures MacSetting(mac).takes(nodes, w) == w.acceptsTable
    ensures forall c :: MacSetting(mac).shows(c) == MacValue(c, mac)
  {
    hide MacValue;
  }

  lemma LoneChangeIsPicked<V>(nodes: seq<Ip>, z: Setting<V>, start: Fleet, h: seq<Run>, changed: Ip)
    requires nodes != [] && AllProper(nodes, h) && Covered(nodes, h) && Managed(nodes, z) && Unknown(z, start) && TimesRise(h) && |h| >= 2
    requires Visited(nodes, z, start, h[..|h| - 1]) && changed in nodes
    requires FoundAt(z, h, |h| - 1, changed) != LeftAt(nodes, z, start, h, |h| - 1, changed)
    requires forall ip :: ip in nodes && ip != changed ==> FoundAt(z, h, |h| - 1, ip) == LeftAt(nodes, z, start, h, |h| - 1, ip)
    ensures Picked(nodes, z, start, h) == Entry(FoundAt(z, h, |h| - 1, changed), h[|h| - 1].now)
  {
    LastRecorded(nodes, z, start, h);
    MetIsFound(nodes, z, start, h);
    hide LeftBy, Shown, VisitsOf, Visited, Met, LeftAt, FoundAt, Pick, Managed;
    LoneChangeWins(nodes, Met(nodes, z, start, h), h[|h| - 1].now, changed);
  }

  /** After a visit the ledger has every node with the value it was left with, stamped no later. */
  lemma LastRecorded<V>(nodes: seq<Ip>, z: Setting<V>, start: Fleet, h: seq<Run>)
    requires nodes != [] && AllProper(nodes, h) && Covered(nodes, h) && Managed(nodes, z) && Unknown(z, start) && TimesRise(h) && |h| >= 2
    requires Visited(nodes, z, start, h[..|h| - 1])
    ensures
      var s := Met(nodes, z, start, h);
      forall ip :: ip in nodes ==>
        ip in s.ledger && s.ledger[ip].changedAt < h[|h| - 1].now && s.ledger[ip].value == LeftAt(nodes, z, start, h, |h| - 1, ip)
  {
    hide *;
    var init := h[..|h| - 1];
    InitIsProper(nodes, h);
    Replays(nodes, z, start, init);
    ReplayedPick(nodes, z, start, init);
    LeftIs(nodes, z, start, h, |h| - 1);
    ReplayIsRecorded(nodes, VisitsOf(nodes, z, start, init));
    StampsEarlier(nodes, z, start, init, h[|h| - 1].now);
    MetLedger(nodes, z, start, h);
    FromRecorded(nodes, Met(nodes, z, start, h).ledger, Replay(nodes, VisitsOf(nodes, z, start, init)).values, h[|h| - 1].now);
  }

  lemma InitIsProper(nodes: seq<Ip>, h: seq<Run>)
    requires AllProper(nodes, h) && Covered(nodes, h) && TimesRise(h) && |h| >= 2
    ensures AllProper(nodes, h[..|h| - 1]) && Covered(nodes, h[..|h| - 1]) && TimesRise(h[..|h| - 1])
    ensures ComesAfter(h[..|h| - 1], h[|h| - 1].now)
  {
    hide Proper, Covers;
  }

  lemma MetLedger<V>(nodes: seq<Ip>, z: Setting<V>, start: Fleet, h: seq<Run>)
    requires Covered(nodes, h) && h != []
    ensures Met(nodes, z, start, h).ledger == z.stamps(LeftBy(nodes, start, h[..|h| - 1]))
  {
    hide LeftBy, Shown;
  }

  lemma FromRecorded<V>(nodes: seq<Ip>, ledger: Stamps<V>, values: Values<V>, now: int)
    requires Covers(nodes, values) && RecordedAs(nodes, ledger, values) && Earlier(nodes, ledger, now)
    ensures forall ip :: ip in nodes ==> ip in ledger && ledger[ip].changedAt < now && ledger[ip].value == values[ip]
  {
  }

  lemma MetIsFound<V>(nodes: seq<Ip>, z: Setting<V>, start: Fleet, h: seq<Run>)
    requires Covered(nodes, h) && h != []
    ensures forall ip :: ip in nodes ==> Met(nodes, z, start, h).values[ip] == FoundAt(z, h, |h| - 1, ip)
  {
    hide LeftBy;
  }

  /** What a visiting run picks reaches every node that accepts the push. */
  lemma PickReaches<V>(nodes: seq<Ip>, z: Setting<V>, start: Fleet, h: seq<Run>)
    requires nodes != [] && AllProper(nodes, h) && Covered(nodes, h) && Managed(nodes, z) && h != [] && Visited(nodes, z, start, h)
    ensures forall ip :: ip in nodes && ip in z.takes(nodes, h[|h| - 1]) ==>
      z.shows(ConfigAt(LeftBy(nodes, start, h).configs, ip)) == Picked(nodes, z, start, h).value
  {
    var w := h[|h| - 1];
    var f := LeftBy(nodes, start, h[..|h| - 1]);
    assert Proper(nodes, w) && OneRound(nodes, z, f, w);
    LeftByStep(nodes, start, h);
    hide LeftBy, Outcome, Observe, Winner, Proper, Managed;
    var r, s := LeftBy(nodes, start, h), Met(nodes, z, start, h);
    forall ip | ip in nodes && ip in z.takes(nodes, w) ensures z.shows(ConfigAt(r.configs, ip)) == Picked(nodes, z, start, h).value {
      assert Shown(nodes, z, r.configs)[ip] == Round(nodes, s, w.now, z.takes(nodes, w)).values[ip];
    }
  }
}
