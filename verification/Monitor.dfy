/** Health checks and the reboot escalation of a node that stays down. */
module Monitor {
  import opened Common

  const MAX_HISTORY: nat := 100

  /** `rebootAfter`, `rebootAfterMins` and `retries` come from the environment and may be any number. */
  datatype Config = Config(vip: Ip, rebootAfter: int, rebootAfterMins: int, retries: int) {
    /** The reboots one outage may cause. */
    function Budget(): nat
    {
      if retries < 0 then 1 else 1 + retries
    }
  }

  /** What the monitor saw and did, in order. */
  datatype Event =
    | Up(ip: Ip)
    | Down(ip: Ip, ts: int, maintenance: bool)
    | Reboot(ip: Ip, ts: int, listed: seq<Ip>)
    | Flag(ip: Ip, ts: int)
    | Wiped

  datatype State = State(checks: map<Ip, seq<bool>>, consecFail: map<Ip, nat>, failSince: map<Ip, int>,
                         rebootAttempts: map<Ip, nat>, lastReboot: map<Ip, int>, exhausted: set<Ip>, log: seq<Event>)

  /** One check of one node: its result, whether the node is in maintenance, and the fleet list at
      that moment. */
  datatype Check = Check(ip: Ip, ts: int, ok: bool, maintenance: bool, listed: seq<Ip>)

  // --- The monitor ---

  function Recent(s: seq<bool>): seq<bool>
  {
    if |s| > MAX_HISTORY then s[|s| - MAX_HISTORY..] else s
  }

  predicate LooksHealthy(checks: map<Ip, seq<bool>>, ip: Ip)
  {
    ip in checks && checks[ip] != [] && checks[ip][|checks[ip]| - 1]
  }

  function HealthyOthers(cfg: Config, checks: map<Ip, seq<bool>>, listed: seq<Ip>, failing: Ip): seq<Ip>
  {
    Filter(listed, ip => Vouches(cfg, checks, ip, failing))
  }

  predicate Vouches(cfg: Config, checks: map<Ip, seq<bool>>, ip: Ip, failing: Ip)
  {
    ip != failing && ip != cfg.vip && LooksHealthy(checks, ip)
  }

  predicate ShouldAttempt(cfg: Config, s: State, ip: Ip, ts: int)
  {
    var attempts := Get(s.rebootAttempts, ip).GetOr(0);
    || (attempts == 0 && Get(s.consecFail, ip).GetOr(0) > cfg.rebootAfter)
    || (0 < attempts <= cfg.retries && ts - Get(s.lastReboot, ip).GetOr(0) >= cfg.rebootAfterMins * 60)
  }

  function Recorded(s: State, c: Check): State
  {
    s.(checks := s.checks[c.ip := Recent(Get(s.checks, c.ip).GetOr([]) + [c.ok])])
  }

  function Recovered(s: State, c: Check): State
  {
    s.(failSince := s.failSince - {c.ip}, rebootAttempts := s.rebootAttempts - {c.ip}, lastReboot := s.lastReboot - {c.ip},
       exhausted := s.exhausted - {c.ip}, consecFail := s.consecFail[c.ip := 0], log := s.log + [Up(c.ip)])
  }

  function Failed(s: State, c: Check): State
  {
    s.(consecFail := s.consecFail[c.ip := Get(s.consecFail, c.ip).GetOr(0) + 1],
       failSince := if c.ip in s.failSince then s.failSince else s.failSince[c.ip := c.ts],
       log := s.log + [Down(c.ip, c.ts, c.maintenance)])
  }

  function Rebooted(s: State, c: Check): State
  {
    s.(rebootAttempts := s.rebootAttempts[c.ip := Get(s.rebootAttempts, c.ip).GetOr(0) + 1],
       lastReboot := s.lastReboot[c.ip := c.ts], log := s.log + [Reboot(c.ip, c.ts, c.listed)])
  }

  function Flagged(s: State, c: Check): State
  {
    s.(exhausted := s.exhausted + {c.ip}, log := s.log + [Flag(c.ip, c.ts)])
  }

  function Escalated(cfg: Config, s: State, c: Check): State
  {
    if c.ip == cfg.vip || c.maintenance then s
    else if ShouldAttempt(cfg, s, c.ip, c.ts) then
      if |HealthyOthers(cfg, s.checks, c.listed, c.ip)| >= 2 then Rebooted(s, c) else s
    else if Get(s.rebootAttempts, c.ip).GetOr(0) > cfg.retries && c.ip !in s.exhausted then Flagged(s, c)
    else s
  }

  function Checked(cfg: Config, s: State, c: Check): State
  {
    var r := Recorded(s, c);
    if c.ok then Recovered(r, c) else Escalated(cfg, Failed(r, c), c)
  }

  function AllChecked(cfg: Config, s: State, cs: seq<Check>): State
  {
    if cs == [] then s else Checked(cfg, AllChecked(cfg, s, cs[..|cs| - 1]), cs[|cs| - 1])
  }

  /** A failure is reported only after the given number of failed probes in a row, and at least one;
      the first success is reported at once. */
  method CheckNode(probe: nat -> bool, confirmAttempts: int) returns (ok: bool, probes: nat)
    ensures ok <==> exists k: nat :: (k == 0 || k < confirmAttempts) && probe(k)
    ensures ok ==> probes > 0 && probe(probes - 1) && forall k: nat :: k < probes - 1 ==> !probe(k)
    ensures !ok ==> probes == if confirmAttempts > 1 then confirmAttempts else 1
  {
    ok, probes := probe(0), 1;
    if ok {
      return;
    }
    for attempt := 1 to (if confirmAttempts > 1 then confirmAttempts else 1)
      invariant !ok && probes == attempt
      invariant forall k: nat :: k < probes ==> !probe(k)
    {
      ok, probes := probe(probes), probes + 1;
      if ok {
        return;
      }
    }
  }

  /** The nodes of one pass: the fleet, then the VIP unless it is listed already. */
  function MonitorIps(cfg: Config, ips: seq<Ip>): seq<Ip>
  {
    ips + if cfg.vip != "" && cfg.vip !in ips then [cfg.vip] else []
  }

  class Monitor {
    const cfg: Config
    var checks: map<Ip, seq<bool>>
    var consecFail: map<Ip, nat>
    var failSince: map<Ip, int>
    var rebootAttempts: map<Ip, nat>
    var lastReboot: map<Ip, int>
    var exhausted: set<Ip>
    var log: seq<Event>

    function Current(): State
      reads this
    {
      State(checks, consecFail, failSince, rebootAttempts, lastReboot, exhausted, log)
    }

    /** Only the checks outlive a restart. */
    constructor (cfg: Config, loaded: map<Ip, seq<bool>>)
      ensures this.cfg == cfg && Current() == Started(loaded)
    {
      this.cfg, checks := cfg, loaded;
      consecFail, failSince, rebootAttempts, lastReboot, exhausted, log := map[], map[], map[], map[], {}, [];
    }

    /** At least two other physical nodes whose latest check is healthy. */
    method QuorumOk(listed: seq<Ip>, failing: Ip) returns (ok: bool)
      ensures ok <==> |HealthyOthers(cfg, checks, listed, failing)| >= 2
    {
      var healthy := 0;
      ghost var config, seen := cfg, checks;
      ghost var counts := ip => Vouches(config, seen, ip, failing);
      for i := 0 to |listed|
        invariant healthy == |Filter(listed[..i], counts)|
      {
        FilterStep(listed, i, counts);
        var ip := listed[i];
        if ip == failing || ip == cfg.vip {
          continue;
        }
        if LooksHealthy(checks, ip) {
          healthy := healthy + 1;
        }
      }
      assert listed[..|listed|] == listed;
      FilterSame(listed, counts, ip => Vouches(config, seen, ip, failing));
      ok := healthy >= 2;
    }

    method Append(ip: Ip, ok: bool)
      modifies this`checks
      ensures checks == old(checks)[ip := Recent(Get(old(checks), ip).GetOr([]) + [ok])]
    {
      if ip !in checks {
        checks := checks[ip := []];
      }
      checks := checks[ip := checks[ip] + [ok]];
      if |checks[ip]| > MAX_HISTORY {
        checks := checks[ip := checks[ip][|checks[ip]| - MAX_HISTORY..]];
      }
    }

    method Visit(c: Check)
      modifies this
      ensures Current() == Checked(cfg, old(Current()), c)
    {
      hide Escalated;
      var ip := c.ip;
      Append(ip, c.ok);
      hide Recent;
      if c.ok {
        failSince := failSince - {ip};
        rebootAttempts := rebootAttempts - {ip};
        lastReboot := lastReboot - {ip};
        exhausted := exhausted - {ip};
        consecFail := consecFail[ip := 0];
        log := log + [Up(ip)];
        return;
      }
      consecFail := consecFail[ip := (if ip in consecFail then consecFail[ip] else 0) + 1];
      log := log + [Down(ip, c.ts, c.maintenance)];
      if ip !in failSince {
        failSince := failSince[ip := c.ts];
      }
      Escalate(c);
    }

    /** What follows a failed check: nothing for the VIP and in maintenance, else a reboot, a flag, or
        nothing. */
    method Escalate(c: Check)
      requires c.ip in consecFail
      modifies this
      ensures Current() == Escalated(cfg, old(Current()), c)
    {
      hide HealthyOthers;
      var ip := c.ip;
      if ip == cfg.vip {
        return;
      }
      if c.maintenance {
        return;
      }
      var attempts := if ip in rebootAttempts then rebootAttempts[ip] else 0;
      var last := if ip in lastReboot then lastReboot[ip] else 0;
      var shouldAttempt := (attempts == 0 && consecFail[ip] > cfg.rebootAfter)
        || (0 < attempts <= cfg.retries && c.ts - last >= cfg.rebootAfterMins * 60);
      if shouldAttempt {
        var quorum := QuorumOk(c.listed, ip);
        if quorum {
          attempts := attempts + 1;
          rebootAttempts := rebootAttempts[ip := attempts];
          lastReboot := lastReboot[ip := c.ts];
          log := log + [Reboot(ip, c.ts, c.listed)];
        }
      } else if attempts > cfg.retries && ip !in exhausted {
        exhausted := exhausted + {ip};
        log := log + [Flag(ip, c.ts)];
      }
    }

    /** One pass over the fleet and the VIP; `met` gives what each check meets. */
    method Pass(ts: int, ips: seq<Ip>, met: seq<(bool, bool, seq<Ip>)>)
      requires |met| == |ips| + if cfg.vip != "" && cfg.vip !in ips then 1 else 0
      modifies this
      ensures Seen(log) == Seen(old(log)) + seq(|met|, i requires 0 <= i < |met| => (if i < |ips| then ips[i] else cfg.vip, met[i].0))
      ensures Current() == AllChecked(cfg, old(Current()), ChecksOf(MonitorIps(cfg, ips), ts, met))
    {
      hide Checked;
      var all := MonitorIps(cfg, ips);
      ghost var cs := ChecksOf(all, ts, met);
      for i := 0 to |all|
        invariant Current() == AllChecked(cfg, old(Current()), cs[..i])
      {
        assert cs[..i + 1][..i] == cs[..i];
        Visit(Check(all[i], ts, met[i].0, met[i].1, met[i].2));
      }
      assert cs[..|cs|] == cs;
      AllCheckedSeen(cfg, old(Current()), cs);
      assert seq(|cs|, i requires 0 <= i < |cs| => (cs[i].ip, cs[i].ok))
        == seq(|met|, i requires 0 <= i < |met| => (if i < |ips| then ips[i] else cfg.vip, met[i].0));
    }

    method ClearHistory()
      modifies this`checks, this`log
      ensures Current() == Cleared(old(Current()))
    {
      checks := map ip | ip in checks :: [];
      log := log + [Wiped];
    }
  }

  function ChecksOf(ips: seq<Ip>, ts: int, met: seq<(bool, bool, seq<Ip>)>): (r: seq<Check>)
    requires |met| == |ips|
    ensures |r| == |ips|
  {
    seq(|ips|, i requires 0 <= i < |ips| => Check(ips[i], ts, met[i].0, met[i].1, met[i].2))
  }

  function Started(loaded: map<Ip, seq<bool>>): State
  {
    State(loaded, map[], map[], map[], map[], {}, [])
  }

  function Cleared(s: State): State
  {
    s.(checks := map ip | ip in s.checks :: [], log := s.log + [Wiped])
  }

  // --- Reading the log ---

  /** Failed checks since the node was last up. */
  function Fails(log: seq<Event>, ip: Ip): nat
  {
    if log == [] then 0
    else
      var before := Fails(log[..|log| - 1], ip);
      match log[|log| - 1]
      case Up(x) => if x == ip then 0 else before
      case Down(x, _, _) => if x == ip then before + 1 else before
      case _ => before
  }

  /** When the node was rebooted since it was last up. */
  function Reboots(log: seq<Event>, ip: Ip): seq<int>
  {
    if log == [] then []
    else
      var before := Reboots(log[..|log| - 1], ip);
      match log[|log| - 1]
      case Up(x) => if x == ip then [] else before
      case Reboot(x, ts, _) => if x == ip then before + [ts] else before
      case _ => before
  }

  /** How often the node was flagged since it was last up. */
  function Flags(log: seq<Event>, ip: Ip): nat
  {
    if log == [] then 0
    else
      var before := Flags(log[..|log| - 1], ip);
      match log[|log| - 1]
      case Up(x) => if x == ip then 0 else before
      case Flag(x, _) => if x == ip then before + 1 else before
      case _ => before
  }

  /** When the failures began that the node has not recovered from. */
  function FailingSince(log: seq<Event>, ip: Ip): Option<int>
  {
    if log == [] then None
    else
      var before := FailingSince(log[..|log| - 1], ip);
      match log[|log| - 1]
      case Up(x) => if x == ip then None else before
      case Down(x, ts, _) => if x == ip && before.None? then Some(ts) else before
      case _ => before
  }

  /** The checks in the log, in order. */
  function Seen(log: seq<Event>): seq<(Ip, bool)>
  {
    if log == [] then []
    else
      var before := Seen(log[..|log| - 1]);
      match log[|log| - 1]
      case Up(x) => before + [(x, true)]
      case Down(x, _, _) => before + [(x, false)]
      case _ => before
  }

  lemma SeenStep(log: seq<Event>, e: Event)
    ensures Seen(log + [e]) == Seen(log) + (if e.Up? then [(e.ip, true)] else if e.Down? then [(e.ip, false)] else [])
  {
    assert (log + [e])[..|log|] == log;
  }

  lemma CheckedSeen(cfg: Config, s: State, c: Check)
    ensures Seen(Checked(cfg, s, c).log) == Seen(s.log) + [(c.ip, c.ok)]
  {
    RecordedLog(s, c);
    hide Seen, Recorded, ShouldAttempt, HealthyOthers;
    if c.ok {
      SeenStep(s.log, Up(c.ip));
    } else {
      var log := s.log + [Down(c.ip, c.ts, c.maintenance)];
      SeenStep(s.log, Down(c.ip, c.ts, c.maintenance));
      SeenStep(log, Reboot(c.ip, c.ts, c.listed));
      SeenStep(log, Flag(c.ip, c.ts));
    }
  }

  lemma {:induction false} AllCheckedSeen(cfg: Config, s: State, cs: seq<Check>)
    ensures Seen(AllChecked(cfg, s, cs).log) == Seen(s.log) + seq(|cs|, i requires 0 <= i < |cs| => (cs[i].ip, cs[i].ok))
  {
    hide Checked, Seen;
    if cs != [] {
      var init := cs[..|cs| - 1];
      AllCheckedSeen(cfg, s, init);
      CheckedSeen(cfg, AllChecked(cfg, s, init), cs[|cs| - 1]);
    }
  }

  /** The node's latest check that is still remembered was healthy; `loaded` are the checks from before a
      restart. */
  function Latest(log: seq<Event>, ip: Ip, loaded: map<Ip, seq<bool>>): bool
  {
    if log == [] then LooksHealthy(loaded, ip)
    else
      var before := Latest(log[..|log| - 1], ip, loaded);
      match log[|log| - 1]
      case Up(x) => if x == ip then true else before
      case Down(x, _, _) => if x == ip then false else before
      case Wiped => false
      case _ => before
  }

  /** Two entries of the fleet list, neither the node itself nor the VIP, were healthy when last
      checked. */
  ghost predicate TwoOthersHealthy(cfg: Config, loaded: map<Ip, seq<bool>>, log: seq<Event>, listed: seq<Ip>, ip: Ip)
  {
    exists i, j :: 0 <= i < j < |listed| && IsHealthyOther(cfg, loaded, log, listed[i], ip) && IsHealthyOther(cfg, loaded, log, listed[j], ip)
  }

  ghost predicate IsHealthyOther(cfg: Config, loaded: map<Ip, seq<bool>>, log: seq<Event>, other: Ip, ip: Ip)
  {
    other != ip && other != cfg.vip && Latest(log, other, loaded)
  }

  // --- What every action needs ---

  /** Why a reboot or a flag may follow this log. */
  ghost predicate Justified(cfg: Config, loaded: map<Ip, seq<bool>>, log: seq<Event>, e: Event)
  {
    match e
    case Reboot(ip, ts, listed) =>
      var earlier := Reboots(log, ip);
      && log != [] && log[|log| - 1] == Down(ip, ts, false) && ip != cfg.vip
      && |earlier| < cfg.Budget()
      && (earlier == [] ==> Fails(log, ip) > cfg.rebootAfter)
      && (earlier != [] ==> ts - earlier[|earlier| - 1] >= cfg.rebootAfterMins * 60)
      && TwoOthersHealthy(cfg, loaded, log, listed, ip)
    case Flag(ip, ts) =>
      && log != [] && log[|log| - 1] == Down(ip, ts, false) && ip != cfg.vip
      && |Reboots(log, ip)| > cfg.retries && Flags(log, ip) == 0
    case _ => true
  }

  ghost predicate Safe(cfg: Config, loaded: map<Ip, seq<bool>>, log: seq<Event>)
  {
    log != [] ==> Safe(cfg, loaded, log[..|log| - 1]) && Justified(cfg, loaded, log[..|log| - 1], log[|log| - 1])
  }

  // --- The maps are what the log says ---

  ghost predicate Tracks(loaded: map<Ip, seq<bool>>, s: State)
  {
    && (forall ip :: Get(s.consecFail, ip).GetOr(0) == Fails(s.log, ip))
    && (forall ip :: Get(s.rebootAttempts, ip).GetOr(0) == |Reboots(s.log, ip)|)
    && (forall ip :: Reboots(s.log, ip) != [] ==> Get(s.lastReboot, ip) == Some(Reboots(s.log, ip)[|Reboots(s.log, ip)| - 1]))
    && (forall ip :: ip in s.exhausted <==> Flags(s.log, ip) > 0)
    && (forall ip :: LooksHealthy(s.checks, ip) <==> Latest(s.log, ip, loaded))
  }

  /** One more event, as the readings of the log see it. */
  lemma Appended(log: seq<Event>, e: Event, ip: Ip, loaded: map<Ip, seq<bool>>)
    ensures Fails(log + [e], ip) == if e == Up(ip) then 0 else if e.Down? && e.ip == ip then Fails(log, ip) + 1 else Fails(log, ip)
    ensures Reboots(log + [e], ip) == if e == Up(ip) then [] else if e.Reboot? && e.ip == ip then Reboots(log, ip) + [e.ts] else Reboots(log, ip)
    ensures Flags(log + [e], ip) == if e == Up(ip) then 0 else if e.Flag? && e.ip == ip then Flags(log, ip) + 1 else Flags(log, ip)
    ensures Latest(log + [e], ip, loaded) == ((e == Up(ip) || Latest(log, ip, loaded)) && !(e.Down? && e.ip == ip) && !e.Wiped?)
  {
    assert (log + [e])[..|log|] == log;
  }

  lemma SafeAppend(cfg: Config, loaded: map<Ip, seq<bool>>, log: seq<Event>, e: Event)
    requires Safe(cfg, loaded, log) && Justified(cfg, loaded, log, e)
    ensures Safe(cfg, loaded, log + [e])
  {
    hide Justified;
    assert (log + [e])[..|log|] == log;
  }

  lemma RecordedHealth(s: State, c: Check)
    ensures forall ip :: LooksHealthy(Recorded(s, c).checks, ip) <==> if ip == c.ip then c.ok else LooksHealthy(s.checks, ip)
  {
  }

  lemma UpTracks(loaded: map<Ip, seq<bool>>, s: State, c: Check)
    requires Tracks(loaded, s) && c.ok
    ensures Tracks(loaded, Recovered(Recorded(s, c), c))
  {
    RecordedHealth(s, c);
    hide Fails, Reboots, Flags, Latest, LooksHealthy, Recent;
    var t := Recovered(Recorded(s, c), c);
    forall ip {
      Appended(s.log, Up(c.ip), ip, loaded);
    }
  }

  lemma DownTracks(loaded: map<Ip, seq<bool>>, s: State, c: Check)
    requires Tracks(loaded, s) && !c.ok
    ensures Tracks(loaded, Failed(Recorded(s, c), c))
  {
    RecordedHealth(s, c);
    hide Fails, Reboots, Flags, Latest, LooksHealthy, Recent;
    forall ip {
      Appended(s.log, Down(c.ip, c.ts, c.maintenance), ip, loaded);
    }
  }

  lemma RebootTracks(loaded: map<Ip, seq<bool>>, s: State, c: Check)
    requires Tracks(loaded, s)
    ensures Tracks(loaded, Rebooted(s, c))
  {
    hide Fails, Reboots, Flags, Latest, LooksHealthy;
    var t := Rebooted(s, c);
    forall ip
      ensures Fails(t.log, ip) == Fails(s.log, ip) && Flags(t.log, ip) == Flags(s.log, ip) && Latest(t.log, ip, loaded) == Latest(s.log, ip, loaded)
      ensures Reboots(t.log, ip) == if ip == c.ip then Reboots(s.log, ip) + [c.ts] else Reboots(s.log, ip)
    {
      Appended(s.log, Reboot(c.ip, c.ts, c.listed), ip, loaded);
    }
    forall ip
      ensures Get(t.rebootAttempts, ip).GetOr(0) == |Reboots(t.log, ip)|
      ensures Reboots(t.log, ip) != [] ==> Get(t.lastReboot, ip) == Some(Reboots(t.log, ip)[|Reboots(t.log, ip)| - 1])
    {
      if ip != c.ip {
        assert Reboots(t.log, ip) == Reboots(s.log, ip);
      }
    }
  }

  lemma FlagTracks(loaded: map<Ip, seq<bool>>, s: State, c: Check)
    requires Tracks(loaded, s)
    ensures Tracks(loaded, Flagged(s, c))
  {
    hide Fails, Reboots, Flags, Latest, LooksHealthy;
    forall ip {
      Appended(s.log, Flag(c.ip, c.ts), ip, loaded);
    }
  }

  ghost predicate TwoHave(s: seq<Ip>, p: Ip -> bool)
  {
    exists i, j :: 0 <= i < j < |s| && p(s[i]) && p(s[j])
  }

  lemma TwoHaveStep(s: seq<Ip>, p: Ip -> bool)
    requires s != []
    ensures TwoHave(s, p) <==> TwoHave(s[1..], p) || (p(s[0]) && exists x :: x in s[1..] && p(x))
  {
    var rest := s[1..];
    if i, j :| 0 <= i < j < |s| && p(s[i]) && p(s[j]) {
      assert s[j] == rest[j - 1] && s[j] in rest;
      if i > 0 {
        assert s[i] == rest[i - 1];
      }
    }
    if i, j :| 0 <= i < j < |rest| && p(rest[i]) && p(rest[j]) {
      assert p(s[i + 1]) && p(s[j + 1]);
    }
    if p(s[0]) && exists x :: x in rest && p(x) {
      var x :| x in rest && p(x);
      var j :| 0 <= j < |rest| && rest[j] == x;
      assert p(s[0]) && p(s[j + 1]);
    }
  }

  /** Two nodes vouch exactly when two entries of the list are healthy. */
  lemma {:induction false} TwoVouch(s: seq<Ip>, p: Ip -> bool)
    ensures |Filter(s, p)| >= 2 <==> exists i, j :: 0 <= i < j < |s| && p(s[i]) && p(s[j])
  {
    assert TwoHave(s, p) <==> exists i, j :: 0 <= i < j < |s| && p(s[i]) && p(s[j]);
    hide TwoHave;
    if s != [] {
      TwoVouch(s[1..], p);
      assert TwoHave(s[1..], p) <==> |Filter(s[1..], p)| >= 2 by { TwoHaveIs(s[1..], p); }
      TwoHaveStep(s, p);
      var r := Filter(s[1..], p);
      assert (exists x :: x in s[1..] && p(x)) <==> r != [] by {
        if r != [] {
          assert r[0] in r;
        }
      }
    } else {
      assert !TwoHave(s, p) by { TwoHaveIs(s, p); }
    }
  }

  lemma TwoHaveIs(s: seq<Ip>, p: Ip -> bool)
    ensures TwoHave(s, p) <==> exists i, j :: 0 <= i < j < |s| && p(s[i]) && p(s[j])
  {
  }

  /** The quorum, read off the log. */
  lemma QuorumIsTwo(cfg: Config, loaded: map<Ip, seq<bool>>, s: State, c: Check)
    requires Tracks(loaded, s)
    ensures |HealthyOthers(cfg, s.checks, c.listed, c.ip)| >= 2 <==> TwoOthersHealthy(cfg, loaded, s.log, c.listed, c.ip)
  {
    hide Fails, Reboots, Flags, Latest, LooksHealthy, Filter;
    var p := ip => Vouches(cfg, s.checks, ip, c.ip);
    TwoVouch(c.listed, p);
    forall ip ensures p(ip) <==> IsHealthyOther(cfg, loaded, s.log, ip, c.ip) {
    }
    if i, j :| 0 <= i < j < |c.listed| && p(c.listed[i]) && p(c.listed[j]) {
      assert IsHealthyOther(cfg, loaded, s.log, c.listed[i], c.ip) && IsHealthyOther(cfg, loaded, s.log, c.listed[j], c.ip);
    }
    if i, j :| 0 <= i < j < |c.listed| && IsHealthyOther(cfg, loaded, s.log, c.listed[i], c.ip) && IsHealthyOther(cfg, loaded, s.log, c.listed[j], c.ip) {
      assert p(c.listed[i]) && p(c.listed[j]);
    }
  }

  lemma ClearedTracks(loaded: map<Ip, seq<bool>>, s: State)
    requires Tracks(loaded, s)
    ensures Tracks(loaded, Cleared(s))
  {
    hide Fails, Reboots, Flags, Latest;
    forall ip {
      Appended(s.log, Wiped, ip, loaded);
    }
  }

  ghost predicate Good(cfg: Config, loaded: map<Ip, seq<bool>>, s: State)
  {
    Tracks(loaded, s) && Safe(cfg, loaded, s.log)
  }

  lemma EscalatedGood(cfg: Config, loaded: map<Ip, seq<bool>>, s: State, c: Check)
    requires Good(cfg, loaded, s) && s.log != [] && s.log[|s.log| - 1] == Down(c.ip, c.ts, c.maintenance)
    ensures Good(cfg, loaded, Escalated(cfg, s, c))
  {
    hide Fails, Reboots, Flags, Latest, LooksHealthy, HealthyOthers, Safe, TwoOthersHealthy;
    if !(c.ip == cfg.vip || c.maintenance) {
      if ShouldAttempt(cfg, s, c.ip, c.ts) {
        if |HealthyOthers(cfg, s.checks, c.listed, c.ip)| >= 2 {
          QuorumIsTwo(cfg, loaded, s, c);
          RebootTracks(loaded, s, c);
          SafeAppend(cfg, loaded, s.log, Reboot(c.ip, c.ts, c.listed));
        }
      } else if Get(s.rebootAttempts, c.ip).GetOr(0) > cfg.retries && c.ip !in s.exhausted {
        FlagTracks(loaded, s, c);
        SafeAppend(cfg, loaded, s.log, Flag(c.ip, c.ts));
      }
    }
  }

  lemma CheckedGood(cfg: Config, loaded: map<Ip, seq<bool>>, s: State, c: Check)
    requires Good(cfg, loaded, s)
    ensures Good(cfg, loaded, Checked(cfg, s, c))
  {
    hide Tracks, Safe, Escalated;
    var r := Recorded(s, c);
    if c.ok {
      UpTracks(loaded, s, c);
      SafeAppend(cfg, loaded, s.log, Up(c.ip));
    } else {
      DownTracks(loaded, s, c);
      SafeAppend(cfg, loaded, s.log, Down(c.ip, c.ts, c.maintenance));
      EscalatedGood(cfg, loaded, Failed(r, c), c);
    }
  }

  /** Due by the log alone: the first reboot by the count of failures, a later one by the time since
      the last. */
  predicate Due(cfg: Config, log: seq<Event>, ip: Ip, ts: int)
  {
    var earlier := Reboots(log, ip);
    if earlier == [] then Fails(log, ip) > cfg.rebootAfter
    else |earlier| <= cfg.retries && ts - earlier[|earlier| - 1] >= cfg.rebootAfterMins * 60
  }

  /** What a failed check leads to, read off the log alone: the escalation forgets nothing and adds
      nothing. */
  ghost function Consequence(cfg: Config, loaded: map<Ip, seq<bool>>, c: Check, log: seq<Event>): seq<Event>
  {
    if c.ip == cfg.vip || c.maintenance then []
    else if Due(cfg, log, c.ip, c.ts) then
      if TwoOthersHealthy(cfg, loaded, log, c.listed, c.ip) then [Reboot(c.ip, c.ts, c.listed)] else []
    else if |Reboots(log, c.ip)| > cfg.retries && Flags(log, c.ip) == 0 then [Flag(c.ip, c.ts)]
    else []
  }

  lemma FailureConsequence(cfg: Config, loaded: map<Ip, seq<bool>>, s: State, c: Check)
    requires Good(cfg, loaded, s) && !c.ok
    ensures
      var log := s.log + [Down(c.ip, c.ts, c.maintenance)];
      Checked(cfg, s, c).log == log + Consequence(cfg, loaded, c, log)
  {
    hide Fails, Reboots, Flags, Latest, LooksHealthy, HealthyOthers, TwoOthersHealthy, Safe, Recorded;
    DownTracks(loaded, s, c);
    var f := Failed(Recorded(s, c), c);
    assert f.log == s.log + [Down(c.ip, c.ts, c.maintenance)] by { RecordedLog(s, c); }
    assert ShouldAttempt(cfg, f, c.ip, c.ts) <==> Due(cfg, f.log, c.ip, c.ts);
    QuorumIsTwo(cfg, loaded, f, c);
  }

  lemma RecordedLog(s: State, c: Check)
    ensures Recorded(s, c).log == s.log
  {
  }

  datatype Step = Visit(check: Check) | Clear

  function After(cfg: Config, loaded: map<Ip, seq<bool>>, steps: seq<Step>): State
  {
    if steps == [] then Started(loaded)
    else
      var s := After(cfg, loaded, steps[..|steps| - 1]);
      match steps[|steps| - 1]
      case Visit(c) => Checked(cfg, s, c)
      case Clear => Cleared(s)
  }

  /** The monitor itself, through any run of checks with the history cleared in between. */
  method RunAll(cfg: Config, loaded: map<Ip, seq<bool>>, steps: seq<Step>) returns (m: Monitor)
    ensures fresh(m) && m.cfg == cfg && m.Current() == After(cfg, loaded, steps)
  {
    hide Checked;
    m := new Monitor(cfg, loaded);
    for i := 0 to |steps|
      invariant fresh(m) && m.cfg == cfg && m.Current() == After(cfg, loaded, steps[..i])
    {
      assert steps[..i + 1][..i] == steps[..i];
      match steps[i] {
        case Visit(c) => m.Visit(c);
        case Clear => m.ClearHistory();
      }
    }
    assert steps[..|steps|] == steps;
  }

  /** In every run, every reboot and every flag is justified by the log before it. */
  lemma {:induction false} EveryRunIsSafe(cfg: Config, loaded: map<Ip, seq<bool>>, steps: seq<Step>)
    ensures Good(cfg, loaded, After(cfg, loaded, steps))
  {
    if steps != [] {
      var s := After(cfg, loaded, steps[..|steps| - 1]);
      EveryRunIsSafe(cfg, loaded, steps[..|steps| - 1]);
      match steps[|steps| - 1]
      case Visit(c) =>
        hide Good, Checked;
        CheckedGood(cfg, loaded, s, c);
      case Clear =>
        ClearedTracks(loaded, s);
        SafeAppend(cfg, loaded, s.log, Wiped);
    }
  }

  /** What one outage of a node, at any moment, has come to: at most 1 + retries reboots, each at
      least the set time after the one before it, and at most one flag, raised after the last. */
  ghost predicate OutageBounded(cfg: Config, log: seq<Event>, ip: Ip)
  {
    var r := Reboots(log, ip);
    && |r| <= 1 + (if cfg.retries < 0 then 0 else cfg.retries)
    && (forall k :: 0 < k < |r| ==> r[k] - r[k - 1] >= cfg.rebootAfterMins * 60)
    && Flags(log, ip) <= 1
    && (Flags(log, ip) == 1 && cfg.retries >= 0 ==> |r| == 1 + cfg.retries)
  }

  lemma BoundedStep(cfg: Config, loaded: map<Ip, seq<bool>>, log: seq<Event>, e: Event, ip: Ip)
    requires OutageBounded(cfg, log, ip) && Justified(cfg, loaded, log, e)
    ensures OutageBounded(cfg, log + [e], ip)
  {
    hide Fails, Reboots, Flags, Latest, TwoOthersHealthy;
    Appended(log, e, ip, loaded);
  }

  lemma {:induction false} OutagesAreBounded(cfg: Config, loaded: map<Ip, seq<bool>>, log: seq<Event>, ip: Ip)
    requires Safe(cfg, loaded, log)
    ensures OutageBounded(cfg, log, ip)
  {
    if log != [] {
      hide Justified, OutageBounded;
      var init, e := log[..|log| - 1], log[|log| - 1];
      OutagesAreBounded(cfg, loaded, init, ip);
      BoundedStep(cfg, loaded, init, e, ip);
      assert log == init + [e];
    }
  }

  /** The bounds hold throughout every run of the monitor. */
  lemma OutageBudget(cfg: Config, loaded: map<Ip, seq<bool>>, steps: seq<Step>, ip: Ip)
    ensures OutageBounded(cfg, After(cfg, loaded, steps).log, ip)
    ensures ip == cfg.vip ==> Reboots(After(cfg, loaded, steps).log, ip) == []
  {
    EveryRunIsSafe(cfg, loaded, steps);
    OutagesAreBounded(cfg, loaded, After(cfg, loaded, steps).log, ip);
    if ip == cfg.vip {
      VipIsLeftAlone(cfg, loaded, After(cfg, loaded, steps).log);
    }
  }

  lemma {:induction false} VipIsLeftAlone(cfg: Config, loaded: map<Ip, seq<bool>>, log: seq<Event>)
    requires Safe(cfg, loaded, log)
    ensures Reboots(log, cfg.vip) == []
  {
    if log != [] {
      hide Latest, TwoOthersHealthy, Fails, Flags;
      VipIsLeftAlone(cfg, loaded, log[..|log| - 1]);
    }
  }

  /** Any moment of a run: the event at i is justified by the events before it. */
  lemma {:induction false} JustifiedAt(cfg: Config, loaded: map<Ip, seq<bool>>, log: seq<Event>, i: nat)
    requires Safe(cfg, loaded, log) && i < |log|
    ensures Safe(cfg, loaded, log[..i]) && Justified(cfg, loaded, log[..i], log[i])
    decreases |log|
  {
    hide Justified;
    if i < |log| - 1 {
      var init := log[..|log| - 1];
      JustifiedAt(cfg, loaded, init, i);
      assert init[..i] == log[..i] && init[i] == log[i];
    }
  }

  // --- The quorum behind a reboot ---

  ghost predicate NamedTwice(listed: seq<Ip>, ip: Ip)
  {
    exists j, k :: 0 <= j < k < |listed| && listed[j] == ip && listed[k] == ip
  }

  /** No node whose check counts for the quorum is named twice; the failing node and the VIP may be. */
  ghost predicate VotersOnce(cfg: Config, listed: seq<Ip>, ip: Ip)
  {
    forall other :: other != ip && other != cfg.vip ==> !NamedTwice(listed, other)
  }

  /** Two distinct other nodes of the list, neither of them the VIP, whose latest check is healthy. */
  ghost predicate Backed(cfg: Config, loaded: map<Ip, seq<bool>>, log: seq<Event>, listed: seq<Ip>, ip: Ip)
  {
    exists a, b :: a != b && a in listed && b in listed && IsHealthyOther(cfg, loaded, log, a, ip) && IsHealthyOther(cfg, loaded, log, b, ip)
  }

  /** Every reboot of the node under this list, in any run from these checks, has two nodes behind it. */
  ghost predicate RebootsBacked(cfg: Config, loaded: map<Ip, seq<bool>>, listed: seq<Ip>, ip: Ip)
  {
    forall steps, i, ts :: RebootAt(cfg, loaded, steps, i, ip, ts, listed) ==> Backed(cfg, loaded, After(cfg, loaded, steps).log[..i], listed, ip)
  }

  ghost predicate RebootAt(cfg: Config, loaded: map<Ip, seq<bool>>, steps: seq<Step>, i: int, ip: Ip, ts: int, listed: seq<Ip>)
  {
    var log := After(cfg, loaded, steps).log;
    0 <= i < |log| && log[i] == Reboot(ip, ts, listed)
  }

  /** A reboot follows at once a failed check outside maintenance, is never for the VIP, and with a list
      that names no voter twice has two other nodes behind it. */
  lemma RebootHasQuorum(cfg: Config, loaded: map<Ip, seq<bool>>, steps: seq<Step>, i: nat, ip: Ip, ts: int, listed: seq<Ip>)
    requires RebootAt(cfg, loaded, steps, i, ip, ts, listed)
    ensures
      var before := After(cfg, loaded, steps).log[..i];
      && ip != cfg.vip && i > 0 && before[i - 1] == Down(ip, ts, false)
      && (VotersOnce(cfg, listed, ip) ==> Backed(cfg, loaded, before, listed, ip))
  {
    var log := After(cfg, loaded, steps).log;
    EveryRunIsSafe(cfg, loaded, steps);
    JustifiedAt(cfg, loaded, log, i);
    hide Fails, Reboots, Flags, Latest, After;
    var j, k :| 0 <= j < k < |listed| && IsHealthyOther(cfg, loaded, log[..i], listed[j], ip) && IsHealthyOther(cfg, loaded, log[..i], listed[k], ip);
    if VotersOnce(cfg, listed, ip) {
      assert !NamedTwice(listed, listed[j]);
    }
  }

  /** The history is cleared, one node answers, and then the other stays down. */
  function DownRun(ip: Ip, healthy: Ip, listed: seq<Ip>, n: nat): seq<Step>
  {
    if n == 0 then [Clear, Visit(Check(healthy, 0, true, false, listed))]
    else DownRun(ip, healthy, listed, n - 1) + [Visit(Check(ip, 0, false, false, listed))]
  }

  lemma RunStart(cfg: Config, loaded: map<Ip, seq<bool>>, ip: Ip, healthy: Ip, listed: seq<Ip>)
    ensures After(cfg, loaded, DownRun(ip, healthy, listed, 0)).log == [Wiped, Up(healthy)]
  {
    var c := Check(healthy, 0, true, false, listed);
    var steps := [Clear, Visit(c)];
    assert steps[..1] == [Clear] && [Clear][..0] == [];
    assert After(cfg, loaded, []) == Started(loaded);
    assert After(cfg, loaded, [Clear]) == Cleared(Started(loaded));
    assert [Wiped] + [Up(healthy)] == [Wiped, Up(healthy)];
  }

  /** So far the node is down and not rebooted, and only the one node looks healthy. */
  ghost predicate StillDown(loaded: map<Ip, seq<bool>>, log: seq<Event>, ip: Ip, healthy: Ip, n: nat)
  {
    Fails(log, ip) == n && Reboots(log, ip) == [] && forall x :: Latest(log, x, loaded) <==> x == healthy
  }

  lemma StartStillDown(loaded: map<Ip, seq<bool>>, ip: Ip, healthy: Ip)
    requires ip != healthy
    ensures StillDown(loaded, [Wiped, Up(healthy)], ip, healthy, 0)
  {
    var log := [] + [Wiped];
    assert log + [Up(healthy)] == [Wiped, Up(healthy)];
    assert Fails([], ip) == 0 && Reboots([], ip) == [];
    hide Fails, Reboots, Flags, Latest;
    Appended([], Wiped, ip, loaded);
    Appended(log, Up(healthy), ip, loaded);
    forall x ensures Latest(log + [Up(healthy)], x, loaded) <==> x == healthy {
      Appended([], Wiped, x, loaded);
      Appended(log, Up(healthy), x, loaded);
    }
  }

  lemma DownStep(loaded: map<Ip, seq<bool>>, log: seq<Event>, ip: Ip, healthy: Ip, n: nat)
    requires StillDown(loaded, log, ip, healthy, n) && ip != healthy
    ensures StillDown(loaded, log + [Down(ip, 0, false)], ip, healthy, n + 1)
    ensures StillDown(loaded, log + [Down(ip, 0, false)] + [Flag(ip, 0)], ip, healthy, n + 1)
  {
    hide Fails, Reboots, Flags, Latest;
    var down := log + [Down(ip, 0, false)];
    Appended(log, Down(ip, 0, false), ip, loaded);
    Appended(down, Flag(ip, 0), ip, loaded);
    forall x
      ensures Latest(down, x, loaded) <==> x == healthy
      ensures Latest(down + [Flag(ip, 0)], x, loaded) <==> x == healthy
    {
      Appended(log, Down(ip, 0, false), x, loaded);
      Appended(down, Flag(ip, 0), x, loaded);
    }
  }

  /** A failed check before a reboot is due. */
  lemma NotYetDue(cfg: Config, loaded: map<Ip, seq<bool>>, s: State, ip: Ip, healthy: Ip, listed: seq<Ip>, n: nat)
    requires Good(cfg, loaded, s) && StillDown(loaded, s.log, ip, healthy, n) && ip != healthy && n < cfg.rebootAfter
    ensures StillDown(loaded, Checked(cfg, s, Check(ip, 0, false, false, listed)).log, ip, healthy, n + 1)
  {
    var c, down := Check(ip, 0, false, false, listed), s.log + [Down(ip, 0, false)];
    FailureConsequence(cfg, loaded, s, c);
    DownStep(loaded, s.log, ip, healthy, n);
    hide Good, Checked, TwoOthersHealthy, Fails, Reboots, Flags, Latest;
    assert !Due(cfg, down, ip, 0);
    assert down + [] == down;
  }

  lemma {:induction false} StaysDown(cfg: Config, loaded: map<Ip, seq<bool>>, ip: Ip, healthy: Ip, listed: seq<Ip>, n: nat)
    requires ip != healthy && (n == 0 || n <= cfg.rebootAfter)
    ensures StillDown(loaded, After(cfg, loaded, DownRun(ip, healthy, listed, n)).log, ip, healthy, n)
  {
    hide *;
    if n == 0 {
      RunStart(cfg, loaded, ip, healthy, listed);
      StartStillDown(loaded, ip, healthy);
    } else {
      StaysDown(cfg, loaded, ip, healthy, listed, n - 1);
      EveryRunIsSafe(cfg, loaded, DownRun(ip, healthy, listed, n - 1));
      DownRunStep(cfg, loaded, ip, healthy, listed, n);
      NotYetDue(cfg, loaded, After(cfg, loaded, DownRun(ip, healthy, listed, n - 1)), ip, healthy, listed, n - 1);
    }
  }

  lemma DownRunStep(cfg: Config, loaded: map<Ip, seq<bool>>, ip: Ip, healthy: Ip, listed: seq<Ip>, n: nat)
    requires n > 0
    ensures After(cfg, loaded, DownRun(ip, healthy, listed, n))
         == Checked(cfg, After(cfg, loaded, DownRun(ip, healthy, listed, n - 1)), Check(ip, 0, false, false, listed))
  {
    hide Checked;
    var steps, c := DownRun(ip, healthy, listed, n - 1), Check(ip, 0, false, false, listed);
    assert (steps + [Visit(c)])[..|steps|] == steps;
  }

  /** The failed check that makes the reboot due. */
  lemma DueReboots(cfg: Config, loaded: map<Ip, seq<bool>>, s: State, ip: Ip, healthy: Ip, listed: seq<Ip>, n: nat)
    requires Good(cfg, loaded, s) && StillDown(loaded, s.log, ip, healthy, n) && n >= cfg.rebootAfter
    requires ip != healthy && ip != cfg.vip && healthy != cfg.vip && NamedTwice(listed, healthy)
    ensures
      var down := s.log + [Down(ip, 0, false)];
      && Checked(cfg, s, Check(ip, 0, false, false, listed)).log == down + [Reboot(ip, 0, listed)]
      && !Backed(cfg, loaded, down, listed, ip)
  {
    var c, down := Check(ip, 0, false, false, listed), s.log + [Down(ip, 0, false)];
    FailureConsequence(cfg, loaded, s, c);
    DownStep(loaded, s.log, ip, healthy, n);
    hide Good, Checked, Fails, Reboots, Flags, Latest;
    assert Due(cfg, down, ip, 0);
    var j, k :| 0 <= j < k < |listed| && listed[j] == healthy && listed[k] == healthy;
    assert IsHealthyOther(cfg, loaded, down, listed[j], ip) && IsHealthyOther(cfg, loaded, down, listed[k], ip);
    assert TwoOthersHealthy(cfg, loaded, down, listed, ip);
  }

  /** A voter that the list names twice is quorum enough: when all others are down, the node is rebooted
      after as many failed checks as it takes. */
  lemma RepeatedVoterReboots(cfg: Config, loaded: map<Ip, seq<bool>>, ip: Ip, healthy: Ip, listed: seq<Ip>)
    requires ip != healthy && ip != cfg.vip && healthy != cfg.vip && NamedTwice(listed, healthy)
    ensures
      var n := if cfg.rebootAfter < 0 then 0 else cfg.rebootAfter;
      var steps := DownRun(ip, healthy, listed, n + 1);
      var i := |After(cfg, loaded, steps).log| - 1;
      RebootAt(cfg, loaded, steps, i, ip, 0, listed) && !Backed(cfg, loaded, After(cfg, loaded, steps).log[..i], listed, ip)
  {
    hide After, DownRun, Good, StillDown, Checked, NamedTwice, Backed;
    var n := if cfg.rebootAfter < 0 then 0 else cfg.rebootAfter;
    var steps := DownRun(ip, healthy, listed, n);
    var s := After(cfg, loaded, steps);
    StaysDown(cfg, loaded, ip, healthy, listed, n);
    EveryRunIsSafe(cfg, loaded, steps);
    DownRunStep(cfg, loaded, ip, healthy, listed, n + 1);
    DueReboots(cfg, loaded, s, ip, healthy, listed, n);
    var down := s.log + [Down(ip, 0, false)];
    assert (down + [Reboot(ip, 0, listed)])[..|down|] == down;
  }

  /** Under a list every reboot of a node has two distinct healthy others behind it, in every run, exactly
      when the list names no other voter twice; the VIP is never rebooted. */
  lemma QuorumIffVotersOnce(cfg: Config, loaded: map<Ip, seq<bool>>, listed: seq<Ip>, ip: Ip)
    ensures RebootsBacked(cfg, loaded, listed, ip) <==> ip == cfg.vip || VotersOnce(cfg, listed, ip)
  {
    hide After, Backed, NamedTwice;
    if ip == cfg.vip || VotersOnce(cfg, listed, ip) {
      forall steps, i, ts | RebootAt(cfg, loaded, steps, i, ip, ts, listed)
        ensures Backed(cfg, loaded, After(cfg, loaded, steps).log[..i], listed, ip)
      {
        RebootHasQuorum(cfg, loaded, steps, i, ip, ts, listed);
      }
    } else {
      var healthy :| healthy != ip && healthy != cfg.vip && NamedTwice(listed, healthy);
      RepeatedVoterReboots(cfg, loaded, ip, healthy, listed);
    }
  }

  // --- What is remembered ---

  /** A check is remembered behind the ones before it, up to the last hundred, and changes no other node's. */
  lemma RecordedChecks(s: State, c: Check)
    ensures
      var known := Get(s.checks, c.ip).GetOr([]) + [c.ok];
      var kept := Recorded(s, c).checks;
      && kept.Keys == s.checks.Keys + {c.ip} && kept[c.ip] == (if |known| <= 100 then known else known[|known| - 100..])
      && forall ip :: ip in s.checks && ip != c.ip ==> kept[ip] == s.checks[ip]
  {
  }

  /** The start of the current failures is kept as the log has it. */
  ghost predicate TracksFailures(s: State)
  {
    forall ip :: Get(s.failSince, ip) == FailingSince(s.log, ip)
  }

  lemma FailingStep(log: seq<Event>, e: Event, ip: Ip)
    ensures FailingSince(log + [e], ip)
         == if e == Up(ip) then None
            else if e.Down? && e.ip == ip && FailingSince(log, ip).None? then Some(e.ts)
            else FailingSince(log, ip)
  {
    assert (log + [e])[..|log|] == log;
  }

  /** A failure is logged, and after it a reboot, a flag or nothing. */
  lemma EscalatedLog(cfg: Config, s: State, c: Check)
    ensures
      var t, down := Escalated(cfg, Failed(s, c), c), s.log + [Down(c.ip, c.ts, c.maintenance)];
      && t.failSince == (if c.ip in s.failSince then s.failSince else s.failSince[c.ip := c.ts])
      && (t.log == down || t.log == down + [Reboot(c.ip, c.ts, c.listed)] || t.log == down + [Flag(c.ip, c.ts)])
  {
    hide ShouldAttempt, HealthyOthers;
  }

  lemma CheckedFailures(cfg: Config, s: State, c: Check)
    requires TracksFailures(s)
    ensures TracksFailures(Checked(cfg, s, c))
  {
    var r, t := Recorded(s, c), Checked(cfg, s, c);
    assert r.failSince == s.failSince && r.log == s.log;
    EscalatedLog(cfg, r, c);
    hide Recorded, FailingSince, Escalated, Failed;
    forall ip ensures Get(t.failSince, ip) == FailingSince(t.log, ip) {
      if c.ok {
        FailingStep(s.log, Up(c.ip), ip);
      } else {
        DownSteps(s.log, c, ip);
      }
    }
  }

  lemma DownSteps(log: seq<Event>, c: Check, ip: Ip)
    ensures
      var down := log + [Down(c.ip, c.ts, c.maintenance)];
      && FailingSince(down, ip) == (if c.ip == ip && FailingSince(log, ip).None? then Some(c.ts) else FailingSince(log, ip))
      && FailingSince(down + [Reboot(c.ip, c.ts, c.listed)], ip) == FailingSince(down, ip)
      && FailingSince(down + [Flag(c.ip, c.ts)], ip) == FailingSince(down, ip)
  {
    hide FailingSince;
    var down := Down(c.ip, c.ts, c.maintenance);
    FailingStep(log, down, ip);
    FailingStep(log + [down], Reboot(c.ip, c.ts, c.listed), ip);
    FailingStep(log + [down], Flag(c.ip, c.ts), ip);
  }

  /** In every run. */
  lemma {:induction false} FailuresAreDated(cfg: Config, loaded: map<Ip, seq<bool>>, steps: seq<Step>)
    ensures TracksFailures(After(cfg, loaded, steps))
  {
    if steps != [] {
      var s := After(cfg, loaded, steps[..|steps| - 1]);
      FailuresAreDated(cfg, loaded, steps[..|steps| - 1]);
      match steps[|steps| - 1]
      case Visit(c) =>
        hide TracksFailures, Checked;
        CheckedFailures(cfg, s, c);
      case Clear =>
        forall ip ensures FailingSince(s.log + [Wiped], ip) == FailingSince(s.log, ip) {
          FailingStep(s.log, Wiped, ip);
        }
    }
  }
}
