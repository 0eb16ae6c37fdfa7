/** DHCP follows the VIP: every tick makes the VIP master the only node that serves DHCP. */
module DhcpFailover {
  import opened Common

  const MAX_HISTORY: nat := 20

  /** The active node moved; the first move has no origin. */
  datatype Move = Move(origin: Option<Ip>, target: Ip)

  /** What one tick meets outside: who is listed, holds the VIP, is in maintenance, can be read,
      and accepts a write. */
  datatype Surroundings = Surroundings(vipConfigured: bool, ips: seq<Ip>, holders: set<Ip>, maintenance: set<Ip>,
                                       readable: set<Ip>, accepts: set<Ip>)
  {
    predicate Skips(ip: Ip)
    {
      ip in maintenance || ip !in readable
    }
  }

  /** The saved state, the nodes' own switches, and the writes sent so far. */
  datatype Saved = Saved(enabled: bool, activeNode: Option<Ip>, history: seq<Move>, active: map<Ip, bool>, writes: seq<(Ip, bool)>)

  function LastOf<T>(s: seq<T>, n: nat): seq<T>
  {
    if |s| <= n then s else s[|s| - n..]
  }

  /** The first listed node that holds the VIP. */
  function Master(ips: seq<Ip>, holders: set<Ip>): (r: Option<Ip>)
    ensures r.Some? ==> r.value in ips && r.value in holders
    ensures r.None? ==> forall ip :: ip in ips ==> ip !in holders
  {
    if ips == [] then None else if ips[0] in holders then Some(ips[0]) else Master(ips[1..], holders)
  }

  /** The nodes' switches and the writes sent, after visiting these nodes. */
  function Enforce(ips: seq<Ip>, master: Ip, env: Surroundings, active: map<Ip, bool>, writes: seq<(Ip, bool)>)
      : (r: (map<Ip, bool>, seq<(Ip, bool)>))
    ensures r.0.Keys == active.Keys
  {
    if ips == [] then (active, writes)
    else
      var (a, w) := Enforce(ips[..|ips| - 1], master, env, active, writes);
      var ip := ips[|ips| - 1];
      if env.Skips(ip) || Get(a, ip) == Some(ip == master) then (a, w)
      else (if ip in env.accepts && ip in a then a[ip := ip == master] else a, w + [(ip, ip == master)])
  }

  function Moved(s: Saved, master: Ip): Saved
  {
    if s.activeNode == Some(master) then s
    else s.(activeNode := Some(master), history := LastOf(s.history + [Move(s.activeNode, master)], MAX_HISTORY))
  }

  function Enforced(s: Saved, master: Ip, env: Surroundings): Saved
  {
    var r := Enforce(env.ips, master, env, s.active, s.writes);
    s.(active := r.0, writes := r.1)
  }

  /** The master a tick acts on, if it acts at all. */
  function ActsOn(s: Saved, env: Surroundings): Option<Ip>
  {
    if s.enabled && env.vipConfigured then Master(env.ips, env.holders) else None
  }

  function Ticked(s: Saved, env: Surroundings): Saved
  {
    match ActsOn(s, env)
    case None => s
    case Some(master) => Enforced(Moved(s, master), master, env)
  }

  /** The k-th listed node holds the VIP, and none before it. */
  ghost predicate FirstHolder(env: Surroundings, k: int)
  {
    0 <= k < |env.ips| && env.ips[k] in env.holders && forall j :: 0 <= j < k ==> env.ips[j] !in env.holders
  }

  lemma {:induction false} MasterAt(ips: seq<Ip>, holders: set<Ip>) returns (k: int)
    ensures Master(ips, holders).None? <==> forall ip :: ip in ips ==> ip !in holders
    ensures Master(ips, holders).Some? ==>
      0 <= k < |ips| && ips[k] in holders && (forall j :: 0 <= j < k ==> ips[j] !in holders) && Master(ips, holders) == Some(ips[k])
  {
    k := 0;
    if ips != [] && ips[0] !in holders {
      k := MasterAt(ips[1..], holders);
      k := k + 1;
    }
  }

  lemma MasterIsFirst(env: Surroundings)
    ensures Master(env.ips, env.holders).None? <==> forall ip :: ip in env.ips ==> ip !in env.holders
    ensures Master(env.ips, env.holders).Some? ==> exists k :: FirstHolder(env, k) && Master(env.ips, env.holders) == Some(env.ips[k])
  {
    var k := MasterAt(env.ips, env.holders);
    if Master(env.ips, env.holders).Some? {
      assert FirstHolder(env, k);
    }
  }

  lemma EnforceStep(ips: seq<Ip>, i: nat, master: Ip, env: Surroundings, active: map<Ip, bool>, writes: seq<(Ip, bool)>)
    requires i < |ips|
    ensures Enforce(ips[..0], master, env, active, writes) == (active, writes) && ips[..|ips|] == ips
    ensures
      var ip, (a, w) := ips[i], Enforce(ips[..i], master, env, active, writes);
      Enforce(ips[..i + 1], master, env, active, writes)
      == if env.Skips(ip) || Get(a, ip) == Some(ip == master) then (a, w)
         else (if ip in env.accepts && ip in a then a[ip := ip == master] else a, w + [(ip, ip == master)])
  {
    assert ips[..i + 1][..i] == ips[..i];
  }

  class Enforcer {
    var enabled: bool
    var activeNode: Option<Ip>
    var history: seq<Move>
    var active: map<Ip, bool>
    var writes: seq<(Ip, bool)>

    function State(): Saved
      reads this
    {
      Saved(enabled, activeNode, history, active, writes)
    }

    /** No state file yet. */
    constructor (active: map<Ip, bool>)
      ensures State() == Initial(active)
    {
      enabled, activeNode, history, this.active, writes := false, None, [], active, [];
    }

    method SetEnabled(on: bool)
      modifies this`enabled
      ensures State() == old(State()).(enabled := on)
    {
      enabled := on;
    }

    method DetectVipMaster(env: Surroundings) returns (master: Option<Ip>)
      ensures master == Master(env.ips, env.holders)
      ensures master.None? <==> forall ip :: ip in env.ips ==> ip !in env.holders
      ensures master.Some? ==> exists k :: FirstHolder(env, k) && master == Some(env.ips[k])
    {
      MasterIsFirst(env);
      for i := 0 to |env.ips|
        invariant Master(env.ips, env.holders) == Master(env.ips[i..], env.holders)
      {
        if env.ips[i] in env.holders {
          return Some(env.ips[i]);
        }
        assert env.ips[i..][1..] == env.ips[i + 1..];
      }
      return None;
    }

    /** Append, then drop what exceeds the bound from the front. */
    method RecordHistory(origin: Option<Ip>, target: Ip)
      modifies this`history
      ensures history == LastOf(old(history) + [Move(origin, target)], MAX_HISTORY)
    {
      history := history + [Move(origin, target)];
      if |history| > MAX_HISTORY {
        history := history[|history| - MAX_HISTORY..];
      }
    }

    method Tick(env: Surroundings)
      requires forall ip :: ip in env.ips ==> ip in active
      modifies this
      ensures State() == Ticked(old(State()), env) && active.Keys == old(active).Keys
    {
      if !enabled {
        return;
      }
      if !env.vipConfigured || env.ips == [] {
        return;
      }
      var detected := DetectVipMaster(env);
      if detected.None? {
        return;
      }
      var master := detected.value;
      if Some(master) != activeNode {
        RecordHistory(activeNode, master);
        activeNode := Some(master);
      }
      hide Enforce;
      label Recorded:
      EnforceStep(env.ips, 0, master, env, active, writes);
      for i := 0 to |env.ips|
        invariant enabled && activeNode == old@Recorded(activeNode) && history == old@Recorded(history)
        invariant active.Keys == old(active).Keys
        invariant (active, writes) == Enforce(env.ips[..i], master, env, old(active), old(writes))
      {
        EnforceStep(env.ips, i, master, env, old(active), old(writes));
        var ip := env.ips[i];
        if ip in env.maintenance {
          continue;
        }
        var wantActive := ip == master;
        if ip !in env.readable {
          continue;
        }
        if active[ip] != wantActive {
          writes := writes + [(ip, wantActive)];
          if ip in env.accepts {
            active := active[ip := wantActive];
          }
        }
      }
    }
  }

  // --- One tick ---

  /** A node that is skipped, not listed, or refuses the write keeps its switch; every other node
      follows the master. */
  lemma {:induction false} EnforceAt(ips: seq<Ip>, master: Ip, env: Surroundings, active: map<Ip, bool>, writes: seq<(Ip, bool)>, ip: Ip)
    requires ip in active
    ensures Enforce(ips, master, env, active, writes).0[ip]
         == if ip in ips && !env.Skips(ip) && ip in env.accepts then ip == master else active[ip]
  {
    if ips != [] {
      var init := ips[..|ips| - 1];
      assert ips == init + [ips[|ips| - 1]];
      EnforceAt(init, master, env, active, writes, ip);
    }
  }

  /** Nothing is written where every node that is looked at already agrees. */
  lemma {:induction false} EnforceIdle(ips: seq<Ip>, master: Ip, env: Surroundings, active: map<Ip, bool>, writes: seq<(Ip, bool)>)
    requires forall ip :: ip in ips && !env.Skips(ip) ==> Get(active, ip) == Some(ip == master)
    ensures Enforce(ips, master, env, active, writes) == (active, writes)
  {
    if ips != [] {
      EnforceIdle(ips[..|ips| - 1], master, env, active, writes);
    }
  }

  /** Exactly one of the listed nodes serves DHCP, and it is the master. */
  ghost predicate OnlyActive(ips: seq<Ip>, active: map<Ip, bool>, master: Ip)
  {
    master in ips && forall ip :: ip in ips ==> Get(active, ip) == Some(ip == master)
  }

  /** Whatever the switches were, one tick that reaches every node leaves the master alone active,
      and a second tick that sees the same master writes nothing. */
  lemma TickStabilises(s: Saved, env: Surroundings, again: Surroundings)
    requires forall ip :: ip in env.ips ==> ip in s.active
    requires ActsOn(s, env).Some?
    requires forall ip :: ip in env.ips ==> !env.Skips(ip) && ip in env.accepts
    requires again.ips == env.ips && again.vipConfigured && again.holders == env.holders
    ensures OnlyActive(env.ips, Ticked(s, env).active, ActsOn(s, env).value)
    ensures Ticked(Ticked(s, env), again) == Ticked(s, env)
  {
    var master := ActsOn(s, env).value;
    var t := Ticked(s, env);
    forall ip | ip in env.ips ensures Get(t.active, ip) == Some(ip == master) {
      EnforceAt(env.ips, master, env, s.active, s.writes, ip);
    }
    EnforceIdle(env.ips, master, again, t.active, t.writes);
  }

  /** What a tick does: nothing while it is disabled, without a VIP, or when no listed node holds it. Else
      the first listed holder becomes the active node, a change of it is added to the last twenty, and
      every listed node that is not in maintenance, can be read and accepts a write follows it. */
  lemma TickEffect(s: Saved, env: Surroundings)
    ensures !s.enabled || !env.vipConfigured || (forall ip :: ip in env.ips ==> ip !in env.holders) ==> Ticked(s, env) == s
    ensures s.enabled && env.vipConfigured ==> forall k :: FirstHolder(env, k) ==>
      var t, master, moves := Ticked(s, env), env.ips[k], s.history + [Move(s.activeNode, env.ips[k])];
      && t.enabled && t.activeNode == Some(master) && t.active.Keys == s.active.Keys
      && t.history == (if s.activeNode == Some(master) then s.history else if |moves| <= 20 then moves else moves[|moves| - 20..])
      && forall ip :: ip in s.active ==>
           t.active[ip] == if ip in env.ips && ip !in env.maintenance && ip in env.readable && ip in env.accepts then ip == master else s.active[ip]
  {
    MasterIsFirst(env);
    if s.enabled && env.vipConfigured {
      forall k | FirstHolder(env, k)
        ensures
          var t, master, moves := Ticked(s, env), env.ips[k], s.history + [Move(s.activeNode, env.ips[k])];
          && t.enabled && t.activeNode == Some(master) && t.active.Keys == s.active.Keys
          && t.history == (if s.activeNode == Some(master) then s.history else if |moves| <= 20 then moves else moves[|moves| - 20..])
          && forall ip :: ip in s.active ==>
               t.active[ip] == if ip in env.ips && ip !in env.maintenance && ip in env.readable && ip in env.accepts then ip == master else s.active[ip]
      {
        var master := env.ips[k];
        assert Master(env.ips, env.holders) == Some(master);
        hide Master, Enforce;
        forall ip | ip in s.active
          ensures Ticked(s, env).active[ip]
               == if ip in env.ips && ip !in env.maintenance && ip in env.readable && ip in env.accepts then ip == master else s.active[ip]
        {
          EnforceAt(env.ips, master, env, s.active, s.writes, ip);
        }
      }
    }
  }

  /** Every write a tick sends is to a listed node that is not in maintenance, can be read, and stood the other
      way before; it tells the node whether it is the master. */
  lemma {:induction false} WritesAreNeeded(ips: seq<Ip>, master: Ip, env: Surroundings, active: map<Ip, bool>, writes: seq<(Ip, bool)>)
    requires forall ip :: ip in ips ==> ip in active
    ensures
      var sent := Enforce(ips, master, env, active, writes).1;
      && |sent| >= |writes| && sent[..|writes|] == writes
      && (forall i :: |writes| <= i < |sent| ==>
            var (ip, on) := sent[i];
            ip in ips && ip !in env.maintenance && ip in env.readable && active[ip] != on && on == (ip == master))
      && forall ip :: ip in ips && ip !in env.maintenance && ip in env.readable && active[ip] != (ip == master) ==> (ip, ip == master) in sent
  {
    if ips != [] {
      var init, ip := ips[..|ips| - 1], ips[|ips| - 1];
      WritesAreNeeded(init, master, env, active, writes);
      EnforceAt(init, master, env, active, writes, ip);
      assert ips == init + [ip];
    }
  }

  // --- Every run ---

  datatype Step = Tick(env: Surroundings) | SetEnabled(on: bool)

  function Initial(active: map<Ip, bool>): Saved
  {
    Saved(false, None, [], active, [])
  }

  function Next(s: Saved, step: Step): Saved
  {
    match step
    case Tick(env) => Ticked(s, env)
    case SetEnabled(on) => s.(enabled := on)
  }

  function After(steps: seq<Step>, active: map<Ip, bool>): Saved
  {
    if steps == [] then Initial(active) else Next(After(steps[..|steps| - 1], active), steps[|steps| - 1])
  }

  /** The master this step acts on, if any. */
  function Saw(s: Saved, step: Step): seq<Ip>
  {
    if step.Tick? && ActsOn(s, step.env).Some? then [ActsOn(s, step.env).value] else []
  }

  /** The masters the acting ticks of a run saw, in order. */
  function Masters(steps: seq<Step>, active: map<Ip, bool>): seq<Ip>
  {
    if steps == [] then []
    else
      var init := steps[..|steps| - 1];
      Masters(init, active) + Saw(After(init, active), steps[|steps| - 1])
  }

  function Latest(masters: seq<Ip>): Option<Ip>
  {
    if masters == [] then None else Some(masters[|masters| - 1])
  }

  /** A move for every change of the master. */
  function Moves(masters: seq<Ip>): seq<Move>
  {
    if masters == [] then []
    else
      var init, m := masters[..|masters| - 1], masters[|masters| - 1];
      Moves(init) + if Latest(init) == Some(m) then [] else [Move(Latest(init), m)]
  }

  lemma MovesStep(masters: seq<Ip>, m: Ip)
    ensures Latest(masters + [m]) == Some(m)
    ensures Latest(masters) == Some(m) ==> Moves(masters + [m]) == Moves(masters)
    ensures Latest(masters) != Some(m) ==>
      LastOf(Moves(masters + [m]), MAX_HISTORY) == LastOf(LastOf(Moves(masters), MAX_HISTORY) + [Move(Latest(masters), m)], MAX_HISTORY)
  {
    assert (masters + [m])[..|masters|] == masters;
    LastOfAppend(Moves(masters), Move(Latest(masters), m), MAX_HISTORY);
  }

  lemma LastOfAppend<T>(s: seq<T>, x: T, n: nat)
    requires n > 0
    ensures LastOf(LastOf(s, n) + [x], n) == LastOf(s + [x], n)
  {
  }

  ghost predicate Records(s: Saved, masters: seq<Ip>)
  {
    s.history == LastOf(Moves(masters), MAX_HISTORY) && s.activeNode == Latest(masters)
  }

  lemma NextRecords(s: Saved, step: Step, masters: seq<Ip>)
    requires Records(s, masters)
    ensures Records(Next(s, step), masters + Saw(s, step))
  {
    hide Enforce, LastOf, Moves, Latest;
    if step.Tick? && ActsOn(s, step.env).Some? {
      MovesStep(masters, ActsOn(s, step.env).value);
    } else {
      assert masters + [] == masters;
    }
  }

  /** The history is the last 20 changes of the master over the whole run. */
  lemma {:induction false} HistoryIsRecentMoves(steps: seq<Step>, active: map<Ip, bool>)
    ensures Records(After(steps, active), Masters(steps, active))
  {
    if steps != [] {
      hide Records, Next, Saw;
      var init := steps[..|steps| - 1];
      HistoryIsRecentMoves(init, active);
      NextRecords(After(init, active), steps[|steps| - 1], Masters(init, active));
    }
  }

  lemma AfterStep(steps: seq<Step>, step: Step, active: map<Ip, bool>)
    ensures After(steps + [step], active) == Next(After(steps, active), step)
  {
    assert (steps + [step])[..|steps|] == steps;
  }

  lemma NextKeepsSwitch(s: Saved, step: Step)
    requires step.Tick?
    ensures Next(s, step).enabled == s.enabled && (!s.enabled ==> Next(s, step) == s)
  {
    hide Enforce, Master, LastOf;
  }

  lemma {:induction false} TicksKeepSwitch(steps: seq<Step>, ticks: seq<Step>, active: map<Ip, bool>)
    requires forall i :: 0 <= i < |ticks| ==> ticks[i].Tick?
    ensures After(steps + ticks, active).enabled == After(steps, active).enabled
    ensures !After(steps, active).enabled ==> After(steps + ticks, active) == After(steps, active)
  {
    hide Next;
    if ticks == [] {
      assert steps + ticks == steps;
    } else {
      var init, last := ticks[..|ticks| - 1], ticks[|ticks| - 1];
      TicksKeepSwitch(steps, init, active);
      AfterStep(steps + init, last, active);
      NextKeepsSwitch(After(steps + init, active), last);
      assert steps + ticks == (steps + init) + [last];
    }
  }

  /** However a run began: once switched off nothing moves, and once switched on the active node is the first
      holder that the latest tick met. */
  lemma SwitchDecides(before: seq<Step>, ticks: seq<Step>, env: Surroundings, k: int, active: map<Ip, bool>)
    requires (forall i :: 0 <= i < |ticks| ==> ticks[i].Tick?) && env.vipConfigured && FirstHolder(env, k)
    ensures After(before + [SetEnabled(false)] + ticks, active) == After(before, active).(enabled := false)
    ensures
      var s := After(before + [SetEnabled(true)] + ticks + [Tick(env)], active);
      s.enabled && s.activeNode == Some(env.ips[k])
  {
    hide After, Ticked, FirstHolder;
    AfterStep(before, SetEnabled(false), active);
    AfterStep(before, SetEnabled(true), active);
    TicksKeepSwitch(before + [SetEnabled(false)], ticks, active);
    TicksKeepSwitch(before + [SetEnabled(true)], ticks, active);
    var s := After(before + [SetEnabled(true)] + ticks, active);
    AfterStep(before + [SetEnabled(true)] + ticks, Tick(env), active);
    TickEffect(s, env);
  }

  /** The enforcer itself, through any run of ticks and switches. */
  method RunAll(steps: seq<Step>, active: map<Ip, bool>) returns (e: Enforcer)
    requires forall i, ip :: 0 <= i < |steps| && steps[i].Tick? && ip in steps[i].env.ips ==> ip in active
    ensures fresh(e) && e.State() == After(steps, active)
  {
    hide Ticked;
    e := new Enforcer(active);
    for i := 0 to |steps|
      invariant fresh(e) && e.State() == After(steps[..i], active) && e.active.Keys == active.Keys
    {
      assert steps[..i + 1][..i] == steps[..i];
      match steps[i] {
        case Tick(env) => e.Tick(env);
        case SetEnabled(on) => e.SetEnabled(on);
      }
    }
    assert steps[..|steps|] == steps;
  }

  /** Each entry starts where the one before it ended, and none moves to itself. */
  ghost predicate Linked(history: seq<Move>)
  {
    && (forall i :: 0 <= i < |history| ==> history[i].origin != Some(history[i].target))
    && (forall i :: 0 < i < |history| ==> history[i].origin == Some(history[i - 1].target))
  }

  lemma {:induction false} MovesLink(masters: seq<Ip>)
    ensures Linked(Moves(masters))
    ensures masters != [] ==> Moves(masters) != [] && Some(Moves(masters)[|Moves(masters)| - 1].target) == Latest(masters)
    ensures masters == [] <==> Moves(masters) == []
  {
    if masters != [] {
      MovesLink(masters[..|masters| - 1]);
    }
  }

  /** Over every run the history stays within its bound and linked, and its last entry ends at the
      active node. */
  lemma HistoryLinks(steps: seq<Step>, active: map<Ip, bool>)
    ensures
      var s := After(steps, active);
      && |s.history| <= 20 && Linked(s.history)
      && (s.history == [] <==> s.activeNode == None)
      && (s.history != [] ==> s.activeNode == Some(s.history[|s.history| - 1].target))
  {
    HistoryIsRecentMoves(steps, active);
    MovesLink(Masters(steps, active));
  }
}
