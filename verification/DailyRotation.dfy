/** The daily round-robin shared by the software updater and the gravity updates: one slot a day at
    a fixed hour, each slot for the next node. */
module DailyRotation {
  import opened Common
  import opened Calendar

  /** `lastDay` is the day of the year of the latest slot, without the year. */
  datatype Rotation = Rotation(lastDay: int, nextIdx: int, halted: bool)

  /** One pass of the loop: the time, the fleet list, and whether the slot it may fire ends well. */
  datatype Poll = Poll(day: nat, hour: int, ips: seq<Ip>, fails: bool)

  /** A slot that was used. */
  datatype Slot = Slot(day: nat, target: Ip)

  predicate Fires(at: int, r: Rotation, p: Poll)
  {
    p.hour == at && Yday(p.day) != r.lastDay && p.ips != [] && !r.halted
  }

  function Target(r: Rotation, ips: seq<Ip>): Ip
    requires ips != []
  {
    ips[r.nextIdx % |ips|]
  }

  /** A slot that fails halts the rotation where it stands; any other moves it on. */
  function Polled(at: int, r: Rotation, p: Poll): Rotation
  {
    if !Fires(at, r, p) then r
    else if p.fails then r.(lastDay := Yday(p.day), halted := true)
    else r.(lastDay := Yday(p.day), nextIdx := (r.nextIdx % |p.ips| + 1) % |p.ips|)
  }

  function Used(at: int, r: Rotation, p: Poll): seq<Slot>
  {
    if Fires(at, r, p) then [Slot(p.day, Target(r, p.ips))] else []
  }

  function After(at: int, r: Rotation, polls: seq<Poll>): Rotation
  {
    if polls == [] then r else Polled(at, After(at, r, polls[..|polls| - 1]), polls[|polls| - 1])
  }

  function Slots(at: int, r: Rotation, polls: seq<Poll>): seq<Slot>
  {
    if polls == [] then []
    else
      var init := polls[..|polls| - 1];
      Slots(at, r, init) + Used(at, After(at, r, init), polls[|polls| - 1])
  }

  function Resumed(r: Rotation): Rotation
  {
    r.(halted := false)
  }

  // --- Halting ---

  /** A halted rotation stands still: no slot fires and nothing moves. */
  lemma {:induction false} HaltedStandsStill(at: int, r: Rotation, polls: seq<Poll>)
    requires r.halted
    ensures After(at, r, polls) == r && Slots(at, r, polls) == []
  {
    if polls != [] {
      HaltedStandsStill(at, r, polls[..|polls| - 1]);
    }
  }

  /** Until a first slot fires, nothing moves. */
  lemma {:induction false} StillUntilFirst(at: int, r: Rotation, polls: seq<Poll>)
    requires Slots(at, r, polls) == []
    ensures After(at, r, polls) == r
  {
    if polls != [] {
      StillUntilFirst(at, r, polls[..|polls| - 1]);
    }
  }

  /** After a failed slot nothing fires, whatever the polls, until the rotation is resumed; the first
      slot that fires after that is for the node that failed, if the fleet is the same. */
  lemma FailedNodeComesFirst(at: int, r: Rotation, failing: Poll, meanwhile: seq<Poll>, later: seq<Poll>, p: Poll)
    requires Fires(at, r, failing) && failing.fails
    requires
      var back := Resumed(After(at, Polled(at, r, failing), meanwhile));
      Slots(at, back, later) == [] && Fires(at, After(at, back, later), p) && p.ips == failing.ips
    ensures Slots(at, Polled(at, r, failing), meanwhile) == []
    ensures
      var back := Resumed(After(at, Polled(at, r, failing), meanwhile));
      Target(After(at, back, later), p.ips) == Target(r, failing.ips)
  {
    HaltedStandsStill(at, Polled(at, r, failing), meanwhile);
    var back := Resumed(After(at, Polled(at, r, failing), meanwhile));
    StillUntilFirst(at, back, later);
  }

  lemma {:induction false} DoneToday(at: int, r: Rotation, day: nat, polls: seq<Poll>)
    requires r.lastDay == Yday(day) && forall i :: 0 <= i < |polls| ==> polls[i].day == day
    ensures After(at, r, polls) == r && Slots(at, r, polls) == []
  {
    if polls != [] {
      hide Yday;
      DoneToday(at, r, day, polls[..|polls| - 1]);
    }
  }

  /** Resuming does not bring the day's slot back: after a slot nothing fires on its day, whether the
      rotation is halted and resumed in between or not. */
  lemma ResumedIsDoneToday(at: int, r: Rotation, p: Poll, meanwhile: seq<Poll>, later: seq<Poll>)
    requires Fires(at, r, p)
    requires (forall i :: 0 <= i < |meanwhile| ==> meanwhile[i].day == p.day) && forall i :: 0 <= i < |later| ==> later[i].day == p.day
    ensures Slots(at, Polled(at, r, p), meanwhile) == []
    ensures Slots(at, Resumed(After(at, Polled(at, r, p), meanwhile)), later) == []
  {
    hide Yday;
    DoneToday(at, Polled(at, r, p), p.day, meanwhile);
    DoneToday(at, Resumed(Polled(at, r, p)), p.day, later);
  }

  // --- Fairness ---

  /** The same fleet throughout, and no failing slot. */
  ghost predicate Steady(polls: seq<Poll>, ips: seq<Ip>)
  {
    ips != [] && forall i :: 0 <= i < |polls| ==> polls[i].ips == ips && !polls[i].fails
  }

  lemma NextMod(a: int, n: nat)
    requires n > 0
    ensures (a % n + 1) % n == (a + 1) % n && (a % n + 1) % n % n == (a + 1) % n
  {
    var q, r := a / n, a % n;
    assert a == n * q + r;
    if r + 1 < n {
      assert a + 1 == n * q + (r + 1);
      ModOf(q, r + 1, n);
      ModOf(0, r + 1, n);
    } else {
      assert a + 1 == n * (q + 1) + 0;
      ModOf(q + 1, 0, n);
      ModOf(1, 0, n);
    }
  }

  /** One poll of a steady fleet: the slot it uses, if any, is for the node next in line. */
  lemma PolledTarget(at: int, t: Rotation, p: Poll, first: int, m: nat)
    requires p.ips != [] && !p.fails && !t.halted && t.nextIdx % |p.ips| == (first + m) % |p.ips|
    ensures !Polled(at, t, p).halted && |Used(at, t, p)| <= 1
    ensures Polled(at, t, p).nextIdx % |p.ips| == (first + (m + |Used(at, t, p)|)) % |p.ips|
    ensures Used(at, t, p) != [] ==> Used(at, t, p)[0].target == p.ips[(first + m) % |p.ips|]
  {
    hide Yday;
    NextMod(first + m, |p.ips|);
    assert first + m + 1 == first + (m + 1);
  }

  /** The k-th slot is for the k-th node after the first, around the list. */
  ghost predicate InTurn(s: seq<Slot>, ips: seq<Ip>, first: int)
  {
    ips != [] && forall k :: 0 <= k < |s| ==> s[k].target == ips[(first + k) % |ips|]
  }

  lemma InTurnAppend(s: seq<Slot>, u: seq<Slot>, ips: seq<Ip>, first: int)
    requires InTurn(s, ips, first) && |u| <= 1 && (u != [] ==> u[0].target == ips[(first + |s|) % |ips|])
    ensures InTurn(s + u, ips, first)
  {
  }

  lemma {:induction false} SlotTargets(at: int, r: Rotation, polls: seq<Poll>, ips: seq<Ip>)
    requires Steady(polls, ips) && !r.halted
    ensures
      var s, t := Slots(at, r, polls), After(at, r, polls);
      !t.halted && t.nextIdx % |ips| == (r.nextIdx + |s|) % |ips| && InTurn(s, ips, r.nextIdx)
  {
    if polls != [] {
      hide Polled, Used, InTurn;
      var init, p := polls[..|polls| - 1], polls[|polls| - 1];
      SlotTargets(at, r, init, ips);
      var s, t := Slots(at, r, init), After(at, r, init);
      PolledTarget(at, t, p, r.nextIdx, |s|);
      InTurnAppend(s, Used(at, t, p), ips, r.nextIdx);
    }
  }

  lemma ModInjective(a: int, b: int, n: nat)
    requires n > 0 && a <= b < a + n && a % n == b % n
    ensures a == b
  {
    assert a == n * (a / n) + a % n && b == n * (b / n) + b % n;
    if a / n < b / n {
      MulLess(a / n + 1, b / n, n);
    }
    if a / n > b / n {
      MulLess(b / n + 1, a / n, n);
    }
  }

  lemma MulLess(x: int, y: int, n: nat)
    requires x <= y
    ensures n * x <= n * y
  {
  }

  /** The first k from `start` on with start + k at the index. */
  lemma ModReach(start: int, idx: nat, n: nat)
    requires idx < n
    ensures (start + (idx - start % n) % n) % n == idx
  {
    var s := (idx - start % n) % n;
    assert start == n * (start / n) + start % n;
    var a := idx - start % n;
    assert a == n * (a / n) + s;
    assert start + s == n * (start / n) - n * (a / n) + idx;
    assert start + s == n * (start / n - a / n) + idx;
    ModOf(start / n - a / n, idx, n);
  }

  lemma ModOf(q: int, i: nat, n: nat)
    requires i < n
    ensures (n * q + i) % n == i
  {
    var r := (n * q + i) % n;
    var d := (n * q + i) / n;
    assert n * q + i == n * d + r;
    if q < d {
      MulLess(q + 1, d, n);
    }
    if d < q {
      MulLess(d + 1, q, n);
    }
  }

  /** Any n slots in a row visit each of the n nodes exactly once. */
  lemma EveryNodeOnce(at: int, r: Rotation, polls: seq<Poll>, ips: seq<Ip>, from: nat, ip: Ip)
    requires Steady(polls, ips) && !r.halted && Distinct(ips) && ip in ips
    requires from + |ips| <= |Slots(at, r, polls)|
    ensures
      var s := Slots(at, r, polls);
      exists k :: from <= k < from + |ips| && s[k].target == ip && forall j :: from <= j < from + |ips| && s[j].target == ip ==> j == k
  {
    var s, n := Slots(at, r, polls), |ips|;
    SlotTargets(at, r, polls, ips);
    var idx :| 0 <= idx < n && ips[idx] == ip;
    var start := r.nextIdx + from;
    ModReach(start, idx, n);
    var k := from + (idx - start % n) % n;
    assert s[k].target == ip;
    forall j | from <= j < from + n && s[j].target == ip ensures j == k {
      assert ips[(r.nextIdx + j) % n] == ips[(r.nextIdx + k) % n];
      if j <= k {
        ModInjective(r.nextIdx + j, r.nextIdx + k, n);
      } else {
        ModInjective(r.nextIdx + k, r.nextIdx + j, n);
      }
    }
  }

  /** Polls in the order of their days. */
  ghost predicate InOrder(polls: seq<Poll>)
  {
    forall i, j :: 0 <= i < j < |polls| ==> polls[i].day <= polls[j].day
  }

  /** The latest slot, as the rotation remembers it. */
  ghost predicate Remembers(t: Rotation, s: seq<Slot>)
  {
    s != [] ==> t.lastDay == Yday(s[|s| - 1].day)
  }

  ghost predicate DaysRise(s: seq<Slot>)
  {
    forall i, j :: 0 <= i < j < |s| ==> s[i].day < s[j].day
  }

  /** No day has two slots. */
  lemma {:induction false} OneSlotADay(at: int, r: Rotation, polls: seq<Poll>)
    requires InOrder(polls)
    ensures DaysRise(Slots(at, r, polls)) && Remembers(After(at, r, polls), Slots(at, r, polls))
    ensures polls == [] ==> Slots(at, r, polls) == []
    ensures polls != [] ==> forall i :: 0 <= i < |Slots(at, r, polls)| ==> Slots(at, r, polls)[i].day <= polls[|polls| - 1].day
  {
    if polls != [] {
      hide Yday;
      var init, p := polls[..|polls| - 1], polls[|polls| - 1];
      OneSlotADay(at, r, init);
      assert init != [] ==> init[|init| - 1].day <= p.day;
    }
  }

  // --- The prediction ---

  /** Where the node stands in line. */
  function SlotsUntil(r: Rotation, ips: seq<Ip>, idx: nat): (k: nat)
    requires idx < |ips|
  {
    (idx - r.nextIdx % |ips|) % |ips|
  }

  /** `_next_auto_time`, as a day: None for a node that is not listed. */
  function NextAuto(at: int, r: Rotation, ips: seq<Ip>, ip: Ip, today: nat, hour: int): (day: Option<nat>)
    ensures day.None? <==> ip !in ips
  {
    if ip !in ips then None
    else
      var alreadyRan := r.lastDay == Yday(today);
      Some((if alreadyRan || hour > at then today + 1 else today) + SlotsUntil(r, ips, IndexIn(ips, ip)))
  }

  /** `ips.index(ip)` */
  function IndexIn(ips: seq<Ip>, ip: Ip): (i: nat)
    requires ip in ips
    ensures i < |ips| && ips[i] == ip && ip !in ips[..i]
  {
    if ips[0] == ip then 0 else 1 + IndexIn(ips[1..], ip)
  }

  /** The rotation is asked after today's hour, has not run today, and remembers tomorrow's day of the
      year from an earlier year. */
  predicate Aliased(at: int, r: Rotation, today: nat, hour: int)
  {
    hour > at && r.lastDay != Yday(today) && r.lastDay == Yday(today + 1)
  }

  /** The polls after a question put today at this hour: in order, none before it, and at least one in
      each firing hour up to the last day. */
  ghost predicate Follows(at: int, polls: seq<Poll>, today: nat, hour: int, last: nat)
  {
    && InOrder(polls)
    && (forall i :: 0 <= i < |polls| ==> today <= polls[i].day <= last && (polls[i].day == today ==> polls[i].hour >= hour))
    && (forall d :: today <= d <= last && (d == today ==> hour <= at) ==> PolledOn(at, polls, d))
  }

  ghost predicate PolledOn(at: int, polls: seq<Poll>, d: nat)
  {
    exists i :: 0 <= i < |polls| && polls[i].day == d && polls[i].hour == at
  }

  /** The first day that can have a slot. */
  function FirstDay(at: int, r: Rotation, today: nat, hour: int): nat
  {
    if r.lastDay != Yday(today) && hour <= at then today
    else if r.lastDay != Yday(today + 1) then today + 1
    else today + 2
  }

  /** One slot a day from the first possible day on. */
  ghost predicate Daily(s: seq<Slot>, first: nat)
  {
    forall k :: 0 <= k < |s| ==> s[k].day == first + k
  }

  /** Every firing hour seen so far, from the first possible day on, has had its slot. */
  ghost predicate CaughtUp(at: int, polls: seq<Poll>, s: seq<Slot>, first: nat)
  {
    forall i :: 0 <= i < |polls| && polls[i].hour == at && polls[i].day >= first ==> polls[i].day < first + |s|
  }

  lemma ConsecutiveDiffer(d: nat)
    ensures Yday(d) != Yday(d + 1)
  {
    if Yday(d) == Yday(d + 1) {
      YdayRepeats(d, d + 1);
    }
  }

  /** A poll before the next day due does not fire. */
  lemma NotDueYet(at: int, r: Rotation, t: Rotation, s: seq<Slot>, p: Poll, today: nat, hour: int)
    requires p.day >= today && (p.day == today ==> p.hour >= hour) && p.day < FirstDay(at, r, today, hour) + |s|
    requires s == [] ==> t.lastDay == r.lastDay
    requires s != [] ==> t.lastDay == Yday(FirstDay(at, r, today, hour) + |s| - 1) && p.day >= FirstDay(at, r, today, hour) + |s| - 1
    ensures !Fires(at, t, p)
  {
    hide Yday;
  }

  /** A firing hour on the next day due fires. */
  lemma Due(at: int, r: Rotation, t: Rotation, s: seq<Slot>, p: Poll, today: nat, hour: int)
    requires p.day == FirstDay(at, r, today, hour) + |s| && p.hour == at && p.ips != [] && !t.halted
    requires s == [] ==> t.lastDay == r.lastDay
    requires s != [] ==> t.lastDay == Yday(p.day - 1)
    ensures Fires(at, t, p)
  {
    hide Yday;
    if s != [] {
      ConsecutiveDiffer(p.day - 1);
    } else {
      ConsecutiveDiffer(today + 1);
      ConsecutiveDiffer(today);
    }
  }

  /** An earlier poll has caught the day before the one that is due. */
  lemma NoDaySkipped(at: int, polls: seq<Poll>, i: nat, s: seq<Slot>, first: nat, today: nat, hour: int, last: nat)
    requires Follows(at, polls, today, hour, last) && i < |polls| && CaughtUp(at, polls[..i], s, first)
    requires first >= today && (first == today ==> hour <= at)
    ensures polls[i].day <= first + |s|
  {
    var d := first + |s|;
    assert forall j :: 0 <= j < i ==> polls[..i][j] == polls[j];
    if d <= last {
      assert PolledOn(at, polls, d);
      var j :| 0 <= j < |polls| && polls[j].day == d && polls[j].hour == at;
      assert i <= j;
    }
  }

  ghost predicate Paced(at: int, r: Rotation, done: seq<Poll>, s: seq<Slot>, t: Rotation, first: nat)
  {
    && Daily(s, first) && CaughtUp(at, done, s, first) && !t.halted
    && t.lastDay == if s == [] then r.lastDay else Yday(first + |s| - 1)
  }

  ghost predicate OnSchedule(at: int, r: Rotation, polls: seq<Poll>, first: nat)
  {
    Paced(at, r, polls, Slots(at, r, polls), After(at, r, polls), first)
  }

  /** The next poll fires exactly when it is a firing hour of the next day due. */
  lemma FiresWhenDue(at: int, r: Rotation, t: Rotation, s: seq<Slot>, p: Poll, today: nat, hour: int)
    requires p.ips != [] && !t.halted
    requires today <= p.day <= FirstDay(at, r, today, hour) + |s| && (p.day == today ==> p.hour >= hour)
    requires t.lastDay == if s == [] then r.lastDay else Yday(FirstDay(at, r, today, hour) + |s| - 1)
    requires s != [] ==> FirstDay(at, r, today, hour) + |s| - 1 <= p.day
    ensures Fires(at, t, p) <==> p.hour == at && p.day == FirstDay(at, r, today, hour) + |s|
  {
    hide Yday;
    if p.day < FirstDay(at, r, today, hour) + |s| {
      NotDueYet(at, r, t, s, p, today, hour);
    } else if p.hour == at {
      Due(at, r, t, s, p, today, hour);
    }
  }

  lemma DailyAppend(s: seq<Slot>, u: seq<Slot>, first: nat)
    requires Daily(s, first) && |u| <= 1 && (u != [] ==> u[0].day == first + |s|)
    ensures Daily(s + u, first)
  {
  }

  lemma CaughtUpAppend(at: int, done: seq<Poll>, p: Poll, s: seq<Slot>, u: seq<Slot>, first: nat)
    requires CaughtUp(at, done, s, first) && (p.hour == at && p.day >= first ==> p.day < first + |s| + |u|)
    ensures CaughtUp(at, done + [p], s + u, first)
  {
  }

  lemma PacedStep(at: int, r: Rotation, done: seq<Poll>, s: seq<Slot>, t: Rotation, p: Poll, first: nat)
    requires Paced(at, r, done, s, t, first) && !p.fails && p.ips != []
    requires Fires(at, t, p) <==> p.hour == at && p.day == first + |s|
    requires p.day <= first + |s|
    ensures Paced(at, r, done + [p], s + Used(at, t, p), Polled(at, t, p), first)
  {
    hide Yday, Daily, CaughtUp, Fires, Target;
    var u := Used(at, t, p);
    DailyAppend(s, u, first);
    CaughtUpAppend(at, done, p, s, u, first);
  }

  /** The day before the next day due has had its slot by the last poll done. */
  lemma PollsMoveOn(at: int, r: Rotation, polls: seq<Poll>, i: nat, first: nat)
    requires InOrder(polls) && i < |polls| && Daily(Slots(at, r, polls[..i]), first)
    ensures Slots(at, r, polls[..i]) != [] ==> first + |Slots(at, r, polls[..i])| - 1 <= polls[i].day
  {
    hide Slots, After, Yday;
    var done := polls[..i];
    assert InOrder(done) by {
      forall j, k | 0 <= j < k < i ensures done[j].day <= done[k].day {
        assert done[j] == polls[j] && done[k] == polls[k];
      }
    }
    OneSlotADay(at, r, done);
    assert done != [] ==> done[i - 1].day <= polls[i].day;
  }

  lemma SnocSlots(at: int, r: Rotation, done: seq<Poll>, p: Poll)
    ensures After(at, r, done + [p]) == Polled(at, After(at, r, done), p)
    ensures Slots(at, r, done + [p]) == Slots(at, r, done) + Used(at, After(at, r, done), p)
  {
    assert (done + [p])[..|done|] == done;
  }

  lemma OnScheduleStep(at: int, r: Rotation, polls: seq<Poll>, i: nat, ips: seq<Ip>, today: nat, hour: int, last: nat)
    requires Follows(at, polls, today, hour, last) && Steady(polls, ips) && i < |polls|
    requires OnSchedule(at, r, polls[..i], FirstDay(at, r, today, hour))
    ensures OnSchedule(at, r, polls[..i + 1], FirstDay(at, r, today, hour))
  {
    var first := FirstDay(at, r, today, hour);
    assert first >= today && (first == today ==> hour <= at);
    hide Yday, FirstDay, Slots, After, Polled, Used, Fires, Daily, CaughtUp, PolledOn;
    var done := polls[..i];
    var s, t, p := Slots(at, r, done), After(at, r, done), polls[i];
    assert polls[..i + 1] == done + [p];
    SnocSlots(at, r, done, p);
    NoDaySkipped(at, polls, i, s, first, today, hour, last);
    PollsMoveOn(at, r, polls, i, first);
    FiresWhenDue(at, r, t, s, p, today, hour);
    PacedStep(at, r, done, s, t, p, first);
  }

  lemma {:induction false} StaysOnSchedule(at: int, r: Rotation, polls: seq<Poll>, i: nat, ips: seq<Ip>, today: nat, hour: int, last: nat)
    requires Follows(at, polls, today, hour, last) && Steady(polls, ips) && i <= |polls| && !r.halted
    ensures OnSchedule(at, r, polls[..i], FirstDay(at, r, today, hour))
    decreases i
  {
    if i != 0 {
      StaysOnSchedule(at, r, polls, i - 1, ips, today, hour, last);
      OnScheduleStep(at, r, polls, i - 1, ips, today, hour, last);
    }
  }

  /** The day of the first slot for a node, if it has one. */
  function FirstSlotFor(s: seq<Slot>, ip: Ip): Option<nat>
  {
    if s == [] then None else if s[0].target == ip then Some(s[0].day) else FirstSlotFor(s[1..], ip)
  }

  lemma {:induction false} FirstSlotAt(s: seq<Slot>, ip: Ip, k: nat)
    requires k < |s| && s[k].target == ip && forall j :: 0 <= j < k ==> s[j].target != ip
    ensures FirstSlotFor(s, ip) == Some(s[k].day)
  {
    if k > 0 {
      FirstSlotAt(s[1..], ip, k - 1);
    }
  }

  lemma SlotsInTurn(at: int, r: Rotation, polls: seq<Poll>, ips: seq<Ip>)
    requires Steady(polls, ips) && !r.halted
    ensures InTurn(Slots(at, r, polls), ips, r.nextIdx)
  {
    SlotTargets(at, r, polls, ips);
  }

  lemma FirstDayAhead(at: int, r: Rotation, today: nat, hour: int)
    ensures FirstDay(at, r, today, hour) >= today && (FirstDay(at, r, today, hour) == today ==> hour <= at)
  {
    hide Yday;
  }

  /** What really happens: with a fixed fleet, no failing slot and a poll in every firing hour, the
      node's slot comes as many days after the first possible day as it stands in line. */
  lemma NodeSlotDay(at: int, r: Rotation, polls: seq<Poll>, ips: seq<Ip>, ip: Ip, today: nat, hour: int, last: nat)
    requires Follows(at, polls, today, hour, last) && Steady(polls, ips) && !r.halted && Distinct(ips) && ip in ips
    requires FirstDay(at, r, today, hour) + SlotsUntil(r, ips, IndexIn(ips, ip)) <= last
    ensures FirstSlotFor(Slots(at, r, polls), ip) == Some(FirstDay(at, r, today, hour) + SlotsUntil(r, ips, IndexIn(ips, ip)))
  {
    var s, idx := Slots(at, r, polls), IndexIn(ips, ip);
    var first, k := FirstDay(at, r, today, hour), SlotsUntil(r, ips, idx);
    hide *;
    assert polls[..|polls|] == polls;
    assert InTurn(s, ips, r.nextIdx) by {
      SlotsInTurn(at, r, polls, ips);
    }
    assert k < |s| && s[k].day == first + k by {
      StaysOnSchedule(at, r, polls, |polls|, ips, today, hour, last);
      FirstDayAhead(at, r, today, hour);
      SlotReached(at, r, polls, first, k, today, hour, last);
    }
    FirstInTurn(s, ips, r, idx);
  }

  lemma SlotReached(at: int, r: Rotation, polls: seq<Poll>, first: nat, k: nat, today: nat, hour: int, last: nat)
    requires Follows(at, polls, today, hour, last) && OnSchedule(at, r, polls, first) && first + k <= last
    requires first >= today && (first == today ==> hour <= at)
    ensures k < |Slots(at, r, polls)| && Slots(at, r, polls)[k].day == first + k
  {
    hide Yday, Slots, After, InOrder;
    assert PolledOn(at, polls, first + k);
  }

  /** Slots in turn reach a node first after as many slots as it stands in line. */
  lemma FirstInTurn(s: seq<Slot>, ips: seq<Ip>, r: Rotation, idx: nat)
    requires InTurn(s, ips, r.nextIdx) && Distinct(ips) && idx < |ips| && SlotsUntil(r, ips, idx) < |s|
    ensures FirstSlotFor(s, ips[idx]) == Some(s[SlotsUntil(r, ips, idx)].day)
  {
    var n, k := |ips|, SlotsUntil(r, ips, idx);
    ModReach(r.nextIdx, idx, n);
    assert s[k].target == ips[idx];
    forall j | 0 <= j < k ensures s[j].target != ips[idx] {
      if s[j].target == ips[idx] {
        assert ips[(r.nextIdx + j) % n] == ips[(r.nextIdx + k) % n];
        ModInjective(r.nextIdx + j, r.nextIdx + k, n);
      }
    }
    FirstSlotAt(s, ips[idx], k);
  }

  /** The prediction against the simulated loop: the day is right exactly when the remembered day of
      the year is not tomorrow's from an earlier year, and then the slot comes one day later. */
  lemma PredictionIsExact(at: int, r: Rotation, polls: seq<Poll>, ips: seq<Ip>, ip: Ip, today: nat, hour: int, last: nat)
    requires Follows(at, polls, today, hour, last) && Steady(polls, ips) && !r.halted && Distinct(ips) && ip in ips
    requires today + 1 + |ips| <= last
    ensures
      var predicted, actual := NextAuto(at, r, ips, ip, today, hour), FirstSlotFor(Slots(at, r, polls), ip);
      && predicted.Some?
      && (actual == predicted <==> !Aliased(at, r, today, hour))
      && (Aliased(at, r, today, hour) ==> actual == Some(predicted.value + 1))
  {
    hide Yday, Follows, Steady;
    ConsecutiveDiffer(today);
    assert SlotsUntil(r, ips, IndexIn(ips, ip)) < |ips|;
    NodeSlotDay(at, r, polls, ips, ip, today, hour, last);
  }

  /** When the latest slot was at most 364 days before tomorrow, there is no such clash. */
  lemma RecentSlotIsNotAliased(at: int, r: Rotation, latest: nat, today: nat, hour: int)
    requires r.lastDay == Yday(latest) && latest <= today < latest + 364
    ensures !Aliased(at, r, today, hour)
  {
    if r.lastDay == Yday(today + 1) {
      YdayRepeats(latest, today + 1);
    }
  }

  /** A fresh rotation whose only slot was on a day that tomorrow is named after has the clash: for
      instance a slot on day 364 and the question on day 728. */
  lemma ClashIsReached(at: int, ips: seq<Ip>, latest: nat, today: nat, hour: int)
    requires ips != [] && Yday(latest) == Yday(today + 1) && hour > at
    ensures Aliased(at, After(at, Rotation(-1, 0, false), [Poll(latest, at, ips, false)]), today, hour)
    ensures Yday(364) == Yday(728 + 1)
  {
    var poll := Poll(latest, at, ips, false);
    assert [poll][..0] == [];
    assert Fires(at, Rotation(-1, 0, false), poll);
    ConsecutiveDiffer(today);
    assert Yday(364) == 365 && YdayFrom(729 - 365, 2) == 365;
  }
}
