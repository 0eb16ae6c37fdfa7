/** The software updater: its daily slot, and the halt after a slot that went wrong. */
module Updater {
  import opened Common
  import opened Calendar
  import opened DailyRotation

  datatype Attempt = Failure | Updated | NothingToDo

  datatype Status = Upgraded | UpToDate | Failed | HealthFailed

  /** What a slot meets at its node; attempts that are not listed fail. */
  datatype Met = Met(maintenance: bool, answers: bool, upToDate: bool, attempts: seq<Attempt>, healthy: bool)

  function Try(attempts: seq<Attempt>, i: nat): Attempt
  {
    if i < |attempts| then attempts[i] else Failure
  }

  function StatusFrom(attempts: seq<Attempt>, from: nat, retries: int): (status: Status)
    ensures status != HealthFailed
    decreases retries - from
  {
    if from >= retries then Failed
    else
      match Try(attempts, from)
      case Updated => Upgraded
      case NothingToDo => UpToDate
      case Failure => StatusFrom(attempts, from + 1, retries)
  }

  /** The first attempt from this one on that did not fail. */
  ghost predicate Decides(attempts: seq<Attempt>, from: nat, retries: int, i: nat)
  {
    from <= i < retries && Try(attempts, i) != Failure && forall j: nat :: from <= j < i ==> Try(attempts, j) == Failure
  }

  /** An upgrade fails only when every attempt has failed; otherwise the first attempt that did not
      fail decides. */
  lemma {:induction false} FirstAttemptDecides(attempts: seq<Attempt>, from: nat, retries: int)
    ensures StatusFrom(attempts, from, retries) == Failed <==> forall i: nat :: from <= i < retries ==> Try(attempts, i) == Failure
    ensures StatusFrom(attempts, from, retries) != Failed ==>
      exists i: nat :: Decides(attempts, from, retries, i) && StatusFrom(attempts, from, retries) == (if Try(attempts, i) == Updated then Upgraded else UpToDate)
    decreases retries - from
  {
    if from < retries {
      hide Try;
      if Try(attempts, from) == Failure {
        FirstAttemptDecides(attempts, from + 1, retries);
        if StatusFrom(attempts, from, retries) != Failed {
          var i: nat :| Decides(attempts, from + 1, retries, i)
            && StatusFrom(attempts, from + 1, retries) == (if Try(attempts, i) == Updated then Upgraded else UpToDate);
          assert Decides(attempts, from, retries, i);
        }
      } else {
        assert Decides(attempts, from, retries, from);
      }
    }
  }

  /** The slot ends in a failed upgrade or a failed health check. */
  predicate SlotFails(met: Met, retries: int)
  {
    && !met.maintenance && met.answers && !met.upToDate
    && var status := StatusFrom(met.attempts, 0, retries);
       status == Failed || (status == Upgraded && !met.healthy)
  }

  /** Every attempt that is made fails. */
  ghost predicate AllFail(attempts: seq<Attempt>, retries: int)
  {
    forall i: nat :: i < retries && i < |attempts| ==> attempts[i] == Failure
  }

  /** The first attempt that does not fail upgrades the node. */
  ghost predicate FirstUpgrades(attempts: seq<Attempt>, retries: int)
  {
    exists i: nat :: i < retries && i < |attempts| && attempts[i] == Updated && forall j: nat :: j < i ==> attempts[j] == Failure
  }

  /** What a slot halts on: a node in service that answers and is out of date, and either no attempt that
      does not fail, or an upgrade after which the node is not healthy. */
  ghost predicate Halts(met: Met, retries: int)
  {
    && !met.maintenance && met.answers && !met.upToDate
    && (AllFail(met.attempts, retries) || (FirstUpgrades(met.attempts, retries) && !met.healthy))
  }

  lemma MadeAttempt(attempts: seq<Attempt>, i: nat)
    requires Try(attempts, i) != Failure
    ensures i < |attempts| && attempts[i] == Try(attempts, i)
  {
  }

  lemma SlotFailsIff(met: Met, retries: int)
    ensures SlotFails(met, retries) <==> Halts(met, retries)
  {
    var status := StatusFrom(met.attempts, 0, retries);
    FirstAttemptDecides(met.attempts, 0, retries);
    assert forall i: nat :: i < |met.attempts| ==> met.attempts[i] == Try(met.attempts, i);
    hide StatusFrom, Try;
    if status != Failed {
      var i: nat :| Decides(met.attempts, 0, retries, i) && status == (if Try(met.attempts, i) == Updated then Upgraded else UpToDate);
      MadeAttempt(met.attempts, i);
      if k: nat :| k < retries && k < |met.attempts| && met.attempts[k] == Updated && forall j: nat :: j < k ==> met.attempts[j] == Failure {
        assert !(i < k) && !(k < i);
      }
    }
  }

  class Updater {
    const at: int
    const retries: int
    var lastDay: int
    var nextIdx: int
    var halted: bool
    var slots: seq<Slot>

    function Current(): Rotation
      reads this
    {
      Rotation(lastDay, nextIdx, halted)
    }

    /** No saved state. */
    constructor (at: int, retries: int)
      ensures this.at == at && this.retries == retries
      ensures Current() == Rotation(-1, 0, false) && slots == []
    {
      this.at, this.retries := at, retries;
      lastDay, nextIdx, halted, slots := -1, 0, false, [];
    }

    method RunUpgrade(attempts: seq<Attempt>) returns (status: Status)
      ensures status == StatusFrom(attempts, 0, retries)
    {
      for attempt := 0 to (if retries > 0 then retries else 0)
        invariant StatusFrom(attempts, 0, retries) == StatusFrom(attempts, attempt, retries)
      {
        match Try(attempts, attempt)
        case Updated => return Upgraded;
        case NothingToDo => return UpToDate;
        case Failure =>
      }
      return Failed;
    }

    /** One pass of the loop. */
    method Pass(day: nat, hour: int, ips: seq<Ip>, met: Met)
      modifies this
      ensures
        if hour == at && Yday(day) != old(lastDay) && ips != [] && !old(halted) then
          var idx := old(nextIdx) % |ips|;
          && lastDay == Yday(day) && slots == old(slots) + [Slot(day, ips[idx])]
          && halted == Halts(met, retries)
          && nextIdx == if halted then old(nextIdx) else (idx + 1) % |ips|
        else lastDay == old(lastDay) && nextIdx == old(nextIdx) && halted == old(halted) && slots == old(slots)
      ensures Current() == Polled(at, old(Current()), Poll(day, hour, ips, SlotFails(met, retries)))
      ensures slots == old(slots) + Used(at, old(Current()), Poll(day, hour, ips, SlotFails(met, retries)))
    {
      SlotFailsIff(met, retries);
      hide Yday, StatusFrom, Halts;
      var today := Yday(day);
      if hour == at && today != lastDay && ips != [] && !halted {
        lastDay := today;
        var idx := nextIdx % |ips|;
        var target := ips[idx];
        slots := slots + [Slot(day, target)];
        if met.maintenance {
          nextIdx := (idx + 1) % |ips|;
          return;
        }
        if !met.answers {
          nextIdx := (idx + 1) % |ips|;
          return;
        }
        if met.upToDate {
          nextIdx := (idx + 1) % |ips|;
        } else {
          var status := RunUpgrade(met.attempts);
          if status == Upgraded && !met.healthy {
            status := HealthFailed;
          }
          if status == Failed || status == HealthFailed {
            halted := true;
          } else {
            nextIdx := (idx + 1) % |ips|;
          }
        }
      }
    }

    method Resume()
      modifies this`halted
      ensures !halted && Current() == Resumed(old(Current()))
    {
      halted := false;
    }
  }
}
