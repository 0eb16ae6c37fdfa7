/** The staggered gravity updates: the same rotation, which moves on however its slot ends. */
module Gravity {
  import opened Common
  import opened Calendar
  import opened DailyRotation

  class Gravity {
    const at: int
    var lastDay: int
    var nextIdx: int
    var slots: seq<Slot>

    /** A rotation that is never halted. */
    function Current(): Rotation
      reads this
    {
      Rotation(lastDay, nextIdx, false)
    }

    /** No saved state. */
    constructor (at: int)
      ensures this.at == at && Current() == Rotation(-1, 0, false) && slots == []
    {
      this.at := at;
      lastDay, nextIdx, slots := -1, 0, [];
    }

    /** One pass of the loop: a slot that never counts as failed. */
    method Pass(day: nat, hour: int, ips: seq<Ip>, maintenance: bool)
      modifies this
      ensures
        if hour == at && Yday(day) != old(lastDay) && ips != [] then
          var idx := old(nextIdx) % |ips|;
          lastDay == Yday(day) && slots == old(slots) + [Slot(day, ips[idx])] && nextIdx == (idx + 1) % |ips|
        else lastDay == old(lastDay) && nextIdx == old(nextIdx) && slots == old(slots)
      ensures Current() == Polled(at, old(Current()), Poll(day, hour, ips, false))
      ensures slots == old(slots) + Used(at, old(Current()), Poll(day, hour, ips, false))
    {
      hide Yday;
      var today := Yday(day);
      if hour == at && today != lastDay && ips != [] {
        lastDay := today;
        var idx := nextIdx % |ips|;
        var target := ips[idx];
        slots := slots + [Slot(day, target)];
        if maintenance {
          nextIdx := (idx + 1) % |ips|;
          return;
        }
        nextIdx := (idx + 1) % |ips|;
      }
    }
  }
}
