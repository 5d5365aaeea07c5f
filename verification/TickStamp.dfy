/** The "last used" stamps: a 32-bit tick count extended by an 8-bit count of observed wraps. */
module TickStamp {

  const TICKS := 0x1_0000_0000
  const ROLLOVERS := 0x100

  datatype Stamp = Stamp(tick: nat, rollover: nat)

  const FRESH := Stamp(0, 0)

  predicate Wellformed(s: Stamp) {
    s.tick < TICKS && s.rollover < ROLLOVERS
  }

  /** `now` is the true tick count since boot; the firmware sees its low 32 bits. */
  function Save(s: Stamp, now: nat): (r: Stamp)
    ensures Wellformed(s) ==> Wellformed(r)
  {
    var tick := now % TICKS;
    Stamp(tick, if tick < s.tick then (s.rollover + 1) % ROLLOVERS else s.rollover)
  }

  /** `rollover << 32 | tick` */
  function Combined(s: Stamp): nat {
    s.rollover * TICKS + s.tick
  }

  /** A stamp that told the true time still does after the next save exactly when less than one
      full wrap lies between the two saves and the wrap counter has not overflowed. */
  lemma SaveTracksTrueTime(s: Stamp, now: nat)
    requires Wellformed(s) && Combined(s) <= now
    ensures Combined(Save(s, now)) == now <==> now - Combined(s) < TICKS && now < ROLLOVERS * TICKS
  {
    var wraps := now / TICKS;
    assert now == wraps * TICKS + now % TICKS;
    var r := Save(s, now);
    assert Combined(r) < ROLLOVERS * TICKS;
  }
}
