/** The 32-bit millisecond tick and the signed-difference test that every timed state
    machine of the firmware uses, against unbounded true time. */
module Ticks {
  import opened Bytes

  const WRAP: nat := 0x1_0000_0000
  const HALF: nat := 0x8000_0000

  function Tick(time: nat): uint32 {
    time % WRAP
  }

  function Later(tick: uint32, delay: uint32): uint32 {
    (tick + delay) % WRAP
  }

  /** `(int32_t)(now - target) >= 0`. */
  predicate Reached(now: uint32, target: uint32) {
    (now - target) % WRAP < HALF
  }

  lemma ModOfDifference(a: nat, b: nat, d: nat)
    requires a == b + d && d < WRAP
    ensures (Tick(a) - Tick(b)) % WRAP == d
    ensures d > 0 ==> (Tick(b) - Tick(a)) % WRAP == WRAP - d
  {
    var p, q := a / WRAP, b / WRAP;
    assert Tick(a) == a - p * WRAP && Tick(b) == b - q * WRAP;
    var k := p - q;
    assert Tick(a) - Tick(b) == d - k * WRAP;
    assert k == 0 || k == 1;
  }

  lemma LaterIsTick(time: nat, delay: uint32)
    ensures Later(Tick(time), delay) == Tick(time + delay)
  {
    var q := time / WRAP;
    assert time == q * WRAP + Tick(time);
    ModShift(Tick(time) + delay, q);
  }

  lemma ModShift(n: nat, q: nat)
    ensures (n + q * WRAP) % WRAP == n % WRAP
  {
    var r := n / WRAP;
    assert n + q * WRAP == (r + q) * WRAP + n % WRAP;
  }

  /** The test says exactly whether the target time has come, as long as the two are less
      than 2^31 ms apart; before the target it is never fooled for a delay up to 2^31. */
  lemma ReachedIffPassed(now: nat, target: nat)
    requires target <= now + HALF && now < target + HALF
    ensures Reached(Tick(now), Tick(target)) <==> target <= now
  {
    if target <= now {
      ModOfDifference(now, target, now - target);
    } else {
      ModOfDifference(target, now, target - now);
    }
  }

  /** A deadline `delay` after `set` never appears reached before it is, however late the test. */
  lemma NeverEarly(armed: nat, delay: uint32, now: nat)
    requires armed <= now && delay <= HALF
    requires Reached(Tick(now), Later(Tick(armed), delay))
    ensures armed + delay <= now
  {
    LaterIsTick(armed, delay);
    if now < armed + delay {
      ModOfDifference(armed + delay, now, armed + delay - now);
    }
  }

  // ---------------------------------------------------------------- spacing

  /** Successive times are at least the interval apart. */
  predicate SpacedBy(times: seq<nat>, interval: nat) {
    |times| < 2 ||
    (SpacedBy(times[..|times| - 1], interval) && times[|times| - 2] + interval <= times[|times| - 1])
  }

  lemma SpacedSnoc(times: seq<nat>, interval: nat, time: nat)
    requires SpacedBy(times, interval) && (times != [] ==> times[|times| - 1] + interval <= time)
    ensures SpacedBy(times + [time], interval)
  {
  }

  lemma {:induction false} SpacedEverywhere(times: seq<nat>, interval: nat, i: nat)
    requires SpacedBy(times, interval) && i + 1 < |times|
    ensures times[i] + interval <= times[i + 1]
  {
    if i + 2 < |times| {
      SpacedEverywhere(times[..|times| - 1], interval, i);
    }
  }
}
