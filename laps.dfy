/**
 * The car's lap bookkeeping: `Car.reset` and the checkpoint branch of
 * `Car.update`. Whether the car is close enough to the next gate (the
 * `dist < 15` test) is given as a boolean, and the clock reading
 * (`pygame.time.get_ticks()`) as an integer `now`.
 */
module Laps {
  import opened Timer

  /** `last_lap_time < best_lap_time`: every lap time beats infinity. */
  predicate Beats(ms: int, best: Time) {
    best.Infinity? || ms < best.ms
  }

  /** The checkpoint and lap fields of a car. */
  datatype LapState = LapState(cpIndex: int, laps: int, lapStart: int, lastLap: int, bestLap: Time)

  /** The lap fields right after `reset()` at time `now`. */
  function StartState(now: int): (s: LapState) {
    LapState(0, 0, now, 0, Infinity)
  }

  /**
   * What the lap fields always satisfy: no best lap before the first lap,
   * and once there is one it is no slower than the last lap.
   */
  predicate LapInvariant(s: LapState) {
    && 0 <= s.cpIndex && 0 <= s.laps
    && (s.laps == 0 <==> s.bestLap.Infinity?)
    && (s.bestLap.Finite? ==> s.bestLap.ms <= s.lastLap)
  }

  /** True when a hit on gate `s.cpIndex` of `count` gates completes a lap. */
  predicate CompletesLap(s: LapState, count: nat, hit: bool) {
    count > 0 && hit && s.cpIndex == count - 1
  }

  /**
   * The checkpoint branch of `update` with `count` gates: a hit moves to the
   * next gate, wrapping to the first; the wrap completes a lap, which records
   * the lap time and may improve the best. The wrap happens exactly when the
   * gate hit was the last one.
   */
  function CheckpointStep(s: LapState, count: nat, hit: bool, now: int): (r: LapState)
    requires count > 0 ==> 0 <= s.cpIndex < count
    ensures count > 0 ==> 0 <= r.cpIndex < count
    ensures count > 0 && hit && !CompletesLap(s, count, hit) ==> r.cpIndex == s.cpIndex + 1
    ensures (count == 0 || !hit) ==> r == s
    ensures CompletesLap(s, count, hit) ==>
      && r.cpIndex == 0 && r.laps == s.laps + 1
      && r.lastLap == now - s.lapStart && r.lapStart == now
      && r.bestLap.Finite? && r.bestLap.ms <= r.lastLap
      && (s.bestLap.Finite? ==> r.bestLap.ms <= s.bestLap.ms)
      && (r.bestLap.ms == r.lastLap || r.bestLap == s.bestLap)
    ensures !CompletesLap(s, count, hit) ==>
      r.laps == s.laps && r.lapStart == s.lapStart && r.lastLap == s.lastLap && r.bestLap == s.bestLap
  {
    if count == 0 || !hit then s
    else
      var next := (s.cpIndex + 1) % count;
      if next != 0 then s.(cpIndex := next)
      else
        var last := now - s.lapStart;
        var best := if Beats(last, s.bestLap) then Finite(last) else s.bestLap;
        LapState(next, s.laps + 1, now, last, best)
  }

  /** Every step keeps the lap invariant. */
  lemma StepKeepsInvariant(s: LapState, count: nat, hit: bool, now: int)
    requires count > 0 ==> 0 <= s.cpIndex < count
    requires LapInvariant(s)
    ensures LapInvariant(CheckpointStep(s, count, hit, now))
  {
  }

  /** Hitting the next gate at each of the given clock readings in turn. */
  function Drive(s: LapState, count: nat, times: seq<int>): (r: LapState)
    requires count > 0 && 0 <= s.cpIndex < count
    decreases |times|
  {
    if times == [] then s else Drive(CheckpointStep(s, count, true, times[0]), count, times[1..])
  }

  /**
   * Driving through the remaining gates of a lap, from gate `s.cpIndex` to
   * the last, completes exactly one lap, timed from the lap's start to the
   * last hit.
   */
  lemma {:induction false} FinishLap(s: LapState, count: nat, times: seq<int>)
    requires count > 0 && 0 <= s.cpIndex < count
    requires |times| == count - s.cpIndex
    ensures var r := Drive(s, count, times);
      && r.cpIndex == 0 && r.laps == s.laps + 1
      && r.lapStart == times[|times| - 1] && r.lastLap == times[|times| - 1] - s.lapStart
    decreases |times|
  {
    var next := CheckpointStep(s, count, true, times[0]);
    if |times| > 1 {
      assert !CompletesLap(s, count, true);
      FinishLap(next, count, times[1..]);
    } else {
      assert Drive(next, count, times[1..]) == next;
    }
  }

  /** The racing car: its spawn point, its motion and its lap fields. */
  class Car {
    var spawnX: int
    var spawnY: int
    var x: real
    var y: real
    var speed: real
    var angle: real
    var cpIndex: int
    var laps: int
    var lapStart: int
    var lastLap: int
    var bestLap: Time

    function State(): (s: LapState)
      reads this
    {
      LapState(cpIndex, laps, lapStart, lastLap, bestLap)
    }

    /** `Car(x, y)`: spawn at (x, y), then `reset()`. */
    constructor (x0: int, y0: int, now: int)
      ensures spawnX == x0 && spawnY == y0
      ensures x == x0 as real && y == y0 as real && speed == 0.0 && angle == 0.0
      ensures State() == StartState(now) && LapInvariant(State())
    {
      spawnX, spawnY := x0, y0;
      new;
      Reset(now);
    }

    /** `reset()`: back to the spawn point, standing still, no laps and no best lap. */
    method Reset(now: int)
      modifies this
      ensures spawnX == old(spawnX) && spawnY == old(spawnY)
      ensures x == spawnX as real && y == spawnY as real && speed == 0.0 && angle == 0.0
      ensures State() == StartState(now) && LapInvariant(State())
    {
      x, y := spawnX as real, spawnY as real;
      speed := 0.0;
      angle := 0.0;
      cpIndex := 0;
      laps := 0;
      lapStart := now;
      lastLap := 0;
      bestLap := Infinity;
    }

    /**
     * The checkpoint branch of `update(keys, checkpoints)` with `count`
     * gates; `hit` is whether the car is within reach of the current gate.
     */
    method UpdateCheckpoint(count: nat, hit: bool, now: int)
      requires count > 0 ==> 0 <= cpIndex < count
      modifies this
      ensures State() == CheckpointStep(old(State()), count, hit, now)
      ensures spawnX == old(spawnX) && spawnY == old(spawnY)
      ensures x == old(x) && y == old(y) && speed == old(speed) && angle == old(angle)
    {
      if count > 0 {
        if hit {
          cpIndex := (cpIndex + 1) % count;
          if cpIndex == 0 {
            lastLap := now - lapStart;
            if Beats(lastLap, bestLap) {
              bestLap := Finite(lastLap);
            }
            lapStart := now;
            laps := laps + 1;
          }
        }
      }
    }
  }
}
