/**
 The gear actuator's drive step. Phases: 1 parked, 2 driving back, 3 driving forward, 4 switched off
 between two directions (0 is the unpowered start). The motor has a direction bit and an enable bit.
 */
module GearDrive {
  import opened Memory

  /** C division, which truncates toward zero. */
  function Quot(a: int, b: int): int
    requires b > 0
  {
    if a >= 0 then a / b else -(-a / b)
  }

  function Clamp(v: int, lo: int, hi: int): int {
    if v > hi then hi else if v < lo then lo else v
  }

  function Abs(v: int): nat {
    if v < 0 then -v else v
  }

  /** The globals of the drive. `delta` is the last position error, `ramp` the soft-start counter. */
  datatype Drive = Drive(phase: u8, dir: u8, enable: u8, driver: u8, delta: int, older: int, lastPos: int,
                         acc: int, ramp: u16, rev: int, fwd: int, cmd: int, duty: nat)

  /** Errors for which `delta * 200` and the error sum stay within 32 bits. */
  predicate InRange(delta: int) {
    -10_737_418 <= delta <= 10_737_418
  }

  predicate OnTarget(delta: int) {
    -9 <= delta <= 9
  }

  function Accumulate(acc: int, older: int, delta: int): (a: int)
    ensures -20000 <= a <= 19999
  {
    Clamp(acc + Quot(older + delta, 2), -20000, 19999)
  }

  /** Feed-forward from the accumulated error. */
  function Feed(acc: int): int {
    var v := acc * 50;
    if v < -768255 then -3000
    else
      var w := (if v < 0 then v + 0xFF else v) / 256;
      if w > 2999 then 3000 else w
  }

  /** Torque demand from the accumulated and the present error. */
  function Demand(acc: int, delta: int): (iq: int)
    requires -20000 <= acc <= 19999
    ensures -8000 <= iq <= 8000
  {
    Clamp(Feed(acc) + Quot(delta * 200, 12), -8000, 8000)
  }

  /** One turn of the phase machine for a negative demand, and for a positive one. */
  function Back(d: Drive): Drive {
    if d.phase == 0 || d.phase == 1 then d.(dir := 0, enable := 1, driver := 1, phase := 2)
    else if d.phase == 2 then d
    else if d.phase == 3 then d.(enable := 0, rev := 0, phase := 4)
    else if d.phase == 4 then
      if d.rev == 0 then d.(enable := 0)
      else d.(dir := 0, enable := 1, driver := 1, ramp := 1, phase := 2)
    else d.(driver := 0, phase := 0)
  }

  function Forth(d: Drive): Drive {
    if d.phase == 0 || d.phase == 1 then d.(dir := 1, enable := 1, driver := 1, phase := 3)
    else if d.phase == 2 then d.(enable := 0, fwd := 0, phase := 4)
    else if d.phase == 3 then d
    else if d.phase == 4 then
      if d.fwd == 0 then d.(fwd := 1)
      else d.(dir := 1, enable := 1, driver := 1, ramp := 1, phase := 3)
    else d.(driver := 0, phase := 0)
  }

  function Ramped(iq: nat, ramp: u16): nat {
    if ramp != 0 && ramp * 100 <= iq then ramp * 100 else iq
  }

  function NextRamp(ramp: u16): u16 {
    if ramp == 0 then 0
    else var n := (ramp + 1) % 0x1_0000; if n > 100 then 0 else n
  }

  /** The drive output: soft start, command and duty. */
  function Output(d: Drive, iq: nat, sign: int): Drive {
    var r := Ramped(iq, d.ramp);
    var q := if r > 9950 then 9999 else r;
    d.(ramp := NextRamp(d.ramp), cmd := q * sign, duty := q * 0x12BF / 10000)
  }

  function Park(d: Drive): Drive {
    d.(phase := 1, ramp := 1, cmd := 0, enable := if d.phase != 1 then 0 else d.enable,
       driver := if d.phase != 1 then 1 else d.driver)
  }

  /** The error enters the pair and the accumulator; a new actuator position starts the sum afresh. */
  function Tracked(d: Drive, delta: int, pos: int): (e: Drive)
    ensures -20000 <= e.acc <= 19999
  {
    d.(older := d.delta, delta := delta, lastPos := pos,
       acc := Accumulate(if pos != d.lastPos then 0 else d.acc, d.delta, delta))
  }

  function Step(d: Drive, target: int, pos: int): Drive {
    var delta := target - pos;
    if OnTarget(delta) then Park(d)
    else
      var e := Tracked(d, delta, pos);
      var iq := Demand(e.acc, delta);
      if iq == 0 then Output(e, 0, 1)
      else if iq < 0 then Output(Back(e), -iq, -1)
      else Output(Forth(e), iq, 1)
  }

  class Actuator {
    var phase: u8
    var dir: u8
    var enable: u8
    var driver: u8
    var delta: int
    var older: int
    var lastPos: int
    var acc: int
    var ramp: u16
    var rev: int
    var fwd: int
    var cmd: int
    var duty: nat

    ghost function View(): Drive
      reads this
    {
      Drive(phase, dir, enable, driver, delta, older, lastPos, acc, ramp, rev, fwd, cmd, duty)
    }

    /** The unpowered start: all of the memory is zero. */
    constructor ()
      ensures View() == Drive(0, 0, 0, 0, 0, 0, 0, 0, 0, 0, 0, 0, 0)
    {
      phase, dir, enable, driver, delta, older, lastPos := 0, 0, 0, 0, 0, 0, 0;
      acc, ramp, rev, fwd, cmd, duty := 0, 0, 0, 0, 0, 0;
    }

    method TurnBack()
      modifies this
      ensures View() == Back(old(View())) && delta == old(delta) && acc == old(acc)
    {
      match phase {
        case 0 | 1 =>
          dir, enable, driver := 0, 1, 1;
          phase := 2;
        case 2 =>
          phase := 2;
        case 3 =>
          enable, rev := 0, 0;
          phase := 4;
        case 4 =>
          if rev == 0 {
            enable, rev := 0, 0;
            phase := 4;
          } else {
            dir, enable, driver := 0, 1, 1;
            ramp := 1;
            phase := 2;
          }
        case _ =>
          driver := 0;
          phase := 0;
      }
    }

    method TurnForth()
      modifies this
      ensures View() == Forth(old(View())) && delta == old(delta) && acc == old(acc)
    {
      match phase {
        case 0 | 1 =>
          dir, enable, driver := 1, 1, 1;
          phase := 3;
        case 2 =>
          enable, fwd := 0, 0;
          phase := 4;
        case 3 =>
          phase := 3;
        case 4 =>
          if fwd == 0 {
            fwd := 1;
            phase := 4;
          } else {
            dir, enable, driver := 1, 1, 1;
            ramp := 1;
            phase := 3;
          }
        case _ =>
          driver := 0;
          phase := 0;
      }
    }

    method DriveOutput(demand: nat, sign: int)
      modifies this
      ensures View() == Output(old(View()), demand, sign) && delta == old(delta) && acc == old(acc)
    {
      var iq := demand;
      var c: int := ramp;
      if c != 0 {
        var next := (c + 1) % 0x1_0000;
        if c * 100 <= iq {
          iq := c * 100;
        }
        if next > 100 {
          next := 0;
        }
        ramp := next;
      }
      if iq > 9950 {
        iq := 9999;
      }
      cmd := iq * sign;
      duty := iq * 0x12BF / 10000;
    }

    /** Feed-forward from the accumulator plus a share of the error, limited twice. */
    method ComputeDemand(error: int) returns (iq: int)
      requires InRange(error) && -20000 <= acc <= 19999
      ensures iq == Demand(acc, error)
    {
      var v := acc * 50;
      if v >= -768255 {
        if v < 0 {
          v := v + 0xFF;
        }
        iq := v / 256;
        if iq > 2999 {
          iq := 3000;
        }
      } else {
        iq := -3000;
      }
      iq := iq + Quot(error * 200, 12);
      if iq > 7999 {
        iq := 8000;
      }
      if iq < -8000 {
        iq := -8000;
      }
    }

    method TrackError(error: int, statePos: int)
      requires InRange(error) && InRange(delta)
      modifies this
      ensures View() == Tracked(old(View()), error, statePos)
    {
      var previous := delta;
      delta, older := error, previous;
      if statePos != lastPos {
        lastPos, acc := statePos, 0;
      }
      var sum := acc + Quot(previous + error, 2);
      if sum > 19999 {
        sum := 19999;
      }
      if sum < -20000 {
        sum := -20000;
      }
      acc := sum;
    }

    method DriveStep(target: int, statePos: int)
      requires InRange(target - statePos) && InRange(delta)
      modifies this
      ensures View() == Step(old(View()), target, statePos)
      ensures InRange(delta)
    {
      hide Back, Forth, Output, Demand, Accumulate;
      var error := target - statePos;
      if -9 <= error <= 9 {
        if phase != 1 {
          enable, driver := 0, 1;
        }
        phase, ramp, cmd := 1, 1, 0;
        return;
      }
      TrackError(error, statePos);
      var iq := ComputeDemand(error);
      var sign := 1;
      if iq < 0 {
        iq := -iq;
        sign := -1;
        TurnBack();
      } else if iq > 0 {
        TurnForth();
      }
      DriveOutput(iq, sign);
    }
  }

  // ---------------------------------------------------------------- the demand

  /**
   The feed-forward is the accumulated error's share, truncated toward zero and limited, and the
   demand adds the present error's: neither the rounding correction for negative sums nor the cut-off
   leaves a jump behind.
   */
  lemma DemandIs(acc: int, delta: int)
    requires -20000 <= acc <= 19999
    ensures Demand(acc, delta) == Clamp(Clamp(Quot(acc * 50, 256), -3000, 3000) + Quot(delta * 200, 12), -8000, 8000)
  {
  }

  /** A larger error, present or accumulated, never demands less. */
  lemma DemandMonotone(acc: int, acc': int, delta: int, delta': int)
    requires -20000 <= acc <= acc' <= 19999 && delta <= delta'
    ensures Demand(acc, delta) <= Demand(acc', delta')
  {
  }

  /** Outside the dead zone, error and sum of one sign demand torque of that sign. */
  lemma DemandHasSign(acc: int, delta: int)
    requires -20000 <= acc <= 19999 && !OnTarget(delta)
    ensures acc >= 0 && delta > 0 ==> Demand(acc, delta) > 0
    ensures acc <= 0 && delta < 0 ==> Demand(acc, delta) < 0
  {
  }

  // ---------------------------------------------------------------- every run

  /** Bits follow phases; the command respects direction, limit and ramp. */
  predicate Inv(d: Drive) {
    && d.phase <= 4 && (d.phase >= 2 ==> d.driver == 1)
    && (d.phase <= 1 || d.phase == 4 ==> d.enable == 0)
    && (d.phase == 2 ==> d.enable == 1 && d.dir == 0 && d.cmd <= 0)
    && (d.phase == 3 ==> d.enable == 1 && d.dir == 1 && d.cmd >= 0)
    && -20000 <= d.acc <= 19999
    && Abs(d.cmd) <= 8000
    && d.ramp <= 100
    && (d.ramp != 0 ==> Abs(d.cmd) <= 100 * (d.ramp - 1))
  }

  /** What one step may do to phase, direction and the rest. */
  predicate SafeStep(d: Drive, e: Drive) {
    && Inv(e)
    && (e.dir != d.dir ==> d.enable == 0)
    && !(d.phase == 2 && e.phase == 3) && !(d.phase == 3 && e.phase == 2)
  }

  lemma BackIsSafe(d: Drive, iq: nat)
    requires Inv(d) && iq <= 8000
    ensures SafeStep(d, Output(Back(d), iq, -1))
  {
  }

  lemma ForthIsSafe(d: Drive, iq: nat)
    requires Inv(d) && iq <= 8000
    ensures SafeStep(d, Output(Forth(d), iq, 1))
  {
  }

  lemma RestIsSafe(d: Drive)
    requires Inv(d)
    ensures SafeStep(d, Output(d, 0, 1)) && SafeStep(d, Park(d))
  {
  }

  /** One step from any state of a run. */
  lemma StepIsSafe(d: Drive, target: int, pos: int)
    requires Inv(d)
    ensures var e := Step(d, target, pos);
            && Inv(e)
            && (e.dir != d.dir ==> d.enable == 0)
            && !(d.phase == 2 && e.phase == 3) && !(d.phase == 3 && e.phase == 2)
  {
    hide Output, Back, Forth, Park, Demand, Accumulate;
    var t := Tracked(d, target - pos, pos);
    var iq := Demand(t.acc, target - pos);
    RestIsSafe(d);
    RestIsSafe(t);
    if iq < 0 {
      BackIsSafe(t, -iq);
    } else {
      ForthIsSafe(t, iq);
    }
  }

  // ---------------------------------------------------------------- which way a step drives

  /** The demand of a step that is off target. */
  function StepDemand(d: Drive, target: int, pos: int): (iq: int)
    ensures -8000 <= iq <= 8000
  {
    Demand(Tracked(d, target - pos, pos).acc, target - pos)
  }

  /** A positive demand drives forward, at once or after the motor has been off for two such steps. */
  lemma ForwardExactly(d: Drive, target: int, pos: int)
    requires Inv(d) && !OnTarget(target - pos) && StepDemand(d, target, pos) > 0
    ensures var e := Step(d, target, pos);
            && e.cmd > 0 && e.acc == Tracked(d, target - pos, pos).acc
            && (if d.phase == 2 then e.phase == 4 && e.enable == 0 && e.fwd == 0 && e.dir == 0
                else if d.phase == 4 && d.fwd == 0 then e.phase == 4 && e.enable == 0 && e.fwd == 1 && e.dir == d.dir
                else e.phase == 3 && e.enable == 1 && e.dir == 1 && e.driver == 1)
  {
    hide Demand, Accumulate;
  }

  /** A negative demand drives back, but out of phase 4 only once other code has set the reverse flag. */
  lemma BackwardExactly(d: Drive, target: int, pos: int)
    requires Inv(d) && !OnTarget(target - pos) && StepDemand(d, target, pos) < 0
    ensures var e := Step(d, target, pos);
            && e.cmd < 0 && e.acc == Tracked(d, target - pos, pos).acc
            && (if d.phase == 3 then e.phase == 4 && e.enable == 0 && e.rev == 0 && e.dir == 1
                else if d.phase == 4 && d.rev == 0 then e.phase == 4 && e.enable == 0 && e.rev == 0 && e.dir == d.dir
                else e.phase == 2 && e.enable == 1 && e.dir == 0 && e.driver == 1)
  {
    hide Demand, Accumulate;
  }

  /** No demand leaves phase and bits alone and commands nothing. */
  lemma NoDemandRests(d: Drive, target: int, pos: int)
    requires Inv(d) && !OnTarget(target - pos) && StepDemand(d, target, pos) == 0
    ensures var e := Step(d, target, pos);
            e.phase == d.phase && e.enable == d.enable && e.dir == d.dir && e.cmd == 0
  {
    hide Demand, Accumulate;
  }

  /** The sum takes in the mean of the last two errors, rounded toward zero, within its limits. */
  lemma SumTakesMean(d: Drive, delta: int, pos: int)
    ensures var e := Tracked(d, delta, pos); var before := if pos != d.lastPos then 0 else d.acc;
            var half := if d.delta + delta >= 0 then (d.delta + delta) / 2 else -((-d.delta - delta) / 2);
            && e.delta == delta && e.older == d.delta && e.lastPos == pos
            && e.acc == if before + half > 19999 then 19999
                        else if before + half < -20000 then -20000
                        else before + half
  {
  }

  /**
   So from rest the motor turns toward the target: with sum and last error on the target's side, or zero, a
   target ahead drives forward and one behind drives back.
   */
  lemma DrivesTowardTarget(d: Drive, target: int, pos: int)
    requires Inv(d) && d.phase <= 1
    ensures var e := Step(d, target, pos); var sum := if pos != d.lastPos then 0 else d.acc;
            && (target > pos + 9 && sum >= 0 && d.delta >= 0 ==>
                  e.phase == 3 && e.dir == 1 && e.enable == 1 && e.cmd > 0)
            && (target < pos - 9 && sum <= 0 && d.delta <= 0 ==>
                  e.phase == 2 && e.dir == 0 && e.enable == 1 && e.cmd < 0)
  {
    hide Step, Demand, Inv;
    var delta := target - pos;
    if !OnTarget(delta) {
      SumTakesMean(d, delta, pos);
      DemandHasSign(Tracked(d, delta, pos).acc, delta);
      if StepDemand(d, target, pos) > 0 {
        ForwardExactly(d, target, pos);
      } else if StepDemand(d, target, pos) < 0 {
        BackwardExactly(d, target, pos);
      }
    }
  }

  lemma OutputSize(d: Drive, iq: nat, sign: int)
    requires iq <= 8000 && (sign == 1 || sign == -1) && d.ramp <= 100
    ensures var e := Output(d, iq, sign);
            && e.phase == d.phase
            && Abs(e.cmd) == (if d.ramp != 0 && 100 * d.ramp < iq then 100 * d.ramp else iq)
            && e.ramp == (if d.ramp == 0 || d.ramp == 100 then 0 else d.ramp + 1)
            && e.duty == Abs(e.cmd) * 4799 / 10000
  {
  }

  lemma TurnRamp(d: Drive)
    requires d.phase <= 4
    ensures Back(d).ramp == (if d.phase == 4 && Back(d).phase == 2 then 1 else d.ramp) && Back(d).phase != 3
    ensures Forth(d).ramp == (if d.phase == 4 && Forth(d).phase == 3 then 1 else d.ramp) && Forth(d).phase != 2
  {
  }

  /**
   The size of the command: the demand, held back by the soft start while that runs. It starts at 1 when the
   motor parks and when a reversal completes, and ends after a hundred steps. The duty is 47.99 percent of it.
   */
  lemma CommandSize(d: Drive, target: int, pos: int)
    requires Inv(d) && !OnTarget(target - pos)
    ensures var e := Step(d, target, pos);
            var iq := Abs(StepDemand(d, target, pos));
            var ramp := if d.phase == 4 && (e.phase == 2 || e.phase == 3) then 1 else d.ramp;
            && Abs(e.cmd) == (if ramp != 0 && 100 * ramp < iq then 100 * ramp else iq)
            && e.ramp == (if ramp == 0 || ramp == 100 then 0 else ramp + 1)
            && e.duty == Abs(e.cmd) * 4799 / 10000
  {
    hide Demand, Accumulate, Output, Back, Forth;
    var t := Tracked(d, target - pos, pos);
    var iq := StepDemand(d, target, pos);
    TurnRamp(t);
    if iq == 0 {
      OutputSize(t, 0, 1);
    } else if iq < 0 {
      OutputSize(Back(t), -iq, -1);
    } else {
      OutputSize(Forth(t), iq, 1);
    }
  }

  /** On target the motor is off and the soft start is rearmed, whatever went on before. */
  lemma OnTargetParks(d: Drive, target: int, pos: int)
    requires Inv(d) && OnTarget(target - pos)
    ensures var e := Step(d, target, pos);
            && e.phase == 1 && e.enable == 0 && e.cmd == 0 && e.ramp == 1 && e.dir == d.dir && e.acc == d.acc
            && e.driver == if d.phase == 1 then d.driver else 1
  {
  }

  /** Outside the five phases the driver is switched off and the machine starts again. */
  lemma UnknownPhaseStops(d: Drive)
    requires d.phase > 4
    ensures Back(d) == Forth(d) == d.(driver := 0, phase := 0)
  {
  }

  /** A command that large, which no limited demand reaches, is taken for full power. */
  lemma FullPower(d: Drive, iq: nat, sign: int)
    requires iq > 9950 && d.ramp == 0
    ensures Output(d, iq, sign).cmd == 9999 * sign && Output(d, iq, sign).duty == 4798
  {
  }

  /** Steps, and other code writing the two phase flags between them. */
  datatype Act = Tick(target: int, pos: int) | Flags(rev: int, fwd: int)

  function Apply(d: Drive, a: Act): Drive {
    match a
    case Tick(target, pos) => Step(d, target, pos)
    case Flags(rev, fwd) => d.(rev := rev, fwd := fwd)
  }

  function Run(d: Drive, acts: seq<Act>): Drive {
    if acts == [] then d else var n := |acts| - 1; Apply(Run(d, acts[..n]), acts[n])
  }

  /** The unpowered start, where all is zero, and every parked start with the motor off. */
  lemma StartsAreSafe(d: Drive)
    requires d.phase <= 1 && d.enable == 0 && d.cmd == 0 && d.acc == 0 && d.ramp <= 1
    ensures Inv(d)
  {
  }

  lemma {:induction false} RunIsSafe(d: Drive, acts: seq<Act>)
    requires Inv(d)
    ensures Inv(Run(d, acts))
  {
    if acts != [] {
      hide Step;
      var n := |acts| - 1;
      RunIsSafe(d, acts[..n]);
      if acts[n].Tick? {
        StepIsSafe(Run(d, acts[..n]), acts[n].target, acts[n].pos);
      }
    }
  }

  lemma PrefixRun(d: Drive, acts: seq<Act>, n: nat)
    requires 1 <= n <= |acts|
    ensures Run(d, acts[..n]) == Apply(Run(d, acts[..n - 1]), acts[n - 1])
  {
    assert acts[..n][..n - 1] == acts[..n - 1];
  }

  /** The direction bit moves only while the motor was off. */
  lemma DirectionChangesOff(d: Drive, acts: seq<Act>, n: nat)
    requires Inv(d) && 1 <= n <= |acts|
    ensures Run(d, acts[..n]).dir != Run(d, acts[..n - 1]).dir ==> Run(d, acts[..n - 1]).enable == 0
  {
    hide Step;
    PrefixRun(d, acts, n);
    RunIsSafe(d, acts[..n - 1]);
    if acts[n - 1].Tick? {
      StepIsSafe(Run(d, acts[..n - 1]), acts[n - 1].target, acts[n - 1].pos);
    }
  }

  /** Between driving one way and driving the other there is a moment with the motor off. */
  lemma {:induction false} ReversalPassesOff(d: Drive, acts: seq<Act>, i: nat, j: nat) returns (k: nat)
    requires Inv(d) && i < j <= |acts|
    requires var p, q := Run(d, acts[..i]).phase, Run(d, acts[..j]).phase; p + q == 5 && (p == 2 || p == 3)
    ensures i < k < j && Run(d, acts[..k]).enable == 0
    decreases j
  {
    hide Step;
    PrefixRun(d, acts, j);
    RunIsSafe(d, acts[..j - 1]);
    var c := Run(d, acts[..j - 1]);
    if acts[j - 1].Tick? {
      StepIsSafe(c, acts[j - 1].target, acts[j - 1].pos);
    }
    k := j - 1;
    if c.phase == Run(d, acts[..j]).phase {
      k := ReversalPassesOff(d, acts, i, j - 1);
    }
  }
}
