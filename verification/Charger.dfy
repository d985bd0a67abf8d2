/**
 The charger's charge state machine: states 0 (idle), 1 (waiting), 2 (ready), 3 (no measurement),
 5 (charging) and 10 (gate fault), stepped whenever the gate byte's run bit is set. Sensor and driver
 reads are inputs of the step, one field for each place that reads.
 */
module Charger {
  import opened Memory

  const LIMIT: nat := 100
  const VERSION_ID: int := 0x110E
  const MODE_CHARGE: int := 0x0D

  /** What one step reads, in the order in which it may read it. */
  datatype Sense = Sense(
    gate: u8,
    stateA: int, stateB: int, stateC: int, present: int,          // charge-present debounce
    bits: u32,                                                     // status bits before the switch
    meas2: int, query2: int, mode2: int, measB2: int, limit2: int, measC2: u32,
    meas3: int,
    mode5: int, meas5: int, limit5: int, measB5: int,
    bits1: u32, state1: int,
    query10: int,
    profile: int, value: u16)                                      // setpoint selection

  predicate Runs(i: Sense) {
    i.gate % 2 == 1
  }

  predicate GateFault(i: Sense) {
    i.gate / 2 % 2 == 1
  }

  predicate HasFaultBits(bits: u32) {
    bits % 0x40 != 0
  }

  /** The work globals. `cntState` is the per-state counter that every transition clears. */
  datatype Charge = Charge(
    state: u8, substate: u8, mode: u16, complete: u8,
    cntPresent: u16, cntState: u32, cntInit: u32, cntFault: u32, subFlag: u32,
    started: u8, second: u8, third: u8, eventState: u8, eventWord: u16,
    raw: u16, primary: u16, scaled: u16)

  /** One of the three readings that force the substate to present without asking. */
  predicate Forced(i: Sense) {
    i.stateA == 1 || i.stateB == 3 || i.stateC == 4
  }

  // ---------------------------------------------------------------- setpoints

  /** The primary setpoint for a request; `None` when it is out of range. */
  function Primary(v: int): Option<u16> {
    if v == 0 then Some(0)
    else if (v - 0x4204) % 0x1_0000 > 0x972C then None
    else Some(v * 8192 % 0x1_0000_0000 / 0xEA83 % 0x1_0000)
  }

  /**
   The window is tested on the low 16 bits only. For the 16-bit readings that the state machine
   passes in, that is the documented range.
   */
  lemma PrimaryWindow(v: int)
    ensures Primary(v).Some? <==> v == 0 || 0x4204 <= v % 0x1_0000 <= 0xD930
    ensures 0x4204 <= v <= 0xD930 ==> Primary(v) == Some(v * 8192 / 0xEA83)
  {
    WindowOffset(v);
    if 0x4204 <= v <= 0xD930 {
      var w := v * 8192;
      assert w % 0x1_0000_0000 == w && w / 0xEA83 < 0x1_0000;
    }
  }

  lemma WindowOffset(v: int)
    ensures (v - 0x4204) % 0x1_0000 <= 0x972C <==> 0x4204 <= v % 0x1_0000 <= 0xD930
  {
  }

  lemma PrimaryOutsideRange()
    ensures Primary(0x14204) == Some(0x2BF0) && 0x14204 > 0xD930
  {
  }

  /** The clamp of the secondary setpoint continues its scale: it never jumps and never drops. */
  lemma ScaledMonotone(v: u32, w: u32)
    requires v <= w
    ensures Scaled(v) <= Scaled(w) <= 0x123B == Scaled(0x7D0)
  {
  }

  /** The secondary setpoint, saturated from 2001 on. */
  function Scaled(v: u32): u16 {
    if v < 0x7D1 then v * 8192 / 0xDB6 % 0x1_0000 else 0x123B
  }

  lemma ZeroSetpoints()
    ensures Primary(0) == Some(0) && Scaled(0) == 0
  {
  }

  function SelectSetpoint(c: Charge, profile: int, v: u16): Charge {
    if profile == 0 then c.(raw := 0xDECE, primary := 0x12A7)
    else if profile == 2 then
      c.(raw := (-0x69 * (v as int) / 128 + 0x138EE) % 0x1_0000,
         primary := if Primary(v).Some? then Primary(v).value else c.primary)
    else if profile == 3 then c.(raw := 0x9E6E, primary := 0x1995)
    else if profile == 1 || profile == 4 then c.(raw := 0x8613, primary := 0x1DA2)
    else c
  }

  // ---------------------------------------------------------------- transitions

  function Event(c: Charge, code: int): Charge {
    if code == 2 then (if c.started != 0 then c else c.(started := 1, eventState := 1))
    else if code == 4 then (if c.started == 1 then c.(eventState := 9) else c)
    else if code == 8 then (if c.second == 0 then c.(second := 1) else c)
    else if code == 0x10 then c.(eventState := 10, eventWord := 0x30, third := 1)
    else c
  }

  function Finalize(c: Charge): Charge {
    Event(c, 4)
  }

  function Reset(c: Charge, to: u8): Charge {
    c.(cntState := 0, cntFault := 0, cntPresent := 0, subFlag := 0, state := to)
  }

  function Dispatch(c: Charge, to: u8, i: Sense): Charge {
    var d := Reset(c, to);
    if to == 1 then d.(cntInit := 0, primary := 0, scaled := 0)
    else if to == 2 then SelectSetpoint(Event(d.(scaled := 0), 2), i.profile, i.value)
    else d
  }

  // ---------------------------------------------------------------- the step, part by part

  function Debounce(c: Charge, i: Sense): Charge {
    if Forced(i) then c.(substate := 1)
    else if c.substate == 0 then
      if i.present != 1 then c.(cntPresent := 0)
      else if c.cntPresent == LIMIT - 1 then c.(substate := 1, cntPresent := 0)
      else if c.cntPresent < LIMIT then c.(cntPresent := c.cntPresent + 1)
      else c
    else if c.substate == 1 then
      if i.present != 0 then c.(cntPresent := 0)
      else if c.cntPresent == LIMIT - 1 then Finalize(Dispatch(c, 1, i)).(substate := 0, cntPresent := 0)
      else if c.cntPresent < LIMIT then c.(cntPresent := c.cntPresent + 1)
      else c
    else c
  }

  function Increment(n: u32): u32 {
    (n + 1) % 0x1_0000_0000
  }

  function Case0(c: Charge, i: Sense): Charge {
    var n := Increment(c.cntState);
    if n < LIMIT then c.(cntState := n) else Dispatch(c, 1, i)
  }

  predicate Ready(c: Charge, i: Sense) {
    (c.substate == 1 && !HasFaultBits(i.bits1)) || i.state1 == 4
  }

  function Case1(c: Charge, i: Sense): Charge {
    var d := c.(cntInit := Increment(c.cntInit));
    if !Ready(c, i) then d.(cntState := 0)
    else if c.cntState < LIMIT then d.(cntState := c.cntState + 1)
    else Dispatch(d, 2, i)
  }

  function Case2(c: Charge, i: Sense): Charge {
    if i.meas2 == 0 then Dispatch(Finalize(c), 3, i)
    else if c.cntState < LIMIT then c.(cntState := c.cntState + 1)
    else if i.query2 == 0 then (if c.subFlag == 0 then c.(subFlag := 1) else c)
    else if i.mode2 != MODE_CHARGE || i.measB2 == i.limit2 then c
    else Dispatch(Event(c, if i.measC2 < VERSION_ID then 0x10 else 8), 5, i)
  }

  function Case3(c: Charge, i: Sense): Charge {
    if c.cntState < LIMIT then c.(cntState := c.cntState + 1)
    else if i.meas3 == 0 then c
    else Dispatch(c, 2, i)
  }

  function Case5(c: Charge, i: Sense): Charge {
    var d := if i.mode5 == MODE_CHARGE && i.meas5 == i.limit5 then c.(state := 2, complete := 0) else c;
    if i.measB5 != 0 && d.complete != 1 then d
    else
      var n := Increment(d.cntState);
      if n >= LIMIT then Dispatch(d, 2, i).(complete := 0)
      else if n == 10 then Finalize(d.(cntState := n))
      else d.(cntState := n)
  }

  predicate Clears(c: Charge, i: Sense) {
    c.mode == 0 || i.query10 == 1
  }

  function Case10(c: Charge, i: Sense): Charge {
    if Clears(c, i) then
      var n := Increment(c.cntFault);
      if c.cntFault == 0 then Finalize(c.(cntFault := n))
      else if n <= LIMIT then c.(cntFault := n)
      else Dispatch(c, 2, i)
    else if c.cntState < LIMIT then c.(cntState := c.cntState + 1)
    else Event(c, 2)
  }

  /** Up to the switch: debounce, then the fault bits unless state 1 or 10 handles them itself. */
  function AtSwitch(c: Charge, i: Sense): Charge {
    var d := Debounce(c, i);
    if d.state != 1 && d.state != 10 && HasFaultBits(i.bits) then Dispatch(Finalize(d), 1, i) else d
  }

  function Switch(c: Charge, i: Sense): Charge {
    if c.state == 0 then Case0(c, i)
    else if c.state == 1 then Case1(c, i)
    else if c.state == 2 then Case2(c, i)
    else if c.state == 3 then Case3(c, i)
    else if c.state == 5 then Case5(c, i)
    else if c.state == 10 then Case10(c, i)
    else c
  }

  function Step(c: Charge, i: Sense): Charge {
    if !Runs(i) then c
    else if GateFault(i) then Dispatch(Finalize(Debounce(c, i)), 10, i)
    else Switch(AtSwitch(c, i), i)
  }

  /** The teardown of an active charge, called from outside the step. */
  function Teardown(c: Charge): Charge {
    if c.state == 5 then c.(scaled := 0, state := 2) else c
  }

  class Controller {
    var state: u8
    var substate: u8
    var mode: u16
    var complete: u8
    var cntPresent: u16
    var cntState: u32
    var cntInit: u32
    var cntFault: u32
    var subFlag: u32
    var started: u8
    var second: u8
    var third: u8
    var eventState: u8
    var eventWord: u16
    var raw: u16
    var primary: u16
    var scaled: u16

    ghost function View(): Charge
      reads this
    {
      Charge(state, substate, mode, complete, cntPresent, cntState, cntInit, cntFault, subFlag,
             started, second, third, eventState, eventWord, raw, primary, scaled)
    }

    constructor ()
      ensures View() == Charge(0, 0, 0, 0, 0, 0, 0, 0, 0, 0, 0, 0, 0, 0, 0, 0, 0)
    {
      state, substate, mode, complete := 0, 0, 0, 0;
      cntPresent, cntState, cntInit, cntFault, subFlag := 0, 0, 0, 0, 0;
      started, second, third, eventState, eventWord := 0, 0, 0, 0, 0;
      raw, primary, scaled := 0, 0, 0;
    }

    method SetSetpoint(v: int) returns (ok: bool)
      modifies this`primary
      ensures ok <==> Primary(v).Some?
      ensures primary == if Primary(v).Some? then Primary(v).value else old(primary)
    {
      var out := 0;
      if v != 0 {
        if (v - 0x4204) % 0x1_0000 > 0x972C {
          return false;
        }
        out := v * 8192 % 0x1_0000_0000 / 0xEA83 % 0x1_0000;
      }
      primary := out;
      return true;
    }

    method SetScaledSetpoint(v: u32)
      modifies this`scaled
      ensures scaled == Scaled(v)
    {
      scaled := if v < 0x7D1 then v * 8192 / 0xDB6 % 0x1_0000 else 0x123B;
    }

    method SelectSetpointByState(profile: int, value: u16)
      modifies this
      ensures View() == SelectSetpoint(old(View()), profile, value)
    {
      if profile == 0 {
        raw, primary := 0xDECE, 0x12A7;
      } else if profile == 2 {
        raw := (-0x69 * (value as int) / 128 + 0x138EE) % 0x1_0000;
        var ok := SetSetpoint(value);
      } else if profile == 3 {
        raw, primary := 0x9E6E, 0x1995;
      } else if profile == 1 || profile == 4 {
        raw, primary := 0x8613, 0x1DA2;
      }
    }

    method EventDispatch(code: int)
      modifies this
      ensures View() == Event(old(View()), code)
    {
      if code == 2 {
        if started == 0 {
          started, eventState := 1, 1;
        }
      } else if code == 4 {
        if started == 1 {
          eventState := 9;
        }
      } else if code == 8 {
        if second == 0 {
          second := 1;
        }
      } else if code == 0x10 {
        eventState, eventWord, third := 10, 0x30, 1;
      }
    }

    method StepFinalize()
      modifies this
      ensures View() == Finalize(old(View()))
    {
      EventDispatch(4);
    }

    method ResetWork(to: u8)
      modifies this
      ensures View() == Reset(old(View()), to)
    {
      cntState, cntFault, cntPresent, subFlag := 0, 0, 0, 0;
      state := to;
    }

    method ClearSetpoints()
      modifies this
      ensures View() == old(View()).(cntInit := 0, primary := 0, scaled := 0)
    {
      hide Primary, Scaled;
      ZeroSetpoints();
      cntInit := 0;
      var ok := SetSetpoint(0);
      SetScaledSetpoint(0);
    }

    method EnterReady(i: Sense)
      modifies this
      ensures View() == SelectSetpoint(Event(old(View()).(scaled := 0), 2), i.profile, i.value)
    {
      hide Scaled, SelectSetpoint, Event;
      ZeroSetpoints();
      SetScaledSetpoint(0);
      EventDispatch(2);
      SelectSetpointByState(i.profile, i.value);
    }

    method StateDispatch(to: u8, i: Sense)
      modifies this
      ensures View() == Dispatch(old(View()), to, i)
    {
      hide SelectSetpoint, Event, Reset;
      ResetWork(to);
      if to == 1 {
        ClearSetpoints();
      } else if to == 2 {
        EnterReady(i);
      }
    }

    method DebouncePresent(i: Sense)
      modifies this
      ensures View() == Debounce(old(View()), i)
    {
      if i.stateA == 1 || i.stateB == 3 || i.stateC == 4 {
        substate := 1;
      } else if substate == 0 {
        if i.present == 1 {
          var n := cntPresent;
          if n < LIMIT {
            cntPresent := n + 1;
            if n == 99 {
              substate, cntPresent := 1, 0;
            }
          }
        } else {
          cntPresent := 0;
        }
      } else if substate == 1 {
        if i.present != 0 {
          cntPresent := 0;
        } else {
          var n := cntPresent;
          if n < LIMIT {
            cntPresent := n + 1;
            if n == 99 {
              StateDispatch(1, i);
              StepFinalize();
              substate, cntPresent := 0, 0;
            }
          }
        }
      }
    }

    method RunState1(i: Sense)
      modifies this
      ensures View() == Case1(old(View()), i)
    {
      cntInit := Increment(cntInit);
      if (substate != 1 || HasFaultBits(i.bits1)) && i.state1 != 4 {
        cntState := 0;
      } else if cntState < LIMIT {
        cntState := cntState + 1;
      } else {
        StateDispatch(2, i);
      }
    }

    method RunState2(i: Sense)
      modifies this
      ensures View() == Case2(old(View()), i)
    {
      if i.meas2 == 0 {
        StepFinalize();
        StateDispatch(3, i);
        return;
      }
      var n := cntState;
      if n > 99 {
        if i.query2 == 0 {
          if subFlag == 0 {
            subFlag := 1;
          }
          return;
        }
        if i.mode2 != MODE_CHARGE || i.measB2 == i.limit2 {
          return;
        }
        if i.measC2 < VERSION_ID {
          EventDispatch(0x10);
        } else {
          EventDispatch(8);
        }
        StateDispatch(5, i);
        return;
      }
      cntState := n + 1;
    }

    method RunState5(i: Sense)
      modifies this
      ensures View() == Case5(old(View()), i)
    {
      if i.mode5 == MODE_CHARGE {
        if i.meas5 == i.limit5 {
          state := 2;
          complete := 0;
        }
      }
      if i.measB5 != 0 && complete != 1 {
        return;
      }
      var n := Increment(cntState);
      cntState := n;
      if n > 99 {
        StateDispatch(2, i);
        complete := 0;
        return;
      }
      if n == 10 {
        StepFinalize();
      }
    }

    method RunState10(i: Sense)
      modifies this
      ensures View() == Case10(old(View()), i)
    {
      if mode == 0 || i.query10 == 1 {
        var n := cntFault;
        cntFault := Increment(n);
        if n != 0 {
          if Increment(n) >= 0x65 {
            StateDispatch(2, i);
          }
          return;
        }
        StepFinalize();
        return;
      }
      if cntState > 99 {
        EventDispatch(2);
      } else {
        cntState := cntState + 1;
      }
    }

    method RunSwitch(i: Sense)
      modifies this
      ensures View() == Switch(old(View()), i)
    {
      match state {
        case 0 =>
          var n := Increment(cntState);
          cntState := n;
          if n >= LIMIT {
            StateDispatch(1, i);
          }
        case 1 => RunState1(i);
        case 2 => RunState2(i);
        case 3 =>
          var n := cntState;
          if n > 99 {
            if i.meas3 != 0 {
              StateDispatch(2, i);
            }
          } else {
            cntState := n + 1;
          }
        case 5 => RunState5(i);
        case 10 => RunState10(i);
        case _ =>
      }
    }

    method StateMachineStep(i: Sense)
      modifies this
      ensures View() == Step(old(View()), i)
    {
      if !Runs(i) {
        return;
      }
      DebouncePresent(i);
      if GateFault(i) {
        StepFinalize();
        StateDispatch(10, i);
        return;
      }
      if state != 1 && state != 10 && HasFaultBits(i.bits) {
        StepFinalize();
        StateDispatch(1, i);
      }
      RunSwitch(i);
    }

    method State5ToState2()
      modifies this
      ensures View() == Teardown(old(View()))
    {
      if state == 5 {
        SetScaledSetpoint(0);
        state := 2;
      }
    }
  }

  // ---------------------------------------------------------------- every run

  /** Steps, and what other tasks do to the shared globals between them, setpoint requests included. */
  datatype Act =
    | Tick(i: Sense)
    | TearDown
    | SetMode(mode: u16)
    | MarkComplete
    | Request(v: int)
    | RequestScaled(w: u32)

  function Apply(c: Charge, a: Act): Charge {
    match a
    case Tick(i) => Step(c, i)
    case TearDown => Teardown(c)
    case SetMode(m) => c.(mode := m)
    case MarkComplete => if c.state == 5 then c.(complete := 1) else c
    case Request(v) => c.(primary := if Primary(v).Some? then Primary(v).value else c.primary)
    case RequestScaled(w) => c.(scaled := Scaled(w))
  }

  const START: Charge := Charge(0, 0, 0, 0, 0, 0, 0, 0, 0, 0, 0, 0, 0, 0, 0, 0, 0)

  function Run(acts: seq<Act>): Charge {
    if acts == [] then START else var n := |acts| - 1; Apply(Run(acts[..n]), acts[n])
  }

  /** Known states only, and counters far from their width. */
  predicate Inv(c: Charge) {
    && (c.state == 0 || c.state == 1 || c.state == 2 || c.state == 3 || c.state == 5 || c.state == 10)
    && c.substate <= 1 && c.cntPresent < LIMIT && c.cntState <= LIMIT && c.cntFault <= LIMIT
    && (c.state == 0 || c.state == 5 ==> c.cntState < LIMIT)
  }

  lemma DispatchFacts(c: Charge, to: u8, i: Sense)
    ensures var d := Dispatch(c, to, i);
            && d.state == to && d.cntState == d.cntFault == d.cntPresent == 0
            && (to == 1 ==> d.primary == 0 && d.scaled == 0)
            && d.mode == c.mode && d.substate == c.substate && d.subFlag == 0
  {
  }

  lemma DebounceFacts(c: Charge, i: Sense)
    ensures var d := Debounce(c, i);
            && (d.state == c.state || d.state == 1) && d.mode == c.mode
            && (Inv(c) ==> Inv(d))
            && (d.state == c.state ==> d.cntFault == c.cntFault || d.state == 1)
            && (d.cntState == c.cntState || (d.state == 1 && d.cntState == 0))
            && (d.state != c.state ==> d.cntState == 0)
  {
  }

  lemma AtSwitchFacts(c: Charge, i: Sense)
    requires Inv(c)
    ensures var d := AtSwitch(c, i);
            && Inv(d) && (d.state == c.state || d.state == 1) && d.mode == c.mode
            && (d.state == c.state ==> d.cntFault == c.cntFault || d.state == 1)
            && (d.cntState == c.cntState || (d.state == 1 && d.cntState == 0))
            && (d.state != c.state ==> d.cntState == 0)
            && (HasFaultBits(i.bits) && c.state != 1 && c.state != 10 ==> d.state == 1 && d.cntState == 0)
  {
    DebounceFacts(c, i);
    DispatchFacts(Finalize(Debounce(c, i)), 1, i);
    hide Dispatch, Debounce;
  }

  predicate AtLimit(i: Sense) {
    i.mode5 == MODE_CHARGE && i.meas5 == i.limit5
  }

  /** The counter of state 5 runs out; it counts only without a measurement or on completion. */
  predicate RunsOut(c: Charge, i: Sense) {
    c.cntState == LIMIT - 1 && (i.measB5 == 0 || c.complete == 1)
  }

  predicate MayCharge(c: Charge, i: Sense) {
    c.cntState == LIMIT && i.query2 != 0 && i.mode2 == MODE_CHARGE && i.measB2 != i.limit2
  }

  /** Where the switch goes from each state, and exactly when. */
  function Edge(c: Charge, i: Sense): u8 {
    if c.state == 0 then (if c.cntState == LIMIT - 1 then 1 else 0)
    else if c.state == 1 then (if c.cntState == LIMIT && Ready(c, i) then 2 else 1)
    else if c.state == 2 then (if i.meas2 == 0 then 3 else if MayCharge(c, i) then 5 else 2)
    else if c.state == 3 then (if c.cntState == LIMIT && i.meas3 != 0 then 2 else 3)
    else if c.state == 5 then (if AtLimit(i) || RunsOut(c, i) then 2 else 5)
    else if c.state == 10 then (if c.cntFault == LIMIT && Clears(c, i) then 2 else 10)
    else c.state
  }

  lemma SwitchEdges(c: Charge, i: Sense)
    requires Inv(c)
    ensures Inv(Switch(c, i)) && Switch(c, i).state == Edge(c, i)
  {
    if c.state == 0 {
      DispatchFacts(c, 1, i);
    } else if c.state == 1 {
      DispatchFacts(c.(cntInit := Increment(c.cntInit)), 2, i);
    } else if c.state == 2 {
      DispatchFacts(Finalize(c), 3, i);
      DispatchFacts(Event(c, if i.measC2 < VERSION_ID then 0x10 else 8), 5, i);
    } else if c.state == 3 {
      DispatchFacts(c, 2, i);
    } else if c.state == 5 {
      DispatchFacts(c, 2, i);
      DispatchFacts(c.(state := 2, complete := 0), 2, i);
    } else {
      DispatchFacts(c, 2, i);
    }
    hide Dispatch;
  }

  /** The debounce flips to absent, which also runs the dispatcher into state 1. */
  predicate ToAbsent(c: Charge, i: Sense) {
    !Forced(i) && c.substate == 1 && i.present == 0 && c.cntPresent == LIMIT - 1
  }

  /** The substate that the switch finds. */
  function Debounced(c: Charge, i: Sense): u8 {
    if Forced(i) || (c.substate == 0 && i.present == 1 && c.cntPresent == LIMIT - 1) then 1
    else if ToAbsent(c, i) then 0
    else c.substate
  }

  lemma DebounceFlips(c: Charge, i: Sense)
    requires Inv(c)
    ensures var d := Debounce(c, i);
            && d.substate == Debounced(c, i)
            && d.state == (if ToAbsent(c, i) then 1 else c.state)
            && d.cntState == (if ToAbsent(c, i) then 0 else c.cntState)
            && d.complete == c.complete
            && (!ToAbsent(c, i) ==> d.cntFault == c.cntFault)
  {
  }

  /** The state after a step, from every state and for all readings. */
  lemma StepGoesTo(c: Charge, i: Sense)
    requires Inv(c)
    ensures Step(c, i).state ==
              if !Runs(i) then c.state
              else if GateFault(i) then 10
              else if ToAbsent(c, i) || (HasFaultBits(i.bits) && c.state != 1 && c.state != 10) then 1
              else Edge(c.(substate := Debounced(c, i)), i)
  {
    var b, a := Debounce(c, i), AtSwitch(c, i);
    DebounceFlips(c, i);
    DebounceFacts(c, i);
    AtSwitchFacts(c, i);
    SwitchEdges(a, i);
    DispatchFacts(Finalize(b), 10, i);
    DispatchFacts(Finalize(b), 1, i);
    hide Debounce, Dispatch, Switch, HasFaultBits, Forced;
  }

  lemma StepKeepsInv(c: Charge, i: Sense)
    requires Inv(c)
    ensures Inv(Step(c, i))
  {
    AtSwitchFacts(c, i);
    SwitchEdges(AtSwitch(c, i), i);
    DebounceFacts(c, i);
    DispatchFacts(Finalize(Debounce(c, i)), 10, i);
    hide Dispatch, Debounce, AtSwitch, Switch;
  }

  lemma {:induction false} InvAlways(acts: seq<Act>)
    ensures Inv(Run(acts))
  {
    if acts == [] {
      IdleInv(START);
      hide Inv;
    } else {
      hide Apply, Inv;
      var n := |acts| - 1;
      InvAlways(acts[..n]);
      ApplyKeepsInv(Run(acts[..n]), acts[n]);
    }
  }

  lemma ApplyKeepsInv(c: Charge, a: Act)
    requires Inv(c)
    ensures Inv(Apply(c, a))
  {
    hide Step, Primary, Scaled;
    if a.Tick? {
      StepKeepsInv(c, a.i);
    }
  }

  lemma IdleInv(c: Charge)
    requires c.state == 0 && c.substate == 0 && c.cntPresent == 0 && c.cntState == 0 && c.cntFault == 0
    ensures Inv(c)
  {
  }

  /** A running step that sees fault bits outside states 1 and 10 ends in state 1, driving nothing. */
  lemma FaultBitsStop(c: Charge, i: Sense)
    requires Inv(c) && Runs(i) && !GateFault(i)
    requires c.state != 1 && c.state != 10 && HasFaultBits(i.bits)
    ensures var d := Step(c, i); d.state == 1 && d.primary == 0 && d.scaled == 0
  {
  }

  /** And a gate fault ends in state 10 from anywhere. */
  lemma GateFaultStops(c: Charge, i: Sense)
    requires Runs(i) && GateFault(i)
    ensures Step(c, i).state == 10 && Step(c, i).cntFault == 0
  {
  }

  // ---------------------------------------------------------------- how long 1 and 10 last

  /** A running step together with the state it started from. */
  datatype Moment = Moment(c: Charge, i: Sense)

  function History(acts: seq<Act>): seq<Moment> {
    if acts == [] then []
    else
      var n := |acts| - 1;
      History(acts[..n]) + if acts[n].Tick? && Runs(acts[n].i) then [Moment(Run(acts[..n]), acts[n].i)] else []
  }

  /** The step arrives at the switch in state 1 and finds the ready condition. */
  predicate WaitsReady(m: Moment) {
    !GateFault(m.i) && AtSwitch(m.c, m.i).state == 1 && Ready(AtSwitch(m.c, m.i), m.i)
  }

  predicate ReadyFor(h: seq<Moment>, n: nat) {
    n <= |h| && forall k :: |h| - n <= k < |h| ==> WaitsReady(h[k])
  }

  /** A step that stays in, or comes to, state 1 counts itself when ready and starts afresh when not. */
  lemma WaitingCounts(c: Charge, i: Sense)
    requires Inv(c) && Runs(i) && Step(c, i).state == 1
    ensures var d := Step(c, i);
            d.cntState <= if WaitsReady(Moment(c, i)) then (if c.state == 1 then c.cntState else 0) + 1 else 0
  {
    AtSwitchFacts(c, i);
    DispatchFacts(Finalize(Debounce(c, i)), 10, i);
    var a := AtSwitch(c, i);
    SwitchEdges(a, i);
    hide AtSwitch, Debounce;
    if !GateFault(i) {
      assert Step(c, i) == Switch(a, i);
      if a.state == 0 {
        DispatchFacts(a, 1, i);
      }
      hide Dispatch;
    }
  }

  lemma OtherActs(c: Charge, a: Act)
    requires !a.Tick? || !Runs(a.i)
    ensures var d := Apply(c, a);
            && d.cntState == c.cntState && d.cntFault == c.cntFault
            && (d.state == 1 <==> c.state == 1) && (d.state == 10 <==> c.state == 10)
  {
  }

  lemma LastAct(acts: seq<Act>)
    requires acts != []
    ensures var n := |acts| - 1; var c := Run(acts[..n]);
            && Run(acts) == Apply(c, acts[n])
            && History(acts) == History(acts[..n])
                 + if acts[n].Tick? && Runs(acts[n].i) then [Moment(c, acts[n].i)] else []
  {
  }

  lemma StreakGrows(h: seq<Moment>, n: nat, m: Moment)
    requires ReadyFor(h, n)
    ensures forall k :: 0 <= k <= n ==> ReadyFor(h, k)
    ensures WaitsReady(m) ==> ReadyFor(h + [m], n + 1)
    ensures ReadyFor(h + [m], 0) && h + [] == h
  {
  }

  lemma FewerReady(h: seq<Moment>, n: nat, k: nat)
    requires ReadyFor(h, n) && k <= n
    ensures ReadyFor(h, k)
  {
  }

  /** In state 1 the counter never exceeds the run of ready steps just behind. */
  lemma {:induction false} CounterIsStreak(acts: seq<Act>)
    requires Run(acts).state == 1
    ensures ReadyFor(History(acts), Run(acts).cntState)
  {
    if acts != [] {
      LastAct(acts);
      var n := |acts| - 1;
      var c, h, a := Run(acts[..n]), History(acts[..n]), acts[n];
      InvAlways(acts[..n]);
      if c.state == 1 {
        CounterIsStreak(acts[..n]);
      }
      var streak := if c.state == 1 then c.cntState else 0;
      assert ReadyFor(h, streak);
      if a.Tick? && Runs(a.i) {
        var m := Moment(c, a.i);
        WaitingCounts(c, a.i);
        hide Step, Run, History, ReadyFor, WaitsReady;
        StreakGrows(h, streak, m);
        FewerReady(h + [m], if WaitsReady(m) then streak + 1 else 0, Run(acts).cntState);
      } else {
        OtherActs(c, a);
        assert History(acts) == h;
      }
    }
  }

  /** Every step from state 1 to state 2 is ready, and so were the 100 running steps before it. */
  lemma WaitedLongEnough(acts: seq<Act>, i: Sense)
    requires Run(acts).state == 1 && Step(Run(acts), i).state == 2
    ensures WaitsReady(Moment(Run(acts), i)) && ReadyFor(History(acts), 100)
  {
    var c := Run(acts);
    InvAlways(acts);
    CounterIsStreak(acts);
    AtSwitchFacts(c, i);
    SwitchEdges(AtSwitch(c, i), i);
    DispatchFacts(Finalize(Debounce(c, i)), 10, i);
    hide AtSwitch, Switch, Debounce, Dispatch, Run, History;
  }

  /**
   Conversely, a ready step counts, and with the counter at 100 leaves, exactly unless it is the hundredth
   absent answer: its flip runs the dispatcher into state 1 once more, which costs all steps counted so far.
   */
  lemma ReadyStepAdvances(c: Charge, i: Sense)
    requires Inv(c) && c.state == 1 && Runs(i) && WaitsReady(Moment(c, i))
    ensures var d := Step(c, i);
            (if c.cntState < LIMIT then d.state == 1 && d.cntState == c.cntState + 1 else d.state == 2)
              <==> !ToAbsent(c, i) || c.cntState == 0
    ensures ToAbsent(c, i) ==> Step(c, i).state == 1 && Step(c, i).cntState == 1
  {
  }

  /** The step finds state 10 at the switch and its clearance condition. */
  predicate ClearsFault(m: Moment) {
    !GateFault(m.i) && AtSwitch(m.c, m.i).state == 10 && Clears(AtSwitch(m.c, m.i), m.i)
  }

  /** Clearance steps since the last gate fault. */
  function Clearances(h: seq<Moment>): nat {
    if h == [] then 0
    else
      var n := |h| - 1;
      if GateFault(h[n].i) then 0 else Clearances(h[..n]) + if ClearsFault(h[n]) then 1 else 0
  }

  lemma FaultCounts(c: Charge, i: Sense)
    requires Inv(c) && Runs(i) && Step(c, i).state == 10
    ensures var d := Step(c, i);
            if GateFault(i) then d.cntFault == 0
            else c.state == 10 && d.cntFault == c.cntFault + if ClearsFault(Moment(c, i)) then 1 else 0
  {
    AtSwitchFacts(c, i);
    DispatchFacts(Finalize(Debounce(c, i)), 10, i);
    var a := AtSwitch(c, i);
    SwitchEdges(a, i);
    hide AtSwitch, Debounce;
    if !GateFault(i) {
      assert Step(c, i) == Switch(a, i);
      DispatchFacts(a, 2, i);
      hide Dispatch;
    }
  }

  lemma {:induction false} CounterIsClearances(acts: seq<Act>)
    requires Run(acts).state == 10
    ensures Run(acts).cntFault == Clearances(History(acts))
  {
    if acts != [] {
      LastAct(acts);
      var n := |acts| - 1;
      var c, h, a := Run(acts[..n]), History(acts[..n]), acts[n];
      InvAlways(acts[..n]);
      if c.state == 10 {
        CounterIsClearances(acts[..n]);
      }
      if a.Tick? && Runs(a.i) {
        FaultCounts(c, a.i);
        hide Step, Run, History, ClearsFault;
        assert (h + [Moment(c, a.i)])[..|h|] == h;
      } else {
        OtherActs(c, a);
        assert History(acts) == h;
      }
    }
  }

  /** Every direct step from state 10 to state 2 is exactly the 101st clearance since the fault. */
  lemma ClearedLongEnough(acts: seq<Act>, i: Sense)
    requires Run(acts).state == 10 && Step(Run(acts), i).state == 2
    ensures ClearsFault(Moment(Run(acts), i)) && Clearances(History(acts)) == 100
  {
    var c := Run(acts);
    InvAlways(acts);
    CounterIsClearances(acts);
    AtSwitchFacts(c, i);
    SwitchEdges(AtSwitch(c, i), i);
    DispatchFacts(Finalize(Debounce(c, i)), 10, i);
    hide AtSwitch, Switch, Debounce, Dispatch, Run, History;
  }
}
