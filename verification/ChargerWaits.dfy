/**
 How long the charge state machine waits: in state 1 for a hundred ready steps in a row, and in state 2
 for a hundred steps before charging starts, less what the counter brings along from state 5.
 */
module ChargerWaits {
  import opened Memory
  import opened Charger

  function Steps(c: Charge, readings: seq<Sense>): Charge {
    if readings == [] then c
    else var n := |readings| - 1; Step(Steps(c, readings[..n]), readings[n])
  }

  function Running(readings: seq<Sense>): nat {
    if readings == [] then 0
    else var n := |readings| - 1; Running(readings[..n]) + if Runs(readings[n]) then 1 else 0
  }

  lemma RepeatedReading(i: Sense, n: nat)
    requires n > 0
    ensures seq(n, _ => i)[..n - 1] == seq(n - 1, _ => i)
  {
  }

  // ---------------------------------------------------------------- out of state 1

  /** Every step runs and is ready. */
  predicate AllReady(c: Charge, readings: seq<Sense>) {
    readings == [] ||
    var n := |readings| - 1;
    AllReady(c, readings[..n]) && Runs(readings[n]) && WaitsReady(Moment(Steps(c, readings[..n]), readings[n]))
  }

  /** Some step after the first flips to absent. */
  predicate FlipsLater(c: Charge, readings: seq<Sense>) {
    |readings| > 1 &&
    var n := |readings| - 1;
    FlipsLater(c, readings[..n]) || ToAbsent(Steps(c, readings[..n]), readings[n])
  }

  lemma {:induction false} ReadyStepsCount(c: Charge, readings: seq<Sense>)
    requires Inv(c) && c.state == 1 && c.cntState == 0 && |readings| <= LIMIT && AllReady(c, readings)
    ensures var d := Steps(c, readings);
            && Inv(d) && d.state == 1 && d.cntState <= |readings|
            && (d.cntState == |readings| <==> !FlipsLater(c, readings))
  {
    if readings != [] {
      hide Step, WaitsReady, ToAbsent;
      var n := |readings| - 1;
      ReadyStepsCount(c, readings[..n]);
      var b := Steps(c, readings[..n]);
      StepKeepsInv(b, readings[n]);
      ReadyStepAdvances(b, readings[n]);
    }
  }

  /** From a cleared counter, 101 ready steps leave state 1 exactly if none after the first flips to absent. */
  lemma ReadyStepsLeave(c: Charge, readings: seq<Sense>)
    requires Inv(c) && c.state == 1 && c.cntState == 0 && |readings| == 101 && AllReady(c, readings)
    ensures Steps(c, readings).state == if FlipsLater(c, readings) then 1 else 2
  {
    hide Step, WaitsReady, ToAbsent;
    ReadyStepsCount(c, readings[..LIMIT]);
    var b := Steps(c, readings[..LIMIT]);
    ReadyStepAdvances(b, readings[LIMIT]);
  }

  // They need not: a run of 101 ready steps whose hundredth flips.

  /** A running step that answers absent and is ready by its last reading alone. */
  predicate IsReadyAbsent(i: Sense) {
    Runs(i) && !GateFault(i) && !Forced(i) && i.present == 0 && HasFaultBits(i.bits) && i.state1 == 4
  }

  const READY_ABSENT: Sense := Sense(1, 0, 0, 0, 0, 1, 0, 0, 0, 0, 0, 0, 0, 0, 0, 0, 0, 1, 4, 0, 0, 0)

  lemma ReadyAbsentFields(i: Sense)
    requires i.gate == 1 && i.bits == 1 && i.stateA == 0 && i.stateB == 0 && i.stateC == 0
    requires i.present == 0 && i.state1 == 4
    ensures IsReadyAbsent(i)
  {
  }

  /** Fault bits lead from the start to state 1, and a forced step without the last reading to substate 1. */
  function PresentRun(i: Sense): seq<Act> {
    [Tick(i.(state1 := 0, bits1 := 1)), Tick(i.(state1 := 0, bits1 := 1, stateA := 1))]
  }

  lemma PresentFirst(i: Sense)
    requires IsReadyAbsent(i)
    ensures var d := Step(START, i.(state1 := 0, bits1 := 1));
            d.state == 1 && d.substate == 0 && d.cntPresent == 0 && d.cntState == 0
  {
  }

  lemma PresentSecond(c: Charge, i: Sense)
    requires IsReadyAbsent(i) && c.state == 1 && c.substate == 0 && c.cntPresent == 0
    ensures var d := Step(c, i.(state1 := 0, bits1 := 1, stateA := 1));
            d.state == 1 && d.substate == 1 && d.cntPresent == 0 && d.cntState == 0
  {
  }

  lemma PresentReached(i: Sense)
    requires IsReadyAbsent(i)
    ensures var c := Run(PresentRun(i));
            Inv(c) && c.state == 1 && c.substate == 1 && c.cntPresent == 0 && c.cntState == 0
  {
    PresentFirst(i);
    var acts := PresentRun(i);
    var one := acts[..1];
    assert one[..0] == [] && acts[..2] == acts;
    InvAlways(acts);
    LastAct(one);
    LastAct(acts);
    hide Step, IsReadyAbsent;
    PresentSecond(Run(one), i);
  }

  lemma ReadyAbsentStep(c: Charge, i: Sense)
    requires Inv(c) && c.state == 1 && IsReadyAbsent(i) && (c.substate == 1 || c.cntPresent == 0) && c.cntState < LIMIT
    ensures WaitsReady(Moment(c, i)) && Runs(i)
    ensures ToAbsent(c, i) <==> c.substate == 1 && c.cntPresent == LIMIT - 1
    ensures var d := Step(c, i);
            && d.state == 1
            && (c.substate == 1 && c.cntPresent < LIMIT - 1 ==> d.substate == 1 && d.cntPresent == c.cntPresent + 1)
            && (c.substate == 1 && c.cntPresent == LIMIT - 1 ==>
                  d.substate == 0 && d.cntPresent == 0 && d.cntState == 1)
            && (c.substate == 0 ==> d.substate == 0 && d.cntPresent == 0 && d.cntState == c.cntState + 1)
  {
  }

  lemma {:induction false} ReadyAbsentSteps(c: Charge, i: Sense, n: nat)
    requires Inv(c) && c.state == 1 && c.substate == 1 && c.cntPresent == 0 && c.cntState == 0
    requires IsReadyAbsent(i) && n <= LIMIT - 1
    ensures var r := seq(n, _ => i); var d := Steps(c, r);
            && AllReady(c, r) && !FlipsLater(c, r)
            && Inv(d) && d.state == 1 && d.substate == 1 && d.cntPresent == n && d.cntState == n
  {
    if n > 0 {
      hide Step, WaitsReady, ToAbsent, IsReadyAbsent;
      ReadyAbsentSteps(c, i, n - 1);
      RepeatedReading(i, n);
      var b := Steps(c, seq(n - 1, _ => i));
      ReadyAbsentStep(b, i);
      ReadyStepsCount(c, seq(n, _ => i));
    }
  }

  lemma FlippedWaits(c: Charge, i: Sense)
    requires Inv(c) && c.state == 1 && c.substate == 1 && c.cntPresent == 0 && c.cntState == 0 && IsReadyAbsent(i)
    ensures var r := seq(LIMIT + 1, _ => i);
            AllReady(c, r) && Steps(c, r).state == 1 && Steps(c, r).cntState == 2
  {
    hide Step, WaitsReady, ToAbsent, IsReadyAbsent;
    ReadyAbsentSteps(c, i, LIMIT - 1);
    RepeatedReading(i, LIMIT);
    RepeatedReading(i, LIMIT + 1);
    var b := Steps(c, seq(LIMIT - 1, _ => i));
    ReadyAbsentStep(b, i);
    StepKeepsInv(b, i);
    ReadyAbsentStep(Step(b, i), i);
  }

  /** After 101 ready steps in a row the machine is still in state 1, and has counted two of them. */
  lemma FlippedWait()
    ensures var c := Run(PresentRun(READY_ABSENT)); var r := seq(LIMIT + 1, _ => READY_ABSENT);
            && c.state == 1 && c.cntState == 0 && AllReady(c, r)
            && Steps(c, r).state == 1 && Steps(c, r).cntState == 2
  {
    ReadyAbsentFields(READY_ABSENT);
    hide IsReadyAbsent, Run, Steps, AllReady, PresentRun;
    PresentReached(READY_ABSENT);
    FlippedWaits(Run(PresentRun(READY_ABSENT)), READY_ABSENT);
  }

  // ---------------------------------------------------------------- from state 2 to charging

  /** One step out of state 2. */
  lemma ReadyStep(c: Charge, i: Sense)
    requires Inv(c) && c.state == 2
    ensures var d := Step(c, i);
            && Inv(d)
            && (d.state == 2 ==>
                  d.cntState == if Runs(i) && c.cntState < LIMIT then c.cntState + 1 else c.cntState)
            && (d.state == 5 ==> c.cntState == LIMIT && Runs(i))
  {
    StepKeepsInv(c, i);
    StepGoesTo(c, i);
    AtSwitchFacts(c, i);
    DispatchFacts(Finalize(Debounce(c, i)), 10, i);
    DispatchFacts(Finalize(AtSwitch(c, i)), 3, i);
    DispatchFacts(Event(AtSwitch(c, i), if i.measC2 < VERSION_ID then 0x10 else 8), 5, i);
    hide AtSwitch, Dispatch, Debounce, HasFaultBits, Forced;
  }

  /** What the counter brings along into state 2: nothing, except from state 5. */
  function Carry(c: Charge, a: Act): nat {
    if c.state != 5 then 0
    else
      match a
      case Tick(i) =>
        if !AtLimit(i) then 0
        else if i.measB5 != 0 then c.cntState
        else if c.cntState == LIMIT - 1 then 0
        else c.cntState + 1
      case _ => c.cntState
  }

  lemma EntryCarries(c: Charge, a: Act)
    requires Inv(c) && c.state != 2 && Apply(c, a).state == 2
    ensures Apply(c, a).cntState == Carry(c, a)
  {
    if a.Tick? && Runs(a.i) {
      var i := a.i;
      var s := AtSwitch(c, i);
      StepGoesTo(c, i);
      AtSwitchFacts(c, i);
      SwitchCarries(s, i);
      DebounceFlips(c, i);
      DispatchFacts(Finalize(Debounce(c, i)), 1, i);
      DispatchFacts(Finalize(Debounce(c, i)), 10, i);
      hide Dispatch, Debounce, HasFaultBits, Forced, Switch;
    }
  }

  lemma SwitchCarries(c: Charge, i: Sense)
    requires Inv(c) && c.state != 2 && Switch(c, i).state == 2
    ensures Switch(c, i).cntState == Carry(c, Tick(i))
  {
    SwitchEdges(c, i);
    DispatchFacts(c, 1, i);
    DispatchFacts(c, 2, i);
    DispatchFacts(c.(cntInit := Increment(c.cntInit)), 2, i);
    DispatchFacts(c.(state := 2, complete := 0), 2, i);
    hide Dispatch;
  }

  /** What the counter brought along when state 2 was last entered, and the running steps since. */
  function Carried(acts: seq<Act>): nat {
    if acts == [] then 0
    else
      var n := |acts| - 1;
      var c := Run(acts[..n]);
      if c.state == 2 then Carried(acts[..n]) else Carry(c, acts[n])
  }

  function Since(acts: seq<Act>): nat {
    if acts == [] then 0
    else
      var n := |acts| - 1;
      if Run(acts[..n]).state != 2 then 0
      else Since(acts[..n]) + if acts[n].Tick? && Runs(acts[n].i) then 1 else 0
  }

  function AtMost(n: nat, limit: nat): nat {
    if n < limit then n else limit
  }

  lemma IdleStep(c: Charge, a: Act)
    requires c.state == 2 && (!a.Tick? || !Runs(a.i))
    ensures Apply(c, a).state == 2 && Apply(c, a).cntState == c.cntState
  {
  }

  lemma StartIsIdle()
    ensures Run([]).state == 0
  {
  }

  /** In every run, the counter of state 2 is the running steps since it was entered, and what came along. */
  lemma {:induction false} ReadyCounter(acts: seq<Act>)
    requires Run(acts).state == 2
    ensures Run(acts).cntState == AtMost(Carried(acts) + Since(acts), LIMIT)
  {
    StartIsIdle();
    hide Run, Step, History;
    if acts != [] {
      LastAct(acts);
      var n := |acts| - 1;
      var c, a := Run(acts[..n]), acts[n];
      InvAlways(acts[..n]);
      if c.state != 2 {
        EntryCarries(c, a);
        InvAlways(acts);
      } else {
        ReadyCounter(acts[..n]);
        if a.Tick? && Runs(a.i) {
          ReadyStep(c, a.i);
        } else {
          IdleStep(c, a);
        }
      }
    }
  }

  /**
   Every step from state 2 to state 5 runs, and comes when the running steps since state 2 was entered
   make a hundred with what the counter brought along.
   */
  lemma ChargingWaited(acts: seq<Act>, i: Sense)
    requires Run(acts).state == 2 && Step(Run(acts), i).state == 5
    ensures Runs(i) && Carried(acts) + Since(acts) >= 100
  {
    hide Run, Step, Carried, Since;
    InvAlways(acts);
    ReadyCounter(acts);
    ReadyStep(Run(acts), i);
  }

  // ---------------------------------------------------------------- when that is the full wait

  predicate StaysReady(c: Charge, readings: seq<Sense>) {
    forall k :: 0 <= k <= |readings| ==> Steps(c, readings[..k]).state == 2
  }

  /** Through state 2 alone, `readings` and then `last` lead to charging. */
  predicate Charges(c: Charge, readings: seq<Sense>, last: Sense) {
    StaysReady(c, readings) && Step(Steps(c, readings), last).state == 5
  }

  lemma {:induction false} ReadyCounts(c: Charge, readings: seq<Sense>)
    requires Inv(c) && StaysReady(c, readings)
    ensures var d := Steps(c, readings); Inv(d) && d.state == 2 && d.cntState <= c.cntState + Running(readings)
  {
    assert readings[..|readings|] == readings;
    assert Steps(c, readings[..|readings|]).state == 2;
    if readings != [] {
      hide Step;
      var n := |readings| - 1;
      forall k | 0 <= k <= n
        ensures Steps(c, readings[..n][..k]).state == 2
      {
        assert readings[..n][..k] == readings[..k];
      }
      ReadyCounts(c, readings[..n]);
      ReadyStep(Steps(c, readings[..n]), readings[n]);
    }
  }

  /** A running step that has all that state 5 needs, with presence forced. */
  predicate IsCharging(i: Sense) {
    && Runs(i) && !GateFault(i) && Forced(i) && !HasFaultBits(i.bits)
    && i.meas2 != 0 && i.query2 != 0 && i.mode2 == MODE_CHARGE && i.measB2 != i.limit2
  }

  const CHARGING: Sense := Sense(1, 1, 0, 0, 0, 0, 1, 1, 0x0D, 0, 1, 0, 0, 0, 0, 0, 0, 0, 0, 0, 0, 0)

  lemma ChargingFields(i: Sense)
    requires i.gate == 1 && i.stateA == 1 && i.bits == 0
    requires i.meas2 == 1 && i.query2 == 1 && i.mode2 == 0x0D && i.measB2 == 0 && i.limit2 == 1
    ensures IsCharging(i)
  {
  }

  lemma ChargingStep(c: Charge, i: Sense)
    requires Inv(c) && c.state == 2 && IsCharging(i)
    ensures var d := Step(c, i);
            Inv(d) && if c.cntState < LIMIT then d.state == 2 && d.cntState == c.cntState + 1 else d.state == 5
  {
  }

  /** With steady readings charging starts as soon as the counter allows. */
  lemma {:induction false} WaitIsTight(c: Charge, i: Sense, n: nat)
    requires Inv(c) && c.state == 2 && IsCharging(i) && n <= LIMIT - c.cntState + 1
    ensures var d := Steps(c, seq(n, _ => i));
            Inv(d) && if n <= LIMIT - c.cntState then d.state == 2 && d.cntState == c.cntState + n else d.state == 5
    ensures Running(seq(n, _ => i)) == n
  {
    if n > 0 {
      hide Step, IsCharging;
      assert Runs(i) by {
        ChargingRuns(i);
      }
      WaitIsTight(c, i, n - 1);
      RepeatedReading(i, n);
      ChargingStep(Steps(c, seq(n - 1, _ => i)), i);
    }
  }

  lemma ChargingRuns(i: Sense)
    requires IsCharging(i)
    ensures Runs(i)
  {
  }

  lemma SteadyCharges(c: Charge, i: Sense)
    requires Inv(c) && c.state == 2 && IsCharging(i)
    ensures var n := LIMIT - c.cntState; var r := seq(n, _ => i); Charges(c, r, i) && Running(r) == n
  {
    hide Step, IsCharging;
    var n: nat := LIMIT - c.cntState;
    var r := seq(n, _ => i);
    forall k | 0 <= k <= n
      ensures Steps(c, r[..k]).state == 2
    {
      WaitIsTight(c, i, k);
      assert r[..k] == seq(k, _ => i);
    }
    WaitIsTight(c, i, n);
    WaitIsTight(c, i, n + 1);
    RepeatedReading(i, n + 1);
  }

  ghost predicate NeedsFullWait(c: Charge) {
    forall readings, last :: Charges(c, readings, last) ==> Running(readings) >= 100
  }

  /** From state 2, every way to charging takes at least a hundred running steps exactly if the counter is zero. */
  lemma FullWaitExactly(c: Charge)
    requires Inv(c) && c.state == 2
    ensures NeedsFullWait(c) <==> c.cntState == 0
  {
    hide Step, StaysReady;
    forall readings, last | Charges(c, readings, last)
      ensures Running(readings) >= LIMIT - c.cntState
    {
      ReadyCounts(c, readings);
      ReadyStep(Steps(c, readings), last);
    }
    ChargingFields(CHARGING);
    hide IsCharging;
    SteadyCharges(c, CHARGING);
    hide Charges, Running;
    var n: nat := LIMIT - c.cntState;
    assert Charges(c, seq(n, _ => CHARGING), CHARGING) && Running(seq(n, _ => CHARGING)) == n;
  }

  /**
   So a teardown shortens the wait by what state 5 has counted: charging can start again no earlier than
   when the running steps in state 2 make a hundred with it, and with steady readings it does then.
   */
  lemma TeardownShortensWait(c: Charge, readings: seq<Sense>, last: Sense)
    requires Inv(c) && c.state == 5
    ensures var d := Teardown(c); Inv(d) && d.state == 2 && d.scaled == 0 && d.cntState == c.cntState
    ensures Charges(Teardown(c), readings, last) ==> Runs(last) && Running(readings) >= LIMIT - c.cntState
    ensures NeedsFullWait(Teardown(c)) <==> c.cntState == 0
  {
    hide Step, StaysReady;
    var d := Teardown(c);
    FullWaitExactly(d);
    if Charges(d, readings, last) {
      ReadyCounts(d, readings);
      ReadyStep(Steps(d, readings), last);
    }
  }

  /** And so does the exit at the limit while a measurement is present. */
  lemma LimitShortensWait(c: Charge, i: Sense)
    requires Inv(c) && c.state == 5 && Runs(i) && Step(c, i).state == 2
    ensures NeedsFullWait(Step(c, i)) <==> Carry(c, Tick(i)) == 0
  {
    hide Step, Carry;
    StepKeepsInv(c, i);
    EntryCarries(c, Tick(i));
    FullWaitExactly(Step(c, i));
  }

  /** At worst, one waiting step is left: state 5 with a count of 99 meets the limit and charges again. */
  lemma ChargesAgainAtOnce(c: Charge, i: Sense)
    requires Inv(c) && c.state == 5 && c.cntState == LIMIT - 1 && Runs(i) && Step(c, i).state == 2
    requires AtLimit(i) && i.measB5 != 0
    ensures Charges(Step(c, i), [CHARGING], CHARGING)
  {
    EntryCarries(c, Tick(i));
    StepKeepsInv(c, i);
    ChargingFields(CHARGING);
    hide Step, IsCharging, Charges;
    SteadyCharges(Step(c, i), CHARGING);
    assert seq(1, _ => CHARGING) == [CHARGING];
  }
}
