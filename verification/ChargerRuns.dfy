/**
 More about runs of the charge state machine: what its presence debounce counts, what its event flags
 latch, what setpoints it selects, and what drives the outputs in state 1.
 */
module ChargerRuns {
  import opened Memory
  import opened Charger

  // ---------------------------------------------------------------- the presence debounce

  /** The step asks whether the charger is present, and the answer speaks against the substate. */
  predicate Counts(m: Moment) {
    !Forced(m.i) && m.i.present == (if m.c.substate == 0 then 1 else 0)
  }

  predicate Flips(m: Moment) {
    Debounce(m.c, m.i).substate != m.c.substate
  }

  /** The step asks, and the answer agrees with the substate: earlier answers no longer count. */
  predicate Contrary(m: Moment) {
    !Forced(m.i) && !Counts(m)
  }

  /** The switch runs the dispatcher. */
  predicate Leaves(c: Charge, i: Sense) {
    if c.state == 5 then RunsOut(c, i) && !(AtLimit(i) && i.measB5 != 0) else Edge(c, i) != c.state
  }

  /** After its debounce, the step runs the dispatcher. */
  predicate Transits(m: Moment) {
    GateFault(m.i) ||
    var b := Debounce(m.c, m.i);
    (b.state != 1 && b.state != 10 && HasFaultBits(m.i.bits)) || Leaves(AtSwitch(m.c, m.i), m.i)
  }

  /**
   The answers that count, oldest first: true for present, false for absent. A contrary answer, a
   transition and the hundredth answer start afresh.
   */
  function Answers(h: seq<Moment>): seq<bool> {
    if h == [] then []
    else
      var n := |h| - 1;
      if Contrary(h[n]) || Transits(h[n]) then []
      else
        var a := Answers(h[..n]) + if Counts(h[n]) then [h[n].c.substate == 0] else [];
        if |a| == LIMIT then [] else a
  }

  /** Among these, the substate has been forced from absent to present. */
  predicate Switched(h: seq<Moment>) {
    Answers(h) != [] &&
    var n := |h| - 1;
    Switched(h[..n]) || (Forced(h[n].i) && h[n].c.substate == 0)
  }

  lemma DebounceCounts(c: Charge, i: Sense)
    requires Inv(c)
    ensures var d := Debounce(c, i); var m := Moment(c, i);
            if Forced(i) then d.substate == 1 && d.cntPresent == c.cntPresent
            else if !Counts(m) then d.substate == c.substate && d.cntPresent == 0
            else if c.cntPresent < LIMIT - 1 then d.substate == c.substate && d.cntPresent == c.cntPresent + 1
            else d.substate == 1 - c.substate && d.cntPresent == 0
  {
  }

  /** Whatever follows in the step keeps the counter, unless it is a transition. */
  lemma StepPresent(c: Charge, i: Sense)
    requires Inv(c) && Runs(i)
    ensures var d := Step(c, i);
            && d.substate == Debounce(c, i).substate
            && d.cntPresent == if Transits(Moment(c, i)) then 0 else Debounce(c, i).cntPresent
  {
    var b := Debounce(c, i);
    DebounceFacts(c, i);
    AtSwitchFacts(c, i);
    if GateFault(i) {
      DispatchFacts(Finalize(b), 10, i);
    } else {
      DispatchFacts(Finalize(b), 1, i);
      SwitchPresent(AtSwitch(c, i), i);
    }
    hide Debounce, Dispatch, Switch, Leaves, HasFaultBits;
  }

  lemma SwitchPresent(c: Charge, i: Sense)
    requires Inv(c)
    ensures var d := Switch(c, i); d.substate == c.substate && d.cntPresent == if Leaves(c, i) then 0 else c.cntPresent
  {
    DispatchFacts(c, 1, i);
    DispatchFacts(c, 2, i);
    DispatchFacts(c.(cntInit := Increment(c.cntInit)), 2, i);
    DispatchFacts(Finalize(c), 3, i);
    DispatchFacts(Event(c, if i.measC2 < VERSION_ID then 0x10 else 8), 5, i);
    DispatchFacts(c.(state := 2, complete := 0), 2, i);
    hide Dispatch;
  }

  lemma OtherPresent(c: Charge, a: Act)
    requires !a.Tick? || !Runs(a.i)
    ensures Apply(c, a).cntPresent == c.cntPresent && Apply(c, a).substate == c.substate
  {
  }

  /** One more running step, as the answers see it. */
  lemma OneMoreStep(h: seq<Moment>, m: Moment)
    ensures var a := Answers(h) + if Counts(m) then [m.c.substate == 0] else [];
            Answers(h + [m]) == if Contrary(m) || Transits(m) || |a| == LIMIT then [] else a
    ensures Switched(h + [m]) <==>
              Answers(h + [m]) != [] && (Switched(h) || (Forced(m.i) && m.c.substate == 0))
  {
  }

  /** What the counter stands for. */
  predicate Tallied(c: Charge, h: seq<Moment>) {
    var a := Answers(h);
    && |a| == c.cntPresent
    && (Switched(h) ==> c.substate == 1 && a != [] && a[0])
    && (!Switched(h) ==> forall k :: 0 <= k < |a| ==> a[k] == (c.substate == 0))
  }

  lemma TallyGoesOn(c: Charge, i: Sense, h: seq<Moment>)
    requires Inv(c) && Runs(i) && Tallied(c, h)
    ensures Tallied(Step(c, i), h + [Moment(c, i)])
  {
    DebounceCounts(c, i);
    StepPresent(c, i);
    OneMoreStep(h, Moment(c, i));
    hide Step, Debounce, Answers, Switched, Transits;
  }

  /** In every run, the counter is the number of answers that count. */
  lemma {:induction false} CounterIsAnswers(acts: seq<Act>)
    ensures Tallied(Run(acts), History(acts))
  {
    if acts != [] {
      LastAct(acts);
      var n := |acts| - 1;
      var c, h, a := Run(acts[..n]), History(acts[..n]), acts[n];
      InvAlways(acts[..n]);
      CounterIsAnswers(acts[..n]);
      if a.Tick? && Runs(a.i) {
        TallyGoesOn(c, a.i, h);
      } else {
        OtherPresent(c, a);
        assert h + [] == h;
      }
      hide Step, Run, History, Answers, Switched, Apply;
    }
  }

  /** Unless it is forced, the substate flips exactly with the hundredth answer that counts. */
  lemma FlipExactly(acts: seq<Act>, i: Sense)
    requires Runs(i) && !Forced(i)
    ensures var m := Moment(Run(acts), i); Flips(m) <==> Counts(m) && |Answers(History(acts))| == 99
  {
    var c := Run(acts);
    InvAlways(acts);
    CounterIsAnswers(acts);
    DebounceCounts(c, i);
    hide Debounce, Answers, Switched, Run, History;
  }

  /** And the ninety-nine before it are all equal to it exactly when no force has changed sides among them. */
  lemma FlipIsUnanimous(acts: seq<Act>, i: Sense)
    requires Runs(i) && !Forced(i) && Flips(Moment(Run(acts), i))
    ensures var m := Moment(Run(acts), i); var h := History(acts);
            (forall k :: 0 <= k < |Answers(h)| ==> Answers(h)[k] == (m.c.substate == 0)) <==> !Switched(h)
  {
    var c := Run(acts);
    InvAlways(acts);
    CounterIsAnswers(acts);
    FlipExactly(acts, i);
    hide Debounce, Answers, Switched, Run, History, Flips;
    assert |Answers(History(acts))| == LIMIT - 1;
  }

  // The condition can fail: a forced step does not clear the counter.

  /** A running step that answers absent, sees fault bits, and is never ready. */
  predicate IsAbsent(i: Sense) {
    && Runs(i) && !GateFault(i) && !Forced(i) && i.present == 0
    && HasFaultBits(i.bits) && HasFaultBits(i.bits1) && i.state1 != 4
  }

  const ABSENT: Sense := Sense(1, 0, 0, 0, 0, 1, 0, 0, 0, 0, 0, 0, 0, 0, 0, 0, 0, 1, 0, 0, 0, 0)

  lemma AbsentIsAbsent()
    ensures IsAbsent(ABSENT)
  {
    AbsentFields(ABSENT);
    hide IsAbsent;
  }

  lemma AbsentFields(i: Sense)
    requires i.gate == 1 && i.bits == 1 && i.bits1 == 1
    requires i.stateA == 0 && i.stateB == 0 && i.stateC == 0 && i.present == 0 && i.state1 == 0
    ensures IsAbsent(i)
  {
  }

  /** One answer for present, a forced step, and then `n` answers for absent. */
  function MixedRun(i: Sense, n: nat): (acts: seq<Act>)
    ensures |acts| == n + 3
  {
    [Tick(i), Tick(i.(present := 1)), Tick(i.(stateA := 1))] + seq(n, _ => Tick(i))
  }

  lemma MixedStep(c: Charge, i: Sense)
    requires Inv(c) && c.state == 1 && IsAbsent(i)
    ensures var d := Step(c, i);
            d.state == 1 && (c.substate == 1 && c.cntPresent < LIMIT - 1 ==>
                               d.substate == 1 && d.cntPresent == c.cntPresent + 1)
    ensures var d := Step(c, i.(present := 1));
            d.state == 1 && (c.substate == 0 && c.cntPresent == 0 ==> d.substate == 0 && d.cntPresent == 1)
    ensures var d := Step(c, i.(stateA := 1));
            d.state == 1 && d.substate == 1 && d.cntPresent == c.cntPresent
  {
  }

  lemma FirstStep(i: Sense)
    requires IsAbsent(i)
    ensures var d := Step(START, i); d.state == 1 && d.substate == 0 && d.cntPresent == 0
  {
  }

  /** The counter says that answers count after the step, so a force before stays on record. */
  lemma SwitchedGoesOn(acts: seq<Act>)
    requires acts != [] && acts[|acts| - 1].Tick? && Runs(acts[|acts| - 1].i)
    requires Run(acts).cntPresent != 0
    ensures var n := |acts| - 1; var c, i := Run(acts[..n]), acts[n].i;
            Switched(History(acts[..n])) || (Forced(i) && c.substate == 0) ==> Switched(History(acts))
  {
    var n := |acts| - 1;
    LastAct(acts);
    CounterIsAnswers(acts);
    OneMoreStep(History(acts[..n]), Moment(Run(acts[..n]), acts[n].i));
    hide Run, History, Switched, Answers, Transits, Apply;
  }

  lemma MixedStart(i: Sense)
    requires IsAbsent(i)
    ensures var acts := MixedRun(i, 0); var c := Run(acts);
            c.state == 1 && c.substate == 1 && c.cntPresent == 1 && Switched(History(acts))
  {
    FirstStep(i);
    assert Runs(i);
    hide Step, IsAbsent, Switched;
    var acts := MixedRun(i, 0);
    var one, two := acts[..1], acts[..2];
    assert acts[..3] == acts && two[..1] == one && one[..0] == [];
    LastAct(one);
    LastAct(two);
    LastAct(acts);
    InvAlways(one);
    InvAlways(two);
    MixedStep(Run(one), i);
    MixedStep(Run(two), i);
    SwitchedGoesOn(acts);
  }

  lemma {:induction false} MixedGoesOn(i: Sense, n: nat)
    requires IsAbsent(i) && n < LIMIT - 1
    ensures var acts := MixedRun(i, n); var c := Run(acts);
            c.state == 1 && c.substate == 1 && c.cntPresent == n + 1 && Switched(History(acts))
  {
    if n == 0 {
      MixedStart(i);
    } else {
      MixedGoesOn(i, n - 1);
      var acts, before := MixedRun(i, n), MixedRun(i, n - 1);
      assert acts[..n + 2] == before && acts[n + 2] == Tick(i);
      LastAct(acts);
      InvAlways(before);
      MixedStep(Run(before), i);
      assert Runs(i);
      hide Step, Run, History, Switched, MixedRun, IsAbsent;
      SwitchedGoesOn(acts);
    }
  }

  lemma MixedFlips(i: Sense)
    requires IsAbsent(i)
    ensures var acts := MixedRun(i, LIMIT - 2);
            Flips(Moment(Run(acts), i)) && Run(acts).substate == 1 && Switched(History(acts))
  {
    var acts := MixedRun(i, LIMIT - 2);
    MixedGoesOn(i, LIMIT - 2);
    InvAlways(acts);
    DebounceCounts(Run(acts), i);
    hide Run, History, Switched, Debounce, MixedRun;
  }

  /** After one answer for present and a forced step, 99 answers for absent already flip. */
  lemma MixedFlip()
    ensures var acts := MixedRun(ABSENT, LIMIT - 2);
            Flips(Moment(Run(acts), ABSENT)) && Run(acts).substate == 1 && Switched(History(acts))
  {
    AbsentIsAbsent();
    MixedFlips(ABSENT);
    hide IsAbsent, Flips, Switched, History, Run, MixedRun;
  }

  // ---------------------------------------------------------------- event flags

  /** The event state tells which flag it came with, and is zero only before the first event. */
  predicate EventsAgree(c: Charge) {
    && c.started <= 1 && c.second <= 1 && c.third <= 1
    && (c.eventState == 0 || c.eventState == 1 || c.eventState == 9 || c.eventState == 10)
    && (c.eventState == 1 || c.eventState == 9 ==> c.started == 1)
    && (c.eventState == 10 ==> c.third == 1)
    && (c.eventState == 0 ==> c.started == 0 && c.third == 0)
    && (c.third == 1 <==> c.eventWord == 0x30)
  }

  /** No flag falls, and a start that has been answered is never announced again. */
  predicate Latches(c: Charge, d: Charge) {
    && c.started <= d.started && c.second <= d.second && c.third <= d.third
    && (c.started == 1 && c.eventState != 1 ==> d.eventState != 1)
  }

  predicate Follows(c: Charge, d: Charge) {
    EventsAgree(c) ==> EventsAgree(d) && Latches(c, d)
  }

  /** Every event keeps this, and handling it twice is handling it once. */
  lemma EventLatches(c: Charge, code: int)
    ensures Follows(c, Event(c, code)) && Event(Event(c, code), code) == Event(c, code)
  {
  }

  lemma SelectFollows(c: Charge, profile: int, v: u16)
    ensures Follows(c, SelectSetpoint(c, profile, v))
  {
  }

  lemma DispatchFollows(c: Charge, to: u8, i: Sense)
    ensures Follows(c, Dispatch(c, to, i))
  {
    hide SelectSetpoint, Event;
    var d := Reset(c, to).(scaled := 0);
    EventLatches(d, 2);
    SelectFollows(Event(d, 2), i.profile, i.value);
  }

  lemma DebounceFollows(c: Charge, i: Sense)
    ensures Follows(c, Debounce(c, i))
  {
    hide Event, Dispatch;
    DispatchFollows(c, 1, i);
    EventLatches(Dispatch(c, 1, i), 4);
  }

  lemma SwitchFollows(c: Charge, i: Sense)
    ensures Follows(c, Switch(c, i))
  {
    DispatchFollows(c, 1, i);
    DispatchFollows(c, 2, i);
    Case1Follows(c, i);
    Case2Follows(c, i);
    Case5Follows(c, i);
    Case10Follows(c, i);
    hide Event, Dispatch, Case1, Case2, Case5, Case10;
  }

  lemma Case1Follows(c: Charge, i: Sense)
    ensures Follows(c, Case1(c, i))
  {
    hide Dispatch;
    DispatchFollows(c.(cntInit := Increment(c.cntInit)), 2, i);
  }

  lemma Case2Follows(c: Charge, i: Sense)
    ensures Follows(c, Case2(c, i))
  {
    hide Event, Dispatch;
    var code := if i.measC2 < VERSION_ID then 0x10 else 8;
    EventLatches(c, 4);
    EventLatches(c, code);
    DispatchFollows(Finalize(c), 3, i);
    DispatchFollows(Event(c, code), 5, i);
  }

  lemma Case10Follows(c: Charge, i: Sense)
    ensures Follows(c, Case10(c, i))
  {
    hide Event, Dispatch;
    EventLatches(c, 2);
    EventLatches(c.(cntFault := Increment(c.cntFault)), 4);
    DispatchFollows(c, 2, i);
  }

  lemma Case5Follows(c: Charge, i: Sense)
    ensures Follows(c, Case5(c, i))
  {
    hide Event, Dispatch;
    var d := c.(state := 2, complete := 0);
    DispatchFollows(c, 2, i);
    DispatchFollows(d, 2, i);
    EventLatches(c.(cntState := Increment(c.cntState)), 4);
    EventLatches(d.(cntState := Increment(c.cntState)), 4);
  }

  lemma StepFollows(c: Charge, i: Sense)
    ensures Follows(c, Step(c, i))
  {
    hide Event, Dispatch, Debounce, Switch;
    var b := Debounce(c, i);
    DebounceFollows(c, i);
    EventLatches(b, 4);
    DispatchFollows(Finalize(b), 10, i);
    DispatchFollows(Finalize(b), 1, i);
    SwitchFollows(AtSwitch(c, i), i);
  }

  lemma ApplyFollows(c: Charge, a: Act)
    ensures Follows(c, Apply(c, a))
  {
    hide Step;
    if a.Tick? {
      StepFollows(c, a.i);
    }
  }

  lemma {:induction false} EventsFollow(acts: seq<Act>)
    ensures EventsAgree(Run(acts))
  {
    if acts != [] {
      hide Apply, EventsAgree, Latches;
      var k := |acts| - 1;
      EventsFollow(acts[..k]);
      ApplyFollows(Run(acts[..k]), acts[k]);
    } else {
      StartAgrees(START);
      hide EventsAgree;
    }
  }

  lemma StartAgrees(c: Charge)
    requires c.started == 0 && c.second == 0 && c.third == 0 && c.eventState == 0 && c.eventWord == 0
    ensures EventsAgree(c)
  {
  }

  /** In every run flags only rise, each event state has its flag, and an answered start stays answered. */
  lemma {:induction false} FlagsLatch(acts: seq<Act>, n: nat)
    requires n <= |acts|
    ensures EventsAgree(Run(acts)) && Latches(Run(acts[..n]), Run(acts))
  {
    EventsFollow(acts);
    if n < |acts| {
      var k := |acts| - 1;
      assert acts[..k][..n] == acts[..n];
      FlagsLatch(acts[..k], n);
      ApplyFollows(Run(acts[..k]), acts[k]);
      hide Apply, EventsAgree;
    } else {
      assert acts[..n] == acts;
    }
  }

  // ---------------------------------------------------------------- selected setpoints

  /** The reading that a profile stands for; profile 2 takes the measured one. */
  function Reading(profile: int, v: u16): int {
    if profile == 0 then 35000 else if profile == 2 then v else if profile == 3 then 48000 else 55600
  }

  /**
   The stored primaries of the fixed profiles are the scaled values of three readings, so that every
   profile sets what a setpoint request for its reading would; a rejected reading keeps the last one.
   */
  lemma SelectedPrimary(c: Charge, profile: int, v: u16)
    requires 0 <= profile <= 4
    ensures var p := Primary(Reading(profile, v));
            SelectSetpoint(c, profile, v).primary == if p.Some? then p.value else c.primary
  {
  }

  lemma PrimaryMonotone(v: int, w: int)
    requires 0x4204 <= v <= w <= 0xD930
    ensures Primary(v).Some? && Primary(w).Some? && Primary(v).value <= Primary(w).value
  {
    PrimaryWindow(v);
    PrimaryWindow(w);
    hide Primary;
  }

  predicate InRange(primary: u16) {
    primary == 0 || 0x902 <= primary <= 0x1DA2
  }

  lemma PrimaryInRange(v: u16)
    ensures Primary(v).Some? ==> InRange(Primary(v).value)
  {
  }

  lemma SelectInRange(c: Charge, profile: int, v: u16)
    ensures InRange(c.primary) ==> InRange(SelectSetpoint(c, profile, v).primary)
  {
    PrimaryInRange(v);
    hide Primary;
  }

  lemma DispatchInRange(c: Charge, to: u8, i: Sense)
    ensures InRange(c.primary) ==> InRange(Dispatch(c, to, i).primary)
  {
    SelectInRange(Event(Reset(c, to).(scaled := 0), 2), i.profile, i.value);
    hide SelectSetpoint, InRange;
  }

  lemma SwitchInRange(c: Charge, i: Sense)
    ensures InRange(c.primary) ==> InRange(Switch(c, i).primary)
  {
    DispatchInRange(c, 1, i);
    DispatchInRange(c, 2, i);
    DispatchInRange(c.(cntInit := Increment(c.cntInit)), 2, i);
    DispatchInRange(Finalize(c), 3, i);
    DispatchInRange(Event(c, if i.measC2 < VERSION_ID then 0x10 else 8), 5, i);
    DispatchInRange(c.(state := 2, complete := 0), 2, i);
    hide Dispatch, InRange;
  }

  lemma StepInRange(c: Charge, i: Sense)
    ensures InRange(c.primary) ==> InRange(Step(c, i).primary)
  {
    DispatchInRange(c, 1, i);
    var b := Debounce(c, i);
    hide Dispatch, InRange, Switch;
    assert InRange(c.primary) ==> InRange(b.primary);
    hide Debounce;
    DispatchInRange(Finalize(b), 10, i);
    DispatchInRange(Finalize(b), 1, i);
    SwitchInRange(AtSwitch(c, i), i);
  }

  predicate IsReading(a: Act) {
    a.Request? ==> 0 <= a.v < 0x1_0000
  }

  /**
   In every run the primary setpoint is zero or the scaled value of a reading inside the window, unless
   other code has requested more than 16 bits hold.
   */
  lemma {:induction false} PrimaryBounded(acts: seq<Act>)
    ensures InRange(Run(acts).primary) || exists k :: 0 <= k < |acts| && !IsReading(acts[k])
  {
    if acts != [] {
      var n := |acts| - 1;
      PrimaryBounded(acts[..n]);
      if acts[n].Tick? {
        StepInRange(Run(acts[..n]), acts[n].i);
      } else if acts[n].Request? && IsReading(acts[n]) {
        PrimaryInRange(acts[n].v);
      }
      assert (exists k :: 0 <= k < n && !IsReading(acts[..n][k])) ==> exists k :: 0 <= k < n && !IsReading(acts[k]);
      hide Step, InRange, Primary;
    }
  }

  /**
   The raw setpoint of profile 2 falls as the reading rises, but only from 17767 on: the 867 accepted
   readings below leave the 16 bits.
   */
  lemma RawExactly(c: Charge, v: u16, w: u16)
    requires v <= w
    ensures var raw := SelectSetpoint(c, 2, v).raw;
            raw == 80110 - (105 * (v as int) + 127) / 128 <==> v >= 17767
    ensures 17767 <= v ==> SelectSetpoint(c, 2, w).raw <= SelectSetpoint(c, 2, v).raw
    ensures 0x4204 <= v < 17767 ==> SelectSetpoint(c, 2, v).raw < 712
  {
  }

  // ---------------------------------------------------------------- what state 1 drives

  datatype Setpoints = Setpoints(primary: u16, scaled: u16)

  const NONE: Setpoints := Setpoints(0, 0)

  /** The setpoints last requested since the dispatcher last ran into state 1. */
  function Asked(acts: seq<Act>): Setpoints {
    if acts == [] then NONE
    else
      var n := |acts| - 1;
      var c, before := Run(acts[..n]), Asked(acts[..n]);
      match acts[n]
      case Tick(i) => if c.state != 1 || (Runs(i) && ToAbsent(c, i)) then NONE else before
      case Request(v) => before.(primary := if Primary(v).Some? then Primary(v).value else before.primary)
      case RequestScaled(w) => before.(scaled := Scaled(w))
      case _ => before
  }

  lemma StepInOne(c: Charge, i: Sense)
    requires Inv(c) && Step(c, i).state == 1
    ensures var d := Step(c, i);
            if c.state != 1 || (Runs(i) && ToAbsent(c, i)) then d.primary == 0 && d.scaled == 0
            else d.primary == c.primary && d.scaled == c.scaled
  {
    var b, a := Debounce(c, i), AtSwitch(c, i);
    StepGoesTo(c, i);
    DebounceInOne(c, i);
    DebounceFacts(c, i);
    AtSwitchFacts(c, i);
    DispatchFacts(Finalize(b), 1, i);
    if !Runs(i) || GateFault(i) {
      assert Step(c, i).state == if Runs(i) then 10 else c.state;
    } else if a.state == 1 {
      SwitchInOne(a, i);
    } else if a.state == 0 {
      DispatchFacts(a, 1, i);
    }
    SwitchEdges(a, i);
    DispatchFacts(Finalize(b), 10, i);
    hide Debounce, Dispatch, HasFaultBits, Forced;
  }

  lemma DebounceInOne(c: Charge, i: Sense)
    requires Inv(c)
    ensures var d := Debounce(c, i);
            if ToAbsent(c, i) then d.primary == 0 && d.scaled == 0 && d.state == 1
            else d.primary == c.primary && d.scaled == c.scaled && d.state == c.state
  {
  }

  lemma SwitchInOne(c: Charge, i: Sense)
    requires c.state == 1 && Switch(c, i).state == 1
    ensures Switch(c, i).primary == c.primary && Switch(c, i).scaled == c.scaled
  {
  }

  /**
   In every run, what state 1 drives is what other code has asked for since it was entered; on its own it
   drives nothing.
   */
  lemma {:induction false} StateOneDrives(acts: seq<Act>)
    requires Run(acts).state == 1
    ensures Setpoints(Run(acts).primary, Run(acts).scaled) == Asked(acts)
  {
    if acts != [] {
      LastAct(acts);
      var n := |acts| - 1;
      var c, a := Run(acts[..n]), acts[n];
      InvAlways(acts[..n]);
      hide Run, Step, Primary, Scaled, ToAbsent, History;
      if a.Tick? {
        StepInOne(c, a.i);
      }
      if c.state == 1 {
        StateOneDrives(acts[..n]);
      }
    }
  }

  lemma {:induction false} UnaskedIsNone(acts: seq<Act>)
    requires forall k :: 0 <= k < |acts| ==> !acts[k].Request? && !acts[k].RequestScaled?
    ensures Asked(acts) == NONE
  {
    hide Run, ToAbsent;
    if acts != [] {
      UnaskedIsNone(acts[..|acts| - 1]);
    }
  }

  /** So without such requests it drives nothing. */
  lemma StateOneDrivesNothing(acts: seq<Act>)
    requires Run(acts).state == 1
    requires forall k :: 0 <= k < |acts| ==> !acts[k].Request? && !acts[k].RequestScaled?
    ensures Run(acts).primary == 0 && Run(acts).scaled == 0
  {
    hide Run, Asked;
    UnaskedIsNone(acts);
    StateOneDrives(acts);
  }
}
