/**
 What the steps of the charge state machine put out: the setpoints that come with a transition, and the
 events that announce starts, stops and charging.
 */
module ChargerOutputs {
  import opened Memory
  import opened Charger
  import opened ChargerRuns

  // ---------------------------------------------------------------- steps without an interruption

  /** No gate fault, no flip to absent, and no fault bits that the state does not see to itself. */
  predicate IsCalm(c: Charge, i: Sense) {
    Runs(i) && !GateFault(i) && !ToAbsent(c, i) && !(HasFaultBits(i.bits) && c.state != 1 && c.state != 10)
  }

  /** What such a step finds at the switch: only presence may have changed. */
  function Calm(c: Charge, i: Sense): Charge {
    c.(substate := Debounced(c, i), cntPresent := Debounce(c, i).cntPresent)
  }

  lemma CalmStep(c: Charge, i: Sense)
    requires Inv(c) && IsCalm(c, i)
    ensures Step(c, i) == Switch(Calm(c, i), i) && Inv(Calm(c, i))
  {
    CalmDebounce(c, i);
    DebounceFacts(c, i);
    hide Debounce, Switch, Dispatch, HasFaultBits, Forced, ToAbsent;
  }

  lemma CalmDebounce(c: Charge, i: Sense)
    requires Inv(c) && !ToAbsent(c, i)
    ensures Debounce(c, i) == Calm(c, i)
  {
    hide Dispatch;
  }

  // ---------------------------------------------------------------- setpoints

  /** What entering state 2 selects: the request for the profile's reading, or what was there before. */
  function Selected(before: u16, i: Sense): u16 {
    var p := Primary(Reading(i.profile, i.value));
    if 0 <= i.profile <= 4 && p.Some? then p.value else before
  }

  /** The raw setpoint of each profile. */
  function RawOf(before: u16, i: Sense): u16 {
    if i.profile == 0 then 57038
    else if i.profile == 1 || i.profile == 4 then 34323
    else if i.profile == 2 then (80110 - (105 * (i.value as int) + 127) / 128) % 65536
    else if i.profile == 3 then 40558
    else before
  }

  lemma DispatchReady(c: Charge, i: Sense)
    ensures var d := Dispatch(c, 2, i);
            && d.state == 2 && d.scaled == 0 && d.primary == Selected(c.primary, i) && d.raw == RawOf(c.raw, i)
            && d.started == (if c.started == 0 then 1 else c.started)
            && d.eventState == (if c.started == 0 then 1 else c.eventState)
            && d.second == c.second && d.third == c.third && d.eventWord == c.eventWord
            && d.complete == c.complete
  {
    var e := Event(Reset(c, 2).(scaled := 0), 2);
    SelectReady(e, i);
    hide SelectSetpoint;
  }

  lemma SelectReady(c: Charge, i: Sense)
    ensures var d := SelectSetpoint(c, i.profile, i.value);
            d == c.(raw := RawOf(c.raw, i), primary := Selected(c.primary, i))
  {
    if 0 <= i.profile <= 4 {
      SelectedPrimary(c, i.profile, i.value);
    }
    hide Primary;
  }

  /** The step comes to state 2 through the dispatcher: any way, except from 5 at the limit without a count. */
  predicate EntersReady(c: Charge, i: Sense) {
    c.state != 2 && Step(c, i).state == 2 && (c.state == 5 ==> RunsOut(c, i) && !(AtLimit(i) && i.measB5 != 0))
  }

  lemma EnteringIsCalm(c: Charge, i: Sense)
    requires Inv(c) && c.state != 2 && Step(c, i).state == 2
    ensures IsCalm(c, i) && Edge(Calm(c, i), i) == 2
  {
    StepGoesTo(c, i);
    hide Step, HasFaultBits, ToAbsent, Debounce;
  }

  lemma SwitchEnters(c: Charge, i: Sense)
    requires Inv(c) && c.state != 2 && Switch(c, i).state == 2
    requires c.state == 5 ==> RunsOut(c, i) && !(AtLimit(i) && i.measB5 != 0)
    ensures var d := Switch(c, i);
            && d.scaled == 0 && d.primary == Selected(c.primary, i) && d.raw == RawOf(c.raw, i)
            && d.started == (if c.started == 0 then 1 else c.started)
            && d.eventState == if c.started == 0 then 1 else c.eventState
  {
    SwitchEdges(c, i);
    DispatchReady(c, i);
    DispatchReady(c.(cntInit := Increment(c.cntInit)), i);
    DispatchReady(c.(state := 2, complete := 0), i);
    DispatchFacts(c, 1, i);
    hide Dispatch, Selected, RawOf;
  }

  /**
   Every step to state 2 through the dispatcher sets the setpoints that the selected profile stands for,
   clears the secondary one, and announces a start unless one has been announced.
   */
  lemma EntryDrives(c: Charge, i: Sense)
    requires Inv(c) && EntersReady(c, i)
    ensures var d := Step(c, i);
            && d.scaled == 0 && d.primary == Selected(c.primary, i) && d.raw == RawOf(c.raw, i)
            && d.started == (if c.started == 0 then 1 else c.started)
            && d.eventState == if c.started == 0 then 1 else c.eventState
  {
    EnteringIsCalm(c, i);
    CalmStep(c, i);
    SwitchEnters(Calm(c, i), i);
    hide Switch, Step, Selected, RawOf, Debounce, IsCalm;
  }

  /** And every other calm step leaves them alone, except on its way from state 0 to state 1. */
  lemma SwitchKeepsPrimary(c: Charge, i: Sense)
    requires Inv(c) && !(c.state != 2 && Switch(c, i).state == 2 &&
                         (c.state == 5 ==> RunsOut(c, i) && !(AtLimit(i) && i.measB5 != 0)))
    ensures Switch(c, i).primary == if c.state == 0 && Switch(c, i).state == 1 then 0 else c.primary
  {
    SwitchEdges(c, i);
    DispatchFacts(c, 1, i);
    DispatchKeepsPrimary(Finalize(c), 3, i);
    DispatchKeepsPrimary(Event(c, if i.measC2 < VERSION_ID then 0x10 else 8), 5, i);
    hide Dispatch;
  }

  lemma DispatchKeepsPrimary(c: Charge, to: u8, i: Sense)
    requires to != 1 && to != 2
    ensures Dispatch(c, to, i).primary == c.primary && Dispatch(c, to, i).scaled == c.scaled
  {
  }

  lemma ActiveStep(c: Charge, i: Sense)
    requires Inv(c) && (Step(c, i).state == 2 || Step(c, i).state == 5)
    ensures EntersReady(c, i) || ((c.state == 2 || c.state == 5) && Step(c, i).primary == c.primary)
  {
    StepGoesTo(c, i);
    if Runs(i) {
      ActiveIsCalm(c, i);
      CalmStep(c, i);
      if !EntersReady(c, i) {
        SwitchKeepsPrimary(Calm(c, i), i);
      }
    }
    hide Switch, Debounce, HasFaultBits, ToAbsent, Forced;
  }

  lemma ActiveIsCalm(c: Charge, i: Sense)
    requires Inv(c) && Runs(i) && (Step(c, i).state == 2 || Step(c, i).state == 5)
    ensures IsCalm(c, i)
  {
    StepGoesTo(c, i);
    hide Step, HasFaultBits, ToAbsent, Debounce;
  }

  /** The primary setpoint selected when state 2 was last entered, or last requested since. */
  function Chosen(acts: seq<Act>): u16 {
    if acts == [] then 0
    else
      var n := |acts| - 1;
      var c, before := Run(acts[..n]), Chosen(acts[..n]);
      match acts[n]
      case Tick(i) => if EntersReady(c, i) then Selected(c.primary, i) else before
      case Request(v) => if Primary(v).Some? then Primary(v).value else before
      case _ => before
  }

  /** In every run, that is what drives the output in states 2 and 5. */
  lemma {:induction false} ReadyDrives(acts: seq<Act>)
    requires Run(acts).state == 2 || Run(acts).state == 5
    ensures Run(acts).primary == Chosen(acts)
  {
    if acts != [] {
      LastAct(acts);
      var n := |acts| - 1;
      var c, a := Run(acts[..n]), acts[n];
      InvAlways(acts[..n]);
      hide Run, Step, Primary, Scaled, History, EntersReady, Selected;
      if a.Tick? {
        ActiveStep(c, a.i);
        if EntersReady(c, a.i) {
          EntryDrives(c, a.i);
        }
      }
      if c.state == 2 || c.state == 5 {
        ReadyDrives(acts[..n]);
      }
    }
  }

  // ---------------------------------------------------------------- events

  /** Every stop answers a start that has been announced: gate fault, fault bits, absence, no measurement. */
  lemma StopsAnswer(c: Charge, i: Sense)
    requires Inv(c) && Runs(i) && c.started == 1
    requires !IsCalm(c, i) || (c.state == 2 && i.meas2 == 0)
    ensures Step(c, i).eventState == 9 && Step(c, i).started == 1
  {
    if IsCalm(c, i) {
      CalmStep(c, i);
      hide Debounce;
    } else {
      DebounceStarted(c, i);
      DebounceFlips(c, i);
      DebounceFacts(c, i);
      InterruptedStep(c, i);
    }
  }

  lemma DebounceStarted(c: Charge, i: Sense)
    requires c.started == 1
    ensures var d := Debounce(c, i);
            d.started == 1 && (ToAbsent(c, i) ==> d.eventState == 9 && d.state == 1 && d.cntState == 0)
  {
  }

  lemma InterruptedStep(c: Charge, i: Sense)
    requires Inv(c) && Runs(i) && !IsCalm(c, i) && Debounce(c, i).started == 1
    requires var b := Debounce(c, i); ToAbsent(c, i) ==> b.eventState == 9 && b.state == 1 && b.cntState == 0
    requires !ToAbsent(c, i) ==> Debounce(c, i).state == c.state
    ensures Step(c, i).eventState == 9 && Step(c, i).started == 1
  {
    hide Debounce, HasFaultBits, ToAbsent, Forced;
  }

  /** Charging is announced by the second flag, or below the version's measurement by the third and its word. */
  lemma ChargingAnnounced(c: Charge, i: Sense)
    requires Inv(c) && c.state == 2 && Step(c, i).state == 5
    ensures var d := Step(c, i);
            if i.measC2 < 4366 then d.third == 1 && d.eventState == 10 && d.eventWord == 48 && d.second == c.second
            else
              && d.second == (if c.second == 0 then 1 else c.second)
              && d.eventState == c.eventState && d.third == c.third
  {
    StepGoesTo(c, i);
    assert IsCalm(c, i) by {
      hide Step, Edge, Debounce;
    }
    CalmStep(c, i);
    hide Debounce, Step;
  }

  /** A step from 5 to 2 takes the completion mark back. */
  lemma CompletionTakenBack(c: Charge, i: Sense)
    requires Inv(c) && c.state == 5 && Step(c, i).state == 2
    ensures Step(c, i).complete == 0
  {
    EnteringIsCalm(c, i);
    CalmStep(c, i);
    hide Debounce, Step, Dispatch;
  }

  /** While charging goes on, the event state changes only when the count comes to 10, which answers the start. */
  lemma TenthCountAnswers(c: Charge, i: Sense)
    requires Inv(c) && c.state == 5 && Step(c, i).state == 5 && Runs(i)
    ensures var d := Step(c, i); var counts := i.measB5 == 0 || c.complete == 1;
            && d.cntState == (if counts then c.cntState + 1 else c.cntState)
            && d.eventState == if counts && d.cntState == 10 && c.started == 1 then 9 else c.eventState
  {
    ActiveIsCalm(c, i);
    CalmStep(c, i);
    hide Debounce, Step;
    CountInFive(Calm(c, i), i);
  }

  lemma CountInFive(c: Charge, i: Sense)
    requires Inv(c) && c.state == 5 && Switch(c, i).state == 5
    ensures var d := Switch(c, i); var counts := i.measB5 == 0 || c.complete == 1;
            && d.cntState == (if counts then c.cntState + 1 else c.cntState)
            && d.eventState == if counts && d.cntState == 10 && c.started == 1 then 9 else c.eventState
  {
    SwitchEdges(c, i);
    DispatchFacts(c, 2, i);
    hide Dispatch;
  }

  /**
   After a gate fault, the first clearance answers the start; without clearance the count of 100 announces
   one; nothing else touches the event state.
   */
  lemma FaultEvents(c: Charge, i: Sense)
    requires Inv(c) && c.state == 10 && Step(c, i).state == 10 && IsCalm(c, i)
    ensures var d := Step(c, i);
            && d.eventState == (if Clears(c, i) then (if c.cntFault == 0 && c.started == 1 then 9 else c.eventState)
                                else if c.cntState == LIMIT && c.started == 0 then 1 else c.eventState)
            && d.started == if !Clears(c, i) && c.cntState == LIMIT && c.started == 0 then 1 else c.started
  {
    CalmStep(c, i);
    hide Debounce, Step;
    FaultEventsAtSwitch(Calm(c, i), i);
  }

  lemma FaultEventsAtSwitch(c: Charge, i: Sense)
    requires Inv(c) && c.state == 10 && Switch(c, i).state == 10
    ensures var d := Switch(c, i);
            && d.eventState == (if Clears(c, i) then (if c.cntFault == 0 && c.started == 1 then 9 else c.eventState)
                                else if c.cntState == LIMIT && c.started == 0 then 1 else c.eventState)
            && d.started == if !Clears(c, i) && c.cntState == LIMIT && c.started == 0 then 1 else c.started
  {
    DispatchFacts(c, 2, i);
    hide Dispatch;
  }

  // ---------------------------------------------------------------- the remaining counters

  /** State 1 counts its running steps since it was entered; coming from state 0 it starts with the next. */
  lemma WaitingTime(c: Charge, i: Sense)
    requires Inv(c) && Runs(i) && Step(c, i).state == 1
    ensures Step(c, i).cntInit ==
              if c.state == 0 && IsCalm(c, i) then 0
              else ((if c.state == 1 && !ToAbsent(c, i) then c.cntInit as int else 0) + 1) % 0x1_0000_0000
  {
    StepGoesTo(c, i);
    DebounceTime(c, i);
    DebounceFlips(c, i);
    DebounceFacts(c, i);
    AtSwitchFacts(c, i);
    DispatchTime(Finalize(Debounce(c, i)), i);
    DispatchFacts(Finalize(Debounce(c, i)), 1, i);
    hide Debounce, Dispatch, Switch, HasFaultBits, ToAbsent, Forced;
    assert !GateFault(i);
    TimeAtSwitch(AtSwitch(c, i), i);
  }

  lemma DispatchTime(c: Charge, i: Sense)
    ensures Dispatch(c, 1, i).cntInit == 0
  {
  }

  lemma DebounceTime(c: Charge, i: Sense)
    ensures Debounce(c, i).cntInit == if ToAbsent(c, i) then 0 else c.cntInit
  {
  }

  lemma TimeAtSwitch(c: Charge, i: Sense)
    requires Inv(c) && Switch(c, i).state == 1
    ensures c.state == 0 || c.state == 1
    ensures Switch(c, i).cntInit == if c.state == 1 then Increment(c.cntInit) else 0
  {
    SwitchEdges(c, i);
    DispatchTime(c, i);
    DispatchFacts(c.(cntInit := Increment(c.cntInit)), 2, i);
    hide Dispatch;
  }

  /** After the wait, state 2 marks that the query has once failed, and does nothing else while it fails. */
  lemma QueryFailureMarked(c: Charge, i: Sense)
    requires Inv(c) && c.state == 2 && IsCalm(c, i) && i.meas2 != 0
    ensures c.cntState == LIMIT && i.query2 == 0 ==>
              Step(c, i) == Calm(c, i).(subFlag := if c.subFlag == 0 then 1 else c.subFlag)
  {
    CalmStep(c, i);
    hide Debounce, Step;
  }
}
