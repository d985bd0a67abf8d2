/**
 The bridge's session scheduler: one circular list a priority level, a watermark at or above the
 highest occupied level, and the session that runs now. Completions file a waiting session under its
 priority; an advance picks the next session of the highest occupied level in turn. The receive,
 transmit and advance routines reach the table, the watermark, the lock, the wake flag and the current
 session through names of their own, but these name the same words.
 */
module Scheduler {
  import opened Memory
  import opened ReadyTable

  const WAITING: u8 := 1
  const DONE: u8 := 2

  /**
   `linked` says that a session's second list node sits in a list; only the overflow list uses it.
   Sessions are numbered; their priorities never change.
   */
  datatype Sched = Sched(state: seq<u8>, linked: seq<bool>, table: seq<Cycle>, overflow: seq<nat>,
                         watermark: nat, current: nat, locked: bool, wake: bool)

  predicate IsSched(prio: seq<nat>, s: Sched) {
    && |s.state| == |s.linked| == |prio|
    && (forall x :: 0 <= x < |prio| ==> prio[x] < |s.table|)
    && (forall l :: 0 <= l < |s.table| ==> s.table[l].at <= |s.table[l].items|)
    && (forall i :: 0 <= i < |s.overflow| ==> s.overflow[i] < |prio|)
    && s.watermark < |s.table| && s.current < |prio|
  }

  /** `stuck` is a failed assertion: interrupts masked, spinning for ever. */
  datatype Reply = Reply(s: Sched, stuck: bool, woke: bool)

  /** Unlink the session's node from wherever it is and put it last on its level. */
  function File(prio: seq<nat>, s: Sched, x: nat): (s': Sched)
    requires IsSched(prio, s) && x < |prio|
    ensures IsSched(prio, s')
  {
    var l := prio[x];
    s.(table := s.table[l := InsertEnd(Remove(s.table[l], x), x)],
       watermark := if l > s.watermark then l else s.watermark)
  }

  function RxDone(prio: seq<nat>, s: Sched, x: nat): (r: Reply)
    requires IsSched(prio, s) && x < |prio|
    ensures IsSched(prio, r.s)
  {
    var s1 := s.(state := s.state[x := DONE]);
    if s.state[x] != WAITING then Reply(s1, false, false)
    else if s.linked[x] then Reply(s1, true, false)
    else
      var s2 := if !s.locked then File(prio, s1, x)
                else s1.(overflow := s.overflow + [x], linked := s.linked[x := true]);
      var outranks := prio[x] > prio[s.current];
      Reply(s2.(wake := s.wake || outranks), false, outranks)
  }

  function TxDone(prio: seq<nat>, s: Sched, x: nat): (r: Reply)
    requires IsSched(prio, s) && x < |prio|
    ensures IsSched(prio, r.s)
  {
    var s1 := s.(state := s.state[x := DONE]);
    if s.state[x] != WAITING then Reply(s1, false, false)
    else
      var s2 := File(prio, s1, x);
      if s.linked[x] then Reply(s2, true, false) else Reply(s2, false, prio[x] > prio[s.current])
  }

  /** The highest occupied level at or below `l`. */
  function Highest(table: seq<Cycle>, l: nat): (h: Option<nat>)
    requires l < |table|
    ensures h.Some? ==> h.value <= l && table[h.value].items != []
    ensures forall k :: (if h.Some? then h.value else -1) < k <= l ==> table[k].items == []
  {
    if table[l].items != [] then Some(l) else if l == 0 then None else Highest(table, l - 1)
  }

  function Pick(prio: seq<nat>, s: Sched): (r: Reply)
    requires IsSched(prio, s)
  {
    if s.locked then Reply(s.(wake := true), false, false)
    else
      match Highest(s.table, s.watermark)
      case None => Reply(s.(wake := false), true, false)
      case Some(l) =>
        var ring := Rotate(s.table[l]);
        Reply(s.(wake := false, table := s.table[l := ring], current := Selected(ring), watermark := l), false, false)
  }

  class Bridge {
    const prio: seq<nat>
    const state: array<u8>
    const linked: array<bool>
    const table: array<Cycle>
    var overflow: seq<nat>
    var watermark: nat
    var current: nat
    var locked: bool
    var wake: bool

    ghost function View(): Sched
      reads this, state, linked, table
    {
      Sched(state[..], linked[..], table[..], overflow, watermark, current, locked, wake)
    }

    ghost predicate Valid()
      reads this, state, linked, table
    {
      IsSched(prio, View())
    }

    constructor (prio: seq<nat>, levels: nat, running: nat)
      requires running < |prio| && forall x :: 0 <= x < |prio| ==> prio[x] < levels
      ensures Valid() && this.prio == prio
      ensures forall x :: 0 <= x < |prio| ==> state[x] == 0 && !linked[x]
      ensures forall l :: 0 <= l < table.Length ==> table[l] == EMPTY
      ensures overflow == [] && current == running && !locked && !wake
    {
      this.prio := prio;
      state := new u8[|prio|](_ => 0);
      linked := new bool[|prio|](_ => false);
      table := new Cycle[levels](_ => EMPTY);
      overflow, watermark, current, locked, wake := [], 0, running, false, false;
      new;
      assert prio[running] < levels;
    }

    method FileSession(x: nat)
      requires Valid() && x < |prio|
      modifies this`watermark, table
      ensures Valid() && View() == File(prio, old(View()), x)
    {
      var l := prio[x];
      var ring := Remove(table[l], x);
      if l > watermark {
        watermark := l;
      }
      table[l] := InsertEnd(ring, x);
      assert table[..] == old(table[..])[l := table[l]];
    }

    method Defer(x: nat)
      requires Valid() && x < |prio|
      modifies this`overflow, linked
      ensures Valid()
      ensures View() == old(View()).(overflow := old(overflow) + [x], linked := old(linked[..])[x := true])
    {
      overflow := overflow + [x];
      linked[x] := true;
      assert linked[..] == old(linked[..])[x := true];
    }

    method RxComplete(x: nat) returns (stuck: bool, woke: bool)
      requires Valid() && x < |prio|
      modifies this, state, linked, table
      ensures Valid() && Reply(View(), stuck, woke) == RxDone(prio, old(View()), x)
    {
      hide File;
      var prev := state[x];
      state[x] := DONE;
      assert state[..] == old(state[..])[x := DONE];
      woke := false;
      if prev == WAITING {
        if linked[x] {
          return true, false;
        }
        if !locked {
          FileSession(x);
        } else {
          Defer(x);
        }
        if prio[x] > prio[current] {
          woke := true;
          wake := true;
        }
      }
      return false, woke;
    }

    method TxComplete(x: nat) returns (stuck: bool, yielded: bool)
      requires Valid() && x < |prio|
      modifies this, state, table
      ensures Valid() && Reply(View(), stuck, yielded) == TxDone(prio, old(View()), x)
    {
      var prev := state[x];
      state[x] := DONE;
      assert state[..] == old(state[..])[x := DONE];
      yielded := false;
      if prev == WAITING {
        FileSession(x);
        if linked[x] {
          return true, false;
        }
        yielded := prio[x] > prio[current];
      }
      return false, yielded;
    }

    method TableAdvance() returns (stuck: bool)
      requires Valid()
      modifies this, table
      ensures Reply(View(), stuck, false) == Pick(prio, old(View()))
    {
      if locked {
        wake := true;
        return false;
      }
      wake := false;
      var idx := watermark;
      while table[idx].items == []
        invariant 0 <= idx <= watermark < table.Length
        invariant Highest(table[..], watermark) == Highest(table[..], idx)
        decreases idx
      {
        if idx == 0 {
          return true;
        }
        idx := idx - 1;
      }
      table[idx] := Rotate(table[idx]);
      current := Selected(table[idx]);
      watermark := idx;
      assert table[..] == old(table[..])[idx := table[idx]];
      return false;
    }
  }

  // ---------------------------------------------------------------- the invariant

  predicate IsLevel(prio: seq<nat>, r: Cycle, l: nat) {
    IsCycle(r) && forall i :: 0 <= i < |r.items| ==> r.items[i] < |prio| && prio[r.items[i]] == l
  }

  ghost predicate OverflowMatches(overflow: seq<nat>, linked: seq<bool>) {
    && (forall i, j :: 0 <= i < j < |overflow| ==> overflow[i] != overflow[j])
    && (forall x: nat :: x in overflow <==> x < |linked| && linked[x])
  }

  /**
   Nothing above the watermark; every filed session sits once, on its own level; a session is on the
   overflow list exactly when its second node is linked, and once.
   */
  ghost predicate Inv(prio: seq<nat>, s: Sched) {
    && IsSched(prio, s)
    && (forall l :: s.watermark < l < |s.table| ==> s.table[l].items == [])
    && (forall l :: 0 <= l < |s.table| ==> IsLevel(prio, s.table[l], l))
    && OverflowMatches(s.overflow, s.linked)
  }

  predicate Filed(prio: seq<nat>, s: Sched, x: nat)
    requires IsSched(prio, s) && x < |prio|
  {
    x in s.table[prio[x]].items
  }

  /** No filed session outranks the running one. */
  predicate Top(prio: seq<nat>, s: Sched)
    requires IsSched(prio, s)
  {
    forall l :: prio[s.current] < l < |s.table| ==> s.table[l].items == []
  }

  lemma RemovedLevel(prio: seq<nat>, r: Cycle, l: nat, x: nat)
    requires IsLevel(prio, r, l)
    ensures IsLevel(prio, Remove(r, x), l) && x !in Remove(r, x).items
  {
  }

  lemma InsertedLevel(prio: seq<nat>, r: Cycle, l: nat, x: nat)
    requires IsLevel(prio, r, l) && x !in r.items && x < |prio| && prio[x] == l
    ensures IsLevel(prio, InsertEnd(r, x), l) && x in InsertEnd(r, x).items
  {
  }

  lemma FileKeepsInv(prio: seq<nat>, s: Sched, x: nat)
    requires Inv(prio, s) && x < |prio|
    ensures Inv(prio, File(prio, s, x)) && Filed(prio, File(prio, s, x), x)
  {
    hide InsertEnd, Remove;
    RemovedLevel(prio, s.table[prio[x]], prio[x], x);
    InsertedLevel(prio, Remove(s.table[prio[x]], x), prio[x], x);
  }

  lemma PickKeepsInv(prio: seq<nat>, s: Sched)
    requires Inv(prio, s)
    ensures Inv(prio, Pick(prio, s).s)
  {
  }

  // ---------------------------------------------------------------- runs

  /**
   The routines above, and what the kernel does around them: a running session starts to wait for a
   completion, which takes it off the ready table; the scheduler lock changes hands; and outside the lock
   the first session of the overflow list is unlinked and filed. Whether a drain asks for a wake is the
   kernel's affair.
   */
  datatype Op = Rx(x: nat) | Tx(x: nat) | Advance | Park(x: nat) | Lock(on: bool) | Drain(asks: bool)

  predicate IsOp(prio: seq<nat>, op: Op) {
    (op.Rx? || op.Tx? || op.Park?) ==> op.x < |prio|
  }

  function ParkSession(prio: seq<nat>, s: Sched, x: nat): (s': Sched)
    requires IsSched(prio, s) && x < |prio|
    ensures IsSched(prio, s')
  {
    s.(state := s.state[x := WAITING], table := s.table[prio[x] := Remove(s.table[prio[x]], x)])
  }

  predicate Drains(s: Sched) {
    !s.locked && s.overflow != []
  }

  function DrainSession(prio: seq<nat>, s: Sched, asks: bool): (s': Sched)
    requires IsSched(prio, s)
    ensures IsSched(prio, s')
  {
    if !Drains(s) then s
    else
      var x := s.overflow[0];
      File(prio, s.(overflow := s.overflow[1..], linked := s.linked[x := false], wake := s.wake || asks), x)
  }

  /** One step; a stuck bridge makes no more. */
  function Act(prio: seq<nat>, r: Reply, op: Op): Reply
    requires IsSched(prio, r.s) && IsOp(prio, op)
  {
    if r.stuck then r
    else
      match op
      case Rx(x) => RxDone(prio, r.s, x)
      case Tx(x) => TxDone(prio, r.s, x)
      case Advance => Pick(prio, r.s)
      case Park(x) => Reply(ParkSession(prio, r.s, x), false, false)
      case Lock(on) => Reply(r.s.(locked := on), false, false)
      case Drain(asks) => Reply(DrainSession(prio, r.s, asks), false, asks)
  }

  lemma {:induction false} ActKeepsInv(prio: seq<nat>, r: Reply, op: Op)
    requires Inv(prio, r.s) && IsOp(prio, op)
    ensures Inv(prio, Act(prio, r, op).s)
  {
    if !r.stuck {
      match op
      case Rx(x) => CompletionKeepsInv(prio, r.s, x);
      case Tx(x) => CompletionKeepsInv(prio, r.s, x);
      case Advance => PickKeepsInv(prio, r.s);
      case Park(x) => ParkKeepsInv(prio, r.s, x);
      case Lock(on) =>
      case Drain(asks) => DrainKeepsInv(prio, r.s, asks);
    }
  }

  lemma OverflowShrinks(overflow: seq<nat>, linked: seq<bool>)
    requires OverflowMatches(overflow, linked) && overflow != []
    ensures overflow[0] < |linked| && OverflowMatches(overflow[1..], linked[overflow[0] := false])
  {
    var x, rest := overflow[0], overflow[1..];
    assert x in overflow && x !in rest;
    forall y: nat
      ensures y in rest <==> y < |linked| && linked[x := false][y]
    {
      assert y in overflow <==> y == x || y in rest;
    }
  }

  lemma DrainKeepsInv(prio: seq<nat>, s: Sched, asks: bool)
    requires Inv(prio, s)
    ensures Inv(prio, DrainSession(prio, s, asks))
  {
    if Drains(s) {
      OverflowShrinks(s.overflow, s.linked);
      hide OverflowMatches, IsLevel, File;
      var x := s.overflow[0];
      FileKeepsInv(prio, s.(overflow := s.overflow[1..], linked := s.linked[x := false], wake := s.wake || asks), x);
    }
  }

  lemma OverflowGrows(overflow: seq<nat>, linked: seq<bool>, x: nat)
    requires OverflowMatches(overflow, linked) && x < |linked| && !linked[x]
    ensures OverflowMatches(overflow + [x], linked[x := true])
  {
  }

  lemma CompletionKeepsInv(prio: seq<nat>, s: Sched, x: nat)
    requires Inv(prio, s) && x < |prio|
    ensures Inv(prio, RxDone(prio, s, x).s) && Inv(prio, TxDone(prio, s, x).s)
  {
    hide File, OverflowMatches, IsLevel;
    FileKeepsInv(prio, s.(state := s.state[x := DONE]), x);
    if !s.linked[x] {
      OverflowGrows(s.overflow, s.linked, x);
    }
  }

  lemma ParkKeepsInv(prio: seq<nat>, s: Sched, x: nat)
    requires Inv(prio, s) && x < |prio|
    ensures Inv(prio, ParkSession(prio, s, x)) && !Filed(prio, ParkSession(prio, s, x), x)
  {
  }

  predicate AreOps(prio: seq<nat>, ops: seq<Op>) {
    forall i :: 0 <= i < |ops| ==> IsOp(prio, ops[i])
  }

  ghost function Run(prio: seq<nat>, s: Sched, ops: seq<Op>): (r: Reply)
    requires Inv(prio, s) && AreOps(prio, ops)
    ensures Inv(prio, r.s)
  {
    if ops == [] then Reply(s, false, false)
    else
      var n := |ops| - 1;
      var before := Run(prio, s, ops[..n]);
      ActKeepsInv(prio, before, ops[n]);
      Act(prio, before, ops[n])
  }

  /** How often a run put session `x` on a list, and how often it made it wait. */
  ghost function Filings(prio: seq<nat>, s: Sched, ops: seq<Op>, x: nat): nat
    requires Inv(prio, s) && AreOps(prio, ops) && x < |prio|
  {
    if ops == [] then 0
    else
      var n := |ops| - 1;
      var before := Run(prio, s, ops[..n]);
      var completes := (ops[n] == Rx(x) && !before.s.linked[x]) || ops[n] == Tx(x);
      Filings(prio, s, ops[..n], x)
        + if !before.stuck && completes && before.s.state[x] == WAITING then 1 else 0
  }

  ghost function Parks(ops: seq<Op>, x: nat): nat {
    if ops == [] then 0 else var n := |ops| - 1; Parks(ops[..n], x) + if ops[n] == Park(x) then 1 else 0
  }

  /** At most one filing for each time the session started to wait. */
  lemma {:induction false} FiledOncePerWait(prio: seq<nat>, s: Sched, ops: seq<Op>, x: nat)
    requires Inv(prio, s) && AreOps(prio, ops) && x < |prio|
    ensures Filings(prio, s, ops, x) + (if Run(prio, s, ops).s.state[x] == WAITING then 1 else 0)
              <= Parks(ops, x) + if s.state[x] == WAITING then 1 else 0
  {
    if ops != [] {
      var n := |ops| - 1;
      FiledOncePerWait(prio, s, ops[..n], x);
      StateChange(prio, Run(prio, s, ops[..n]), ops[n], x);
    }
  }

  /** Only a session's own park and completions touch its state byte. */
  lemma StateChange(prio: seq<nat>, r: Reply, op: Op, x: nat)
    requires Inv(prio, r.s) && IsOp(prio, op) && x < |prio|
    ensures Inv(prio, Act(prio, r, op).s)
    ensures Act(prio, r, op).s.state[x] ==
              if r.stuck then r.s.state[x]
              else if op == Park(x) then WAITING
              else if op == Rx(x) || op == Tx(x) then DONE
              else r.s.state[x]
  {
    ActKeepsInv(prio, r, op);
  }

  /** And the filing that counts is a real one: afterwards the session is on its list. */
  lemma CompletionFiles(prio: seq<nat>, s: Sched, x: nat)
    requires Inv(prio, s) && x < |prio| && s.state[x] == 1
    ensures RxDone(prio, s, x).s.state[x] == 2 && TxDone(prio, s, x).s.state[x] == 2
    ensures TxDone(prio, s, x).s.watermark == if prio[x] > s.watermark then prio[x] else s.watermark
    ensures var r := RxDone(prio, s, x);
            !r.stuck ==> if s.locked then x in r.s.overflow && r.s.table == s.table else Filed(prio, r.s, x)
    ensures Filed(prio, TxDone(prio, s, x).s, x)
    ensures RxDone(prio, s, x).stuck <==> x in s.overflow
    ensures TxDone(prio, s, x).stuck <==> x in s.overflow
  {
  }

  lemma DoneCompletion(prio: seq<nat>, s: Sched, x: nat)
    requires IsSched(prio, s) && x < |prio| && s.state[x] == DONE
    ensures RxDone(prio, s, x) == TxDone(prio, s, x) == Reply(s, false, false)
  {
  }

  /**
   Once a session has completed, and whatever else happens until it waits again, every further completion
   of either kind changes nothing and asks for nothing.
   */
  lemma RepeatedCompletion(prio: seq<nat>, s: Sched, ops: seq<Op>, x: nat)
    requires Inv(prio, s) && AreOps(prio, ops) && x < |prio|
    requires ops != [] && (ops[0] == Rx(x) || ops[0] == Tx(x)) && Park(x) !in ops
    ensures var e := Run(prio, s, ops).s;
            RxDone(prio, e, x) == TxDone(prio, e, x) == Reply(e, false, false)
  {
    StaysDone(prio, s, ops, x);
    DoneCompletion(prio, Run(prio, s, ops).s, x);
  }

  lemma {:induction false} StaysDone(prio: seq<nat>, s: Sched, ops: seq<Op>, x: nat)
    requires Inv(prio, s) && AreOps(prio, ops) && x < |prio|
    requires ops != [] && (ops[0] == Rx(x) || ops[0] == Tx(x)) && Park(x) !in ops
    ensures Run(prio, s, ops).s.state[x] == 2
  {
    var n := |ops| - 1;
    var before := Run(prio, s, ops[..n]);
    StateChange(prio, before, ops[n], x);
    hide Act;
    if n > 0 {
      StaysDone(prio, s, ops[..n], x);
    } else {
      assert ops[..n] == [] && before == Reply(s, false, false);
    }
  }

  /** How often a run put session `x` on the overflow list, and how often it took it off. */
  ghost function Deferrals(prio: seq<nat>, s: Sched, ops: seq<Op>, x: nat): nat
    requires Inv(prio, s) && AreOps(prio, ops) && x < |prio|
  {
    if ops == [] then 0
    else
      var n := |ops| - 1;
      var r := Run(prio, s, ops[..n]);
      var defers := ops[n] == Rx(x) && r.s.state[x] == WAITING && r.s.locked && !r.s.linked[x];
      Deferrals(prio, s, ops[..n], x) + if !r.stuck && defers then 1 else 0
  }

  ghost function Drainings(prio: seq<nat>, s: Sched, ops: seq<Op>, x: nat): nat
    requires Inv(prio, s) && AreOps(prio, ops) && x < |prio|
  {
    if ops == [] then 0
    else
      var n := |ops| - 1;
      var r := Run(prio, s, ops[..n]);
      var drains := ops[n].Drain? && Drains(r.s) && r.s.overflow[0] == x;
      Drainings(prio, s, ops[..n], x) + if !r.stuck && drains then 1 else 0
  }

  lemma LinkChange(prio: seq<nat>, r: Reply, op: Op, x: nat)
    requires Inv(prio, r.s) && IsOp(prio, op) && x < |prio|
    ensures Act(prio, r, op).s.linked[x] ==
              if r.stuck then r.s.linked[x]
              else if op == Rx(x) then r.s.linked[x] || (r.s.state[x] == WAITING && r.s.locked)
              else if op.Drain? && Drains(r.s) && r.s.overflow[0] == x then false
              else r.s.linked[x]
    ensures op.Drain? && Drains(r.s) && r.s.overflow[0] == x ==> r.s.linked[x]
  {
    assert Drains(r.s) ==> r.s.overflow[0] in r.s.overflow;
  }

  /** Nobody is lost on the overflow list: each deferral is drained once, or the session is still there. */
  lemma {:induction false} OverflowConserved(prio: seq<nat>, s: Sched, ops: seq<Op>, x: nat)
    requires Inv(prio, s) && AreOps(prio, ops) && x < |prio|
    ensures Drainings(prio, s, ops, x) + (if x in Run(prio, s, ops).s.overflow then 1 else 0)
              == Deferrals(prio, s, ops, x) + if x in s.overflow then 1 else 0
  {
    if ops != [] {
      var n := |ops| - 1;
      OverflowConserved(prio, s, ops[..n], x);
      var r := Run(prio, s, ops[..n]);
      LinkChange(prio, r, ops[n], x);
      ActKeepsInv(prio, r, ops[n]);
      hide Act, Highest, IsLevel, File;
    }
  }

  /** And a drained session is filed on its level. */
  lemma DrainFiles(prio: seq<nat>, s: Sched, asks: bool)
    requires Inv(prio, s) && Drains(s)
    ensures var s' := DrainSession(prio, s, asks);
            Filed(prio, s', s.overflow[0]) && s.overflow[0] !in s'.overflow && s'.overflow == s.overflow[1..]
  {
  }

  /**
   A completion outside the lock either leaves the running session on top or asks for a switch, and
   asks only when the session it filed really outranks the running one.
   */
  lemma CompletionKeepsTopOrAsks(prio: seq<nat>, s: Sched, x: nat)
    requires Inv(prio, s) && x < |prio| && !s.locked && Top(prio, s)
    ensures var r := RxDone(prio, s, x);
            !r.stuck ==> (Top(prio, r.s) <==> !r.woke) && (r.woke ==> r.s.wake)
    ensures var r := TxDone(prio, s, x);
            !r.stuck ==> (Top(prio, r.s) <==> !r.woke)
  {
    var s1 := s.(state := s.state[x := DONE]);
    if s.state[x] == WAITING {
      FileKeepsInv(prio, s1, x);
      var f := File(prio, s1, x);
      assert f.table[prio[x]].items != [];
      assert forall l :: 0 <= l < |f.table| && l != prio[x] ==> f.table[l] == s.table[l];
    }
  }

  /** An unlocked advance picks from the highest occupied level of the whole table. */
  lemma AdvanceRestoresTop(prio: seq<nat>, s: Sched)
    requires Inv(prio, s) && !s.locked
    ensures var r := Pick(prio, s);
            && (r.stuck <==> forall l :: 0 <= l < |s.table| ==> s.table[l].items == [])
            && (!r.stuck ==> Top(prio, r.s) && Filed(prio, r.s, r.s.current))
            && (!r.stuck ==> !r.s.wake && r.s.watermark == prio[r.s.current])
  {
  }

  /** Some advance of the run came before the bridge got stuck. */
  ghost predicate Advanced(prio: seq<nat>, s: Sched, ops: seq<Op>)
    requires Inv(prio, s) && AreOps(prio, ops)
  {
    ops != [] &&
    var n := |ops| - 1;
    Advanced(prio, s, ops[..n]) || (ops[n] == Advance && !Run(prio, s, ops[..n]).stuck)
  }

  /** Under the lock an advance turns no list and selects nobody: it only leaves the wake flag set. */
  lemma LockedAdvance(prio: seq<nat>, s: Sched)
    requires IsSched(prio, s) && s.locked
    ensures var r := Pick(prio, s);
            && !r.stuck && r.s.table == s.table && r.s.current == s.current && r.s.watermark == s.watermark
            && r.s.wake && r.s.locked && r.s.state == s.state && r.s.overflow == s.overflow
  {
  }

  /**
   From a locked state until the lock is released, whatever completes or parks: the running session stays,
   and an advance is remembered in the wake flag.
   */
  lemma {:induction false} LockHolds(prio: seq<nat>, s: Sched, ops: seq<Op>)
    requires Inv(prio, s) && AreOps(prio, ops) && s.locked && Lock(false) !in ops
    ensures var e := Run(prio, s, ops).s;
            && e.locked && e.current == s.current
            && (s.wake || Advanced(prio, s, ops) ==> e.wake)
  {
    if ops != [] {
      var n := |ops| - 1;
      LockHolds(prio, s, ops[..n]);
      var r := Run(prio, s, ops[..n]);
      if !r.stuck {
        match ops[n]
        case Rx(x) => CompletionUnderLock(prio, r.s, x);
        case Tx(x) => CompletionUnderLock(prio, r.s, x);
        case Advance => LockedAdvance(prio, r.s);
        case Park(_) =>
        case Lock(_) =>
        case Drain(_) =>
      }
      hide Pick, RxDone, TxDone;
    }
  }

  lemma CompletionUnderLock(prio: seq<nat>, s: Sched, x: nat)
    requires IsSched(prio, s) && x < |prio|
    ensures var r := RxDone(prio, s, x).s; r.locked == s.locked && r.current == s.current && (s.wake ==> r.wake)
    ensures var r := TxDone(prio, s, x).s; r.locked == s.locked && r.current == s.current && r.wake == s.wake
  {
  }

  ghost function Picks(prio: seq<nat>, s: Sched, k: nat): (r: Reply)
    requires Inv(prio, s)
    ensures Inv(prio, r.s)
  {
    if k == 0 then Reply(s, false, false)
    else
      var before := Picks(prio, s, k - 1);
      ActKeepsInv(prio, before, Advance);
      Act(prio, before, Advance)
  }

  /** Successive unlocked advances turn one list only: that of the highest occupied level. */
  lemma {:induction false} PicksRotate(prio: seq<nat>, s: Sched, l: nat, k: nat)
    requires Inv(prio, s) && !s.locked && Highest(s.table, s.watermark) == Some(l) && k >= 1
    ensures var r := Picks(prio, s, k);
            && !r.stuck && !r.s.locked && r.s.watermark == l
            && r.s.table == s.table[l := Rotations(s.table[l], k)]
            && r.s.current == Selected(Rotations(s.table[l], k))
    decreases k
  {
    if k > 1 {
      PicksRotate(prio, s, l, k - 1);
      var t := Picks(prio, s, k - 1).s.table;
      assert t[l].items == s.table[l].items;
    } else {
      assert Picks(prio, s, 0) == Reply(s, false, false);
    }
  }

  /** So as many advances as the level has sessions run each of them exactly once. */
  lemma EachRunsOnce(prio: seq<nat>, s: Sched, l: nat, x: nat) returns (k: nat)
    requires Inv(prio, s) && !s.locked && Highest(s.table, s.watermark) == Some(l) && x in s.table[l].items
    ensures 1 <= k <= |s.table[l].items|
    ensures forall j :: 1 <= j <= |s.table[l].items| ==> (Picks(prio, s, j).s.current == x <==> j == k)
  {
    k := RoundRobin(s.table[l], x);
    forall j | 1 <= j <= |s.table[l].items|
      ensures Picks(prio, s, j).s.current == x <==> j == k
    {
      PicksRotate(prio, s, l, j);
    }
  }
}
