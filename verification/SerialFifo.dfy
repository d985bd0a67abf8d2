/**
 The 128-entry receive ring of the serial link. The receive interrupt drains the hardware FIFO into
 it; the protocol task pops single bytes.
 */
module SerialFifo {
  import opened Memory
  import Ring

  const ENTRIES: nat := 128

  class Fifo {
    var buf: array<bv8>
    var count: nat
    var readIndex: nat
    var writeIndex: nat
    var overflow: bool

    ghost predicate Valid()
      reads this, buf
    {
      && buf.Length == ENTRIES && count <= ENTRIES && readIndex < ENTRIES
      && writeIndex == (readIndex + count) % ENTRIES
    }

    ghost function Contents(): (s: seq<bv8>)
      requires Valid()
      reads this, buf
      ensures |s| == count
    {
      Ring.Window(buf[..], readIndex, count)
    }

    constructor ()
      ensures Valid() && Contents() == [] && !overflow && fresh(buf)
    {
      buf := new bv8[ENTRIES](_ => 0);
      count, readIndex, writeIndex, overflow := 0, 0, 0, false;
    }

    /** One received byte; it is lost when the ring is full. */
    method Push(rxByte: bv8)
      requires Valid()
      modifies this, buf
      ensures Valid() && buf == old(buf)
      ensures Contents() == old(Contents()) + if |old(Contents())| < ENTRIES then [rxByte] else []
      ensures overflow == (old(overflow) || |old(Contents())| == ENTRIES)
    {
      if count >= ENTRIES {
        overflow := true;
      } else {
        Ring.WindowPush(buf[..], readIndex, count, rxByte);
        assert writeIndex == Ring.Wrap(readIndex + count, ENTRIES);
        buf[writeIndex] := rxByte;
        assert buf[..] == old(buf[..])[writeIndex := rxByte];
        count := count + 1;
        writeIndex := writeIndex + 1;
        if writeIndex >= ENTRIES {
          writeIndex := 0;
        }
      }
    }

    /** Takes over what the hardware FIFO holds; bytes that find the ring full are lost. */
    method Drain(incoming: seq<bv8>)
      requires Valid()
      modifies this, buf
      ensures Valid() && buf == old(buf)
      ensures var room := ENTRIES - |old(Contents())|;
              && Contents() == old(Contents()) + (if |incoming| <= room then incoming else incoming[..room])
              && overflow == (old(overflow) || |incoming| > room)
    {
      ghost var was, room := Contents(), ENTRIES - |Contents()|;
      var k := 0;
      while k < |incoming|
        invariant k <= |incoming| && Valid() && buf == old(buf)
        invariant Contents() == was + (if k <= room then incoming[..k] else incoming[..room])
        invariant overflow == (old(overflow) || k > room)
      {
        Push(incoming[k]);
        if k < room {
          Assoc(was, incoming[..k], [incoming[k]]);
          assert incoming[..k] + [incoming[k]] == incoming[..k + 1];
        }
        k := k + 1;
      }
    }

    method Pop() returns (r: Option<bv8>)
      requires Valid()
      modifies this`count, this`readIndex
      ensures Valid()
      ensures old(Contents()) == [] ==> r == None && Contents() == []
      ensures old(Contents()) != [] ==>
                r == Some(old(Contents())[0]) && Contents() == old(Contents())[1..]
    {
      if count == 0 {
        return None;
      }
      var index := readIndex;
      r := Some(buf[index]);
      Ring.WindowDrop(buf[..], readIndex, count, 1);
      count := count - 1;
      index := index + 1;
      if index >= ENTRIES {
        index := 0;
      }
      readIndex := index;
    }
  }

  // ---------------------------------------------------------------- runs

  datatype Op = Fill(incoming: seq<bv8>) | Take

  datatype State = State(held: seq<bv8>, overflow: bool, accepted: seq<bv8>, dropped: nat, popped: seq<bv8>)

  const START: State := State([], false, [], 0, [])

  /** What `Drain` and `Pop` do to the contents, with the history of both sides. */
  function Act(s: State, op: Op): State
    requires |s.held| <= ENTRIES
  {
    match op
    case Fill(incoming) =>
      var room := ENTRIES - |s.held|;
      var taken := if |incoming| <= room then incoming else incoming[..room];
      State(s.held + taken, s.overflow || |incoming| > room, s.accepted + taken,
            s.dropped + |incoming| - |taken|, s.popped)
    case Take =>
      if s.held == [] then s else s.(held := s.held[1..], popped := s.popped + [s.held[0]])
  }

  function Run(ops: seq<Op>): (s: State)
    ensures |s.held| <= ENTRIES
  {
    if ops == [] then START else var n := |ops| - 1; Act(Run(ops[..n]), ops[n])
  }

  /** Everything the hardware FIFO ever offered. */
  function Offered(ops: seq<Op>): nat {
    if ops == [] then 0
    else var n := |ops| - 1; Offered(ops[..n]) + if ops[n].Fill? then |ops[n].incoming| else 0
  }

  /** Nothing accepted is lost, repeated or reordered, and every loss is flagged. */
  lemma {:induction false} NothingLostInside(ops: seq<Op>)
    ensures var s := Run(ops);
            && s.popped + s.held == s.accepted
            && |s.accepted| + s.dropped == Offered(ops)
            && (s.overflow <==> s.dropped > 0)
  {
    if ops != [] {
      var n := |ops| - 1;
      NothingLostInside(ops[..n]);
      var s := Run(ops[..n]);
      if ops[n].Fill? {
        var room := ENTRIES - |s.held|;
        var incoming := ops[n].incoming;
        Assoc(s.popped, s.held, if |incoming| <= room then incoming else incoming[..room]);
      } else if s.held != [] {
        Assoc(s.popped, [s.held[0]], s.held[1..]);
        assert s.held == [s.held[0]] + s.held[1..];
      }
    }
  }

  // ---------------------------------------------------------------- the interrupt inside a pop

  /** How far the running pop is; each of its statements is one step. `i` is its local index. */
  datatype Stage = Resting | Checked | Indexed(i: nat) | Loaded(i: nat, b: bv8) | Counted(i: nat, b: bv8)

  /** The shared words, the pop's progress, and the history of both sides. */
  datatype Shared = Shared(buf: seq<bv8>, count: nat, readIndex: nat, writeIndex: nat, overflow: bool,
                           stage: Stage, accepted: seq<bv8>, dropped: nat, popped: seq<bv8>)

  predicate IsShared(s: Shared) {
    |s.buf| == ENTRIES && s.count <= ENTRIES && s.readIndex < ENTRIES && s.writeIndex < ENTRIES
  }

  function Next(i: nat): nat {
    if i + 1 >= ENTRIES then 0 else i + 1
  }

  /** The interrupt stores one byte. */
  function Interrupt(s: Shared, x: bv8): Shared
    requires IsShared(s)
  {
    if s.count >= ENTRIES then s.(overflow := true, dropped := s.dropped + 1)
    else s.(buf := s.buf[s.writeIndex := x], count := s.count + 1, writeIndex := Next(s.writeIndex),
            accepted := s.accepted + [x])
  }

  /** The pop does its next statement; from rest it starts, or returns at once from an empty ring. */
  function Proceed(s: Shared): Shared
    requires IsShared(s)
  {
    match s.stage
    case Resting => if s.count == 0 then s else s.(stage := Checked)
    case Checked => s.(stage := Indexed(s.readIndex))
    case Indexed(i) => if i < ENTRIES then s.(stage := Loaded(i, s.buf[i])) else s
    case Loaded(i, b) => s.(count := if s.count > 0 then s.count - 1 else 0, stage := Counted(i, b))
    case Counted(i, b) =>
      s.(readIndex := if i < ENTRIES then Next(i) else 0, stage := Resting, popped := s.popped + [b])
  }

  /** The oldest entry: between the pop's two updates the read index is one behind. */
  function Head(s: Shared): nat
    requires IsShared(s)
  {
    if s.stage.Counted? then Next(s.readIndex) else s.readIndex
  }

  function InRing(s: Shared): seq<bv8>
    requires IsShared(s)
  {
    Ring.Window(s.buf, Head(s), s.count)
  }

  function InFlight(s: Shared): seq<bv8> {
    if s.stage.Counted? then [s.stage.b] else []
  }

  /** Indices and count agree, and what the pop has read is still the oldest entry. */
  predicate Coherent(s: Shared) {
    && IsShared(s)
    && s.writeIndex == Ring.Wrap(Head(s) + s.count, ENTRIES)
    && (!s.stage.Resting? && !s.stage.Counted? ==> s.count > 0)
    && (!s.stage.Resting? && !s.stage.Checked? ==> s.stage.i == s.readIndex)
    && (s.stage.Loaded? ==> s.stage.b == s.buf[s.readIndex])
  }

  predicate Lossless(s: Shared) {
    && Coherent(s)
    && s.popped + InFlight(s) + InRing(s) == s.accepted
    && (s.overflow <==> s.dropped > 0)
  }

  lemma InterruptKeeps(s: Shared, x: bv8)
    requires Lossless(s)
    ensures Lossless(Interrupt(s, x))
  {
    if s.count < ENTRIES {
      Ring.WindowPush(s.buf, Head(s), s.count, x);
      Assoc(s.popped + InFlight(s), InRing(s), [x]);
    }
  }

  /** The count goes down: the entry leaves the ring and is in flight. */
  lemma CountingKeeps(s: Shared)
    requires Lossless(s) && s.stage.Loaded?
    ensures Lossless(Proceed(s))
  {
  }

  /** The read index follows: the entry has been popped. */
  lemma ReturningKeeps(s: Shared)
    requires Lossless(s) && s.stage.Counted?
    ensures Lossless(Proceed(s))
  {
  }

  /** The statements before only look. */
  lemma LookingKeeps(s: Shared)
    requires Lossless(s) && (s.stage.Resting? || s.stage.Checked? || s.stage.Indexed?)
    ensures Lossless(Proceed(s))
  {
  }

  lemma ProceedKeeps(s: Shared)
    requires Lossless(s)
    ensures Lossless(Proceed(s))
  {
    hide Lossless, Proceed;
    match s.stage
    case Loaded(_, _) => CountingKeeps(s);
    case Counted(_, _) => ReturningKeeps(s);
    case _ => LookingKeeps(s);
  }

  datatype Event = Received(x: bv8) | Popping

  function Interleave(s: Shared, events: seq<Event>): (s': Shared)
    requires Lossless(s)
    ensures Lossless(s')
  {
    if events == [] then s
    else
      var n := |events| - 1;
      var before := Interleave(s, events[..n]);
      match events[n]
      case Received(x) => InterruptKeeps(before, x); Interrupt(before, x)
      case Popping => ProceedKeeps(before); Proceed(before)
  }

  const EMPTY: Shared := Shared(seq(ENTRIES, _ => 0), 0, 0, 0, false, Resting, [], 0, [])

  function Arrivals(events: seq<Event>): seq<bv8> {
    if events == [] then []
    else var n := |events| - 1; Arrivals(events[..n]) + if events[n].Received? then [events[n].x] else []
  }

  /** An arrival is dropped exactly when the ring holds 128 bytes, and never takes anything else with it. */
  lemma DropsExactly(s: Shared, x: bv8)
    requires Lossless(s)
    ensures var t := Interrupt(s, x);
            && |InRing(s)| <= 128
            && var lost := |InRing(s)| == 128;
               && t.dropped == (if lost then s.dropped + 1 else s.dropped)
               && t.accepted == (if lost then s.accepted else s.accepted + [x])
               && InRing(t) == if lost then InRing(s) else InRing(s) + [x]
  {
    if s.count < ENTRIES {
      Ring.WindowPush(s.buf, Head(s), s.count, x);
    }
  }

  lemma EmptyIsLossless()
    ensures Lossless(EMPTY)
  {
  }

  /**
   Wherever the interrupt falls between the statements of a pop, from the empty ring or any later moment:
   popped bytes, the one in flight and the ring's contents are the accepted bytes in order, every other
   arrival is counted as dropped, and the overflow flag says whether there was one.
   */
  lemma {:induction false} NothingLostBetween(s: Shared, events: seq<Event>)
    requires Lossless(s)
    ensures var e := Interleave(s, events);
            && e.popped + InFlight(e) + InRing(e) == e.accepted
            && |e.accepted| + e.dropped == |s.accepted| + s.dropped + |Arrivals(events)|
            && (e.overflow <==> e.dropped > 0)
  {
    if events != [] {
      NothingLostBetween(s, events[..|events| - 1]);
    }
  }
}
