/**
 The bridge's byte ring between CAN and SPI. One cell stays empty so that a full ring and an empty one
 differ. In length-prefix mode each write stores a 4-byte length and its payload, or nothing.
 */
module BridgeRing {
  import opened Memory
  import Ring

  /** The length header as it lies in memory, least significant byte first. */
  function Header(n: u32): (h: seq<u8>)
    ensures |h| == 4
  {
    var v: int := n;
    [v % 256, v / 256 % 256, v / 65536 % 256, v / 16777216]
  }

  function HeaderValue(h: seq<u8>): nat
    requires |h| == 4
  {
    (h[0] as int) + 256 * (h[1] as int) + 65536 * (h[2] as int) + 16777216 * (h[3] as int)
  }

  lemma HeaderRoundTrip(n: u32)
    ensures HeaderValue(Header(n)) == n
  {
    var v: int := n;
    assert v == v % 256 + 256 * (v / 256);
    assert v / 256 == v / 256 % 256 + 256 * (v / 65536);
    assert v / 65536 == v / 65536 % 256 + 256 * (v / 16777216);
  }

  /** A source buffer: with its header it must fit the 32-bit address space. */
  type Source = s: seq<u8> | |s| < 0xFFFF_FFFC witness []

  /** What a write did: stuck in the zero-length trap, or so many payload bytes stored. */
  datatype Outcome = Stuck | Stored(n: nat)

  /** The contents after a write into a ring with `free` free cells, and its outcome. */
  function Put(contents: seq<u8>, free: nat, src: Source, prefixed: bool): (seq<u8>, Outcome) {
    if prefixed then
      if free < |src| + 4 then (contents, Stored(0))
      else if |src| == 0 then (contents + Header(0), Stuck)
      else (contents + Header(|src|) + src, Stored(|src|))
    else
      var n := if |src| > free then free else |src|;
      if n == 0 then (contents, Stuck) else (contents + src[..n], Stored(n))
  }

  class RingBuf {
    const data: array<u8>
    const capacity: u32
    const threshold: u32
    const prefixed: bool
    var readPtr: u32
    var writePtr: u32
    var session: bool   // a session waits to be told

    ghost predicate Valid()
      reads this
    {
      && data.Length == capacity && 1 <= capacity <= 0x8000_0000
      && readPtr < capacity && writePtr < capacity
    }

    function BytesUsed(): (n: u32)
      requires Valid()
      reads this
      ensures n < capacity && writePtr == Ring.Wrap(readPtr + n, capacity)
    {
      var used: u32 := writePtr + capacity - readPtr;
      if used >= capacity then used - capacity else used
    }

    function BytesFree(): (n: u32)
      requires Valid()
      reads this
      ensures n + BytesUsed() == capacity - 1
    {
      var free: int := capacity + readPtr - 1 - writePtr;
      if free >= capacity then free - capacity else free
    }

    ghost function Contents(): (s: seq<u8>)
      requires Valid()
      reads this, data
      ensures |s| == BytesUsed()
    {
      Ring.Window(data[..], readPtr, BytesUsed())
    }

    constructor (capacity: u32, threshold: u32, prefixed: bool)
      requires 1 <= capacity <= 0x8000_0000
      ensures Valid() && Contents() == [] && !session && fresh(data)
      ensures this.capacity == capacity && this.threshold == threshold && this.prefixed == prefixed
    {
      this.capacity, this.threshold, this.prefixed := capacity, threshold, prefixed;
      data := new u8[capacity](_ => 0);
      readPtr, writePtr, session := 0, 0, false;
    }

    /** Up to `want` of the `avail` bytes the caller knows to be there, in two copies across the wrap. */
    method Read(want: u32, avail: u32) returns (dst: seq<u8>)
      requires Valid() && avail <= BytesUsed()
      modifies this`readPtr
      ensures Valid()
      ensures var n := if want < avail then want else avail;
              dst == old(Contents())[..n] && Contents() == old(Contents())[n..]
    {
      hide Ring.Window;
      var toCopy := if want < avail then want else avail;
      var room := capacity - readPtr;
      var first := if toCopy < room then toCopy else room;
      ghost var used := BytesUsed();
      Ring.WindowSplit(data[..], readPtr, used, toCopy, first);
      if toCopy == 0 {
        return [];
      }
      assert !(capacity < readPtr + first);   // the consistency trap
      dst := data[readPtr..readPtr + first];
      if first < toCopy {
        dst := dst + data[..toCopy - first];
      } else {
        assert !(want < first);               // the defensive trap
      }
      readPtr := Advanced(readPtr, toCopy);
      assert BytesUsed() == used - toCopy;
    }

    function Advanced(p: u32, n: u32): (q: u32)
      requires Valid() && p < capacity && n <= capacity
      reads this
      ensures q == Ring.Wrap(p + n, capacity)
    {
      var next: int := p + n;
      if next >= capacity then next - capacity else next
    }

    /** Copies a block into the free cells behind the contents, in two parts across the wrap. */
    method Lay(src: Source)
      requires Valid() && |src| <= capacity
      modifies data
      ensures data[..] == Ring.Overwritten(old(data[..]), writePtr, src)
    {
      hide Ring.Overwritten;
      var count: u32 := |src|;
      var room := capacity - writePtr;
      var first := if count < room then count else room;
      Ring.OverwrittenParts(data[..], writePtr, src, first);
      assert !(capacity < writePtr + first);    // the bounds trap
      Copy(data, writePtr, src[..first]);
      if first < count {
        assert !(count - first > capacity);     // the wrap trap
        Copy(data, 0, src[first..]);
      }
    }

    /** Stores all of `src`, for which the caller has made sure of room. */
    method Write(src: Source) returns (n: u32)
      requires Valid() && |src| <= BytesFree()
      modifies this`writePtr, data
      ensures Valid() && n == |src|
      ensures Contents() == old(Contents()) + src
    {
      hide Ring.Window, Ring.Overwritten;
      Ring.WindowAppend(data[..], readPtr, BytesUsed(), src);
      Lay(src);
      writePtr := Advanced(writePtr, |src|);
      return |src|;
    }

    method WriteCapped(src: Source, free: u32, minRequired: u32) returns (o: Outcome)
      requires Valid() && free == BytesFree() && (prefixed ==> minRequired == |src| + 4)
      modifies this`writePtr, data
      ensures Valid() && (Contents(), o) == Put(old(Contents()), free, src, prefixed)
    {
      var n := |src|;
      if prefixed {
        if free < minRequired {
          return Stored(0);
        }
        var h := Write(Header(n));
      } else if n > free {
        n := free;
      }
      if n == 0 {
        return Stuck;
      }
      var w := Write(src[..n]);
      assert src[..|src|] == src;
      return Stored(w);
    }

    /**
     Writes and, from the threshold on, tells the waiting session. `partial` is the source's inverted
     result: true when not every byte was stored. A stuck write never returns.
     */
    method WriteNotify(src: Source) returns (stuck: bool, partial: bool, told: bool)
      requires Valid()
      modifies this`writePtr, this`session, data
      ensures Valid()
      ensures var free := capacity - 1 - |old(Contents())|;
              var (contents, o) := Put(old(Contents()), free, src, prefixed);
              && Contents() == contents && stuck == o.Stuck?
              && (!stuck ==> partial == (o.n != |src|))
              && told == (!stuck && old(session) && |contents| >= threshold)
              && session == (old(session) && !told)
    {
      var minRequired: int := if prefixed then |src| + 4
                         else if capacity - 1 < |src| then capacity - 1 else |src|;
      var o := WriteCapped(src, BytesFree(), minRequired);
      told := false;
      if o.Stuck? {
        return true, false, false;
      }
      if BytesUsed() >= threshold {
        if session {
          told := true;
          session := false;
        }
      }
      return false, o.n != |src|, told;
    }
  }

  // ---------------------------------------------------------------- what the outcomes mean

  /** The notify result is false exactly when every byte of the source went into the ring. */
  lemma PartialMeansMissing(contents: seq<u8>, free: nat, src: Source, prefixed: bool)
    requires var o := Put(contents, free, src, prefixed).1; o.Stored?
    ensures var (after, o) := Put(contents, free, src, prefixed);
            && (o.n == |src| <==> after == contents + (if prefixed && src != [] then Header(|src|) else []) + src)
            && (o.n != |src| && prefixed ==> after == contents)
            && |after| <= |contents| + free
  {
  }

  /** A write gets stuck exactly on nothing to store; in prefixed mode its header is then in the ring. */
  lemma StuckExactly(contents: seq<u8>, free: nat, src: Source, prefixed: bool)
    ensures var stuck := Put(contents, free, src, prefixed).1.Stuck?;
            stuck <==> if prefixed then src == [] && free >= 4 else src == [] || free == 0
  {
  }

  /** A plain write that falls short has filled the ring. */
  lemma PlainWriteFills(contents: seq<u8>, free: nat, src: Source)
    ensures var (after, o) := Put(contents, free, src, false);
            && after[..|contents|] == contents && after[|contents|..] <= src
            && (after[|contents|..] == src || |after| == |contents| + free)
  {
  }

  // ---------------------------------------------------------------- runs of a byte ring

  datatype Op = Store(src: Source) | Fetch(want: u32)

  /** The ring and both its histories; a stuck ring does nothing more. */
  datatype Bytes = Bytes(contents: seq<u8>, stored: seq<u8>, fetched: seq<u8>, stuck: bool)

  function Act(capacity: u32, b: Bytes, op: Op): Bytes
    requires |b.contents| < capacity
  {
    if b.stuck then b
    else
      match op
      case Store(src) =>
        var (contents, o) := Put(b.contents, capacity - 1 - |b.contents|, src, false);
        if o.Stuck? then b.(stuck := true)
        else b.(contents := contents, stored := b.stored + contents[|b.contents|..])
      case Fetch(want) =>
        var n := if want < |b.contents| then want else |b.contents|;
        b.(contents := b.contents[n..], fetched := b.fetched + b.contents[..n])
  }

  function Run(capacity: u32, ops: seq<Op>): (b: Bytes)
    requires capacity >= 1
    ensures |b.contents| < capacity
  {
    if ops == [] then Bytes([], [], [], false)
    else var n := |ops| - 1; Act(capacity, Run(capacity, ops[..n]), ops[n])
  }

  /** First in, first out, across any number of wraps. */
  lemma {:induction false} FirstInFirstOut(capacity: u32, ops: seq<Op>)
    requires capacity >= 1
    ensures var b := Run(capacity, ops); b.fetched + b.contents == b.stored
  {
    if ops != [] {
      var n := |ops| - 1;
      FirstInFirstOut(capacity, ops[..n]);
      var b := Run(capacity, ops[..n]);
      if !b.stuck {
        match ops[n]
        case Store(src) =>
          var contents := Put(b.contents, capacity - 1 - |b.contents|, src, false).0;
          assert contents == b.contents + contents[|b.contents|..];
          Assoc(b.fetched, b.contents, contents[|b.contents|..]);
        case Fetch(want) =>
          var k := if want < |b.contents| then want else |b.contents|;
          assert b.contents == b.contents[..k] + b.contents[k..];
          Assoc(b.fetched, b.contents[..k], b.contents[k..]);
      }
    }
  }

  // ---------------------------------------------------------------- records

  /** What the ring holds in prefixed mode: whole records, each a header and its payload. */
  function Records(ms: seq<Source>): seq<u8> {
    if ms == [] then [] else Header(|ms[0]|) + ms[0] + Records(ms[1..])
  }

  lemma {:induction false} RecordsAppend(ms: seq<Source>, m: Source)
    ensures Records(ms + [m]) == Records(ms) + Header(|m|) + m
  {
    if ms == [] {
      assert Records([m][1..]) == [];
    } else {
      assert (ms + [m])[1..] == ms[1..] + [m];
      RecordsAppend(ms[1..], m);
      var front := Header(|ms[0]|) + ms[0];
      Assoc(front, Records(ms[1..]), Header(|m|));
      Assoc(front, Records(ms[1..]) + Header(|m|), m);
    }
  }

  /** A write is all or nothing: it appends one record, or leaves the records as they are. */
  lemma RecordWrite(ms: seq<Source>, free: nat, src: Source)
    ensures var (after, o) := Put(Records(ms), free, src, true);
            if free >= |src| + 4 then
              after == Records(ms + [src]) && o == if src == [] then Stuck else Stored(|src|)
            else after == Records(ms) && o == Stored(0)
  {
    RecordsAppend(ms, src);
    assert Records(ms) + Header(|src|) + [] == Records(ms) + Header(|src|);
  }

  /** Reading a header and then as many bytes as it says takes exactly the oldest record. */
  lemma RecordRead(ms: seq<Source>)
    requires ms != []
    ensures var r := Records(ms); var n := |ms[0]|;
            && |r| >= 4 + n && HeaderValue(r[..4]) == n
            && (r[0] as int) + 256 * (r[1] as int) + 65536 * (r[2] as int) + 16777216 * (r[3] as int) == n
            && r[4..4 + n] == ms[0] && r[4 + n..] == Records(ms[1..])
  {
    HeaderRoundTrip(|ms[0]|);
    assert Records(ms)[..4] == Header(|ms[0]|);
  }

  datatype RecordOp = Send(src: Source) | Receive

  /** Records in the ring, records taken in and records received so far; a stuck ring does nothing more. */
  datatype Queue = Queue(contents: seq<u8>, accepted: seq<Source>, received: seq<seq<u8>>, stuck: bool)

  function QueueAct(capacity: u32, q: Queue, op: RecordOp): Queue
    requires |q.contents| < capacity
  {
    if q.stuck then q
    else
      match op
      case Send(src) =>
        var (contents, o) := Put(q.contents, capacity - 1 - |q.contents|, src, true);
        var taken := o.Stuck? || o.n != 0;
        Queue(contents, if taken then q.accepted + [src] else q.accepted, q.received, o.Stuck?)
      case Receive =>
        if |q.contents| < 4 then q
        else
          var n := HeaderValue(q.contents[..4]);
          var body := q.contents[4..];
          var k := if n < |body| then n else |body|;
          q.(contents := body[k..], received := q.received + [body[..k]])
  }

  function RunQueue(capacity: u32, ops: seq<RecordOp>): (q: Queue)
    requires capacity >= 1
    ensures |q.contents| < capacity
  {
    if ops == [] then Queue([], [], [], false)
    else var n := |ops| - 1; QueueAct(capacity, RunQueue(capacity, ops[..n]), ops[n])
  }

  /** Whole records, received in order; an empty one is the last ever taken in, and leaves the ring stuck. */
  predicate Aligned(q: Queue) {
    var n := |q.received|;
    && n <= |q.accepted| && q.received == q.accepted[..n] && q.contents == Records(q.accepted[n..])
    && (q.stuck ==> q.accepted != [])
    && forall k :: 0 <= k < |q.accepted| ==> (q.accepted[k] == [] <==> q.stuck && k == |q.accepted| - 1)
  }

  lemma SendKeepsAligned(capacity: u32, q: Queue, src: Source)
    requires |q.contents| < capacity && Aligned(q)
    ensures Aligned(QueueAct(capacity, q, Send(src)))
  {
    if !q.stuck {
      hide Records, Put;
      var n := |q.received|;
      RecordWrite(q.accepted[n..], capacity - 1 - |q.contents|, src);
      assert (q.accepted + [src])[n..] == q.accepted[n..] + [src];
      assert (q.accepted + [src])[..n] == q.accepted[..n];
    }
  }

  lemma ReceiveKeepsAligned(capacity: u32, q: Queue)
    requires |q.contents| < capacity && Aligned(q)
    ensures Aligned(QueueAct(capacity, q, Receive))
  {
    var n := |q.received|;
    var pending := q.accepted[n..];
    if pending != [] && !q.stuck {
      RecordRead(pending);
      hide Records;
      var m := |pending[0]|;
      var body := q.contents[4..];
      assert body[..m] == q.contents[4..4 + m] && body[m..] == q.contents[4 + m..];
      assert pending[1..] == q.accepted[n + 1..] && q.accepted[..n + 1] == q.accepted[..n] + [pending[0]];
    }
  }

  /**
   In every run the ring holds whole records, and they come out as they went in; a send of nothing that
   finds room for its header is the one way to get stuck, and leaves a whole record too.
   */
  lemma {:induction false} WholeRecords(capacity: u32, ops: seq<RecordOp>)
    requires capacity >= 1
    ensures Aligned(RunQueue(capacity, ops))
  {
    if ops == [] {
      assert Records([]) == [];
    } else {
      hide QueueAct, Records, Aligned;
      var m := |ops| - 1;
      WholeRecords(capacity, ops[..m]);
      var q := RunQueue(capacity, ops[..m]);
      match ops[m]
      case Send(src) => SendKeepsAligned(capacity, q, src);
      case Receive => ReceiveKeepsAligned(capacity, q);
    }
  }
}
