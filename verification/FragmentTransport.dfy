/**
 Long attribute writes travel as 13-byte frames: a 3-byte id, a flags and sequence byte, a length
 byte and up to 8 payload bytes. `Chunker` cuts a payload into such frames and `Reassembler` puts
 them together again in three 64-byte slots that all ids share.
 */
module FragmentTransport {
  import opened Memory

  const CHUNK_MAX: nat := 8
  const FRAME_LEN: nat := 13
  const SLOTS: nat := 3
  const SLOT_BYTES: nat := 64

  datatype Uuid = Uuid(b0: u8, b1: u8, b2: u8)

  // ---------------------------------------------------------------- the wire

  /** A frame as it arrives: the length byte must not promise more than the buffer holds. */
  predicate IsFrame(req: seq<u8>) {
    |req| >= 5 && |req| - 5 >= req[4]
  }

  type Frame = req: seq<u8> | IsFrame(req) witness [0, 0, 0, 0, 0]

  function Id(req: Frame): Uuid {
    Uuid(req[0], req[1], req[2])
  }

  function Payload(req: Frame): seq<u8> {
    req[5..5 + req[4]]
  }

  /** The payloads of the frames addressed to `id`, in order. */
  function Stream(frames: seq<Frame>, id: Uuid): seq<seq<u8>> {
    if frames == [] then []
    else
      var n := |frames| - 1;
      Stream(frames[..n], id) + if Id(frames[n]) == id then [Payload(frames[n])] else []
  }

  /** How a payload is cut: full chunks, then a last one that is empty only for the empty payload. */
  function Chunks(m: seq<u8>): (c: seq<seq<u8>>)
    ensures |c| == if m == [] then 1 else (|m| + 7) / 8
  {
    if |m| <= CHUNK_MAX then [m] else [m[..CHUNK_MAX]] + Chunks(m[CHUNK_MAX..])
  }

  function AllChunks(messages: seq<seq<u8>>): seq<seq<u8>> {
    if messages == [] then [] else Chunks(messages[0]) + AllChunks(messages[1..])
  }

  // ---------------------------------------------------------------- sending

  /** Sequence field after `k` frames: the low 4 bits count in mode 2, the low 3 otherwise. */
  function SequenceAfter(flags: u8, mode: u8, k: nat): u8 {
    if mode == 2 then flags - flags % 16 + (flags + k) % 16 else flags - flags % 8 + (flags + k) % 8
  }

  /** The masked increment of the flags byte after each frame. */
  function NextSequence(flags: u8, mode: u8): u8 {
    var f: int := flags;
    if mode == 2 then f - f % 16 + (f + 1) % 16 else f - f % 8 + (f + 1) % 8
  }

  // Counting inside an aligned block of 8 or 16 values stays inside the block.

  lemma Count8(q: nat, r: nat, n: nat)
    requires r == n % 8
    ensures (8 * q + r) % 8 == r && (8 * q + r) - (8 * q + r) % 8 == 8 * q
    ensures (8 * q + r + 1) % 8 == (n + 1) % 8
  {
  }

  lemma Count16(q: nat, r: nat, n: nat)
    requires r == n % 16
    ensures (16 * q + r) % 16 == r && (16 * q + r) - (16 * q + r) % 16 == 16 * q
    ensures (16 * q + r + 1) % 16 == (n + 1) % 16
  {
  }

  lemma NextSequenceCounts(flags: u8, mode: u8, k: nat)
    ensures NextSequence(SequenceAfter(flags, mode, k), mode) == SequenceAfter(flags, mode, k + 1)
  {
    var f, n: nat := flags, flags + k;
    if mode == 2 {
      Count16(f / 16, n % 16, n);
    } else {
      Count8(f / 8, n % 8, n);
    }
  }

  lemma FirstInSequence(flags: u8, mode: u8)
    ensures SequenceAfter(flags, mode, 0) == flags
  {
  }

  lemma ChunkAt(m: seq<u8>, k: nat)
    requires k < |Chunks(m)|
    ensures 8 * k <= |m|
    ensures Chunks(m)[k] == m[8 * k..if 8 * k + 8 <= |m| then 8 * k + 8 else |m|]
  {
    if k > 0 {
      ChunkAt(m[8..], k - 1);
    }
  }

  /** Frame `k` of a message: its id, its place in the sequence and its chunk. */
  predicate IsNthFrame(f: seq<u8>, id: Uuid, flags: u8, mode: u8, k: nat, chunk: seq<u8>) {
    && |f| == FRAME_LEN && IsFrame(f)
    && Id(f) == id && f[3] == SequenceAfter(flags, mode, k) && Payload(f) == chunk
  }

  lemma NthFrame(f: seq<u8>, id: Uuid, flags: u8, mode: u8, k: nat, chunk: seq<u8>)
    requires |f| == FRAME_LEN && IsFrame(f)
    requires Uuid(f[0], f[1], f[2]) == id && f[3] == SequenceAfter(flags, mode, k) && Payload(f) == chunk
    ensures IsNthFrame(f, id, flags, mode, k, chunk)
  {
  }

  const FLAG: u8 := 0x10

  /** A message to send: mode 0 in one frame, modes 1 and 2 in chunks. */
  datatype Session = Session(id: Uuid, mode: u8, data: seq<u8>, payload: seq<u8>)

  datatype SendResult = Sent | BadMode

  class Chunker {
    /** What the channel's write function has been handed so far. */
    var wire: seq<seq<u8>>

    constructor ()
      ensures wire == []
    {
      wire := [];
    }

    /** Length byte and payload bytes of the next frame. */
    method FillFrame(frame: array<u8>, chunk: seq<u8>)
      requires frame.Length == FRAME_LEN && |chunk| <= CHUNK_MAX
      modifies frame
      ensures frame[..4] == old(frame[..4]) && IsFrame(frame[..])
      ensures frame[4] == |chunk| && Payload(frame[..]) == chunk
    {
      frame[4] := |chunk|;
      Copy(frame, 5, chunk);
      assert frame[..5] == (old(frame[..4]) + [|chunk|]);
      assert frame[5..5 + |chunk|] == chunk;
    }

    /** The single frame of a session whose payload is inline. */
    method SendInline(s: Session, frame: array<u8>)
      requires frame.Length == FRAME_LEN && |s.payload| <= CHUNK_MAX
      requires Uuid(frame[0], frame[1], frame[2]) == s.id
      modifies this, frame
      ensures |wire| == |old(wire)| + 1 && wire[..|old(wire)|] == old(wire)
      ensures IsNthFrame(wire[|old(wire)|], s.id, FLAG, 0, 0, s.payload)
    {
      ghost var head := frame[..4];
      FillFrame(frame, s.payload);
      assert frame[..4] == head;
      frame[3] := FLAG;
      assert Payload(frame[..]) == s.payload;
      NthFrame(frame[..], s.id, FLAG, 0, 0, s.payload);
      wire := wire + [frame[..]];
    }

    /** Sends a session; an inline payload must fit the frame it is copied into. */
    method TxFrameSend(s: Session) returns (r: SendResult)
      requires |s.data| < 0x1_0000_0000
      requires s.mode == 0 ==> |s.payload| <= CHUNK_MAX
      modifies this
      ensures r == if s.mode <= 2 then Sent else BadMode
      ensures r == BadMode ==> wire == old(wire)
      ensures r == Sent ==>
                var chunks := if s.mode == 0 then [s.payload] else Chunks(s.data);
                && |wire| == |old(wire)| + |chunks|
                && wire[..|old(wire)|] == old(wire)
                && forall k :: 0 <= k < |chunks| ==>
                     IsNthFrame(wire[|old(wire)| + k], s.id, FirstFlags(s.mode), s.mode, k, chunks[k])
    {
      hide Chunks, IsNthFrame;
      var frame := new u8[FRAME_LEN](_ => 0);
      frame[0], frame[1], frame[2] := s.id.b0, s.id.b1, s.id.b2;
      if s.mode == 1 {
        frame[3] := FLAG;
        WriteChunked(s.data, s.mode, frame, true);
        return Sent;
      } else if s.mode == 2 {
        WriteChunked(s.data, s.mode, frame, true);
        return Sent;
      } else if s.mode == 0 {
        SendInline(s, frame);
        return Sent;
      }
      return BadMode;
    }

    /** Streams the first `|data|` bytes of a session through the caller's frame buffer. */
    method WriteChunked(data: seq<u8>, mode: u8, frame: array<u8>, resume: bool)
      requires frame.Length == FRAME_LEN
      requires |data| < 0x1_0000_0000
      modifies this, frame
      ensures var chunks := Chunks(if resume then data else []);
              && |wire| == |old(wire)| + |chunks|
              && wire[..|old(wire)|] == old(wire)
              && forall k :: 0 <= k < |chunks| ==>
                   IsNthFrame(wire[|old(wire)| + k], old(Uuid(frame[0], frame[1], frame[2])),
                              old(frame[3]), mode, k, chunks[k])
    {
      hide Chunks, IsNthFrame, SequenceAfter, NextSequence;
      ghost var m := if resume then data else [];
      ghost var n0, flags0, id := |wire|, frame[3], Uuid(frame[0], frame[1], frame[2]);
      var remaining: u32 := if resume then |data| else 0;
      var offset := 0;
      ghost var k := 0;
      FirstInSequence(flags0, mode);
      while true
        invariant k < |Chunks(m)| && offset == 8 * k && remaining == |m| - offset
        invariant |wire| == n0 + k && wire[..n0] == old(wire)
        invariant Uuid(frame[0], frame[1], frame[2]) == id
        invariant frame[3] == SequenceAfter(flags0, mode, k)
        invariant forall j :: 0 <= j < k ==> IsNthFrame(wire[n0 + j], id, flags0, mode, j, Chunks(m)[j])
        decreases remaining
      {
        var chunk: u8 := if remaining > CHUNK_MAX then CHUNK_MAX else remaining;
        ChunkAt(m, k);
        ghost var head := frame[..4];
        FillFrame(frame, if remaining != 0 then data[offset..offset + chunk] else []);
        assert frame[..][..4] == head;
        remaining := remaining - frame[4];
        offset := offset + frame[4];
        NthFrame(frame[..], id, flags0, mode, k, Chunks(m)[k]);
        wire := wire + [frame[..]];
        frame[3] := NextSequence(frame[3], mode);
        NextSequenceCounts(flags0, mode, k);
        k := k + 1;
        if remaining == 0 {
          break;
        }
      }
    }
  }

  /** The flags byte a session starts with. */
  function FirstFlags(mode: u8): u8 {
    if mode == 2 then 0 else FLAG
  }

  // ---------------------------------------------------------------- receiving

  /** How the subscription table routes an id. `kind` is the attribute type byte. */
  datatype Entry = Entry(kind: u8, hasHandler: bool, need: u32, hasQueue: bool)

  datatype Slot = Free | Open(id: Uuid, got: seq<u8>)

  datatype Event =
    | Called(id: Uuid, data: seq<u8>)   // plain or assembled handler call
    | Queued(id: Uuid)                  // notify queue signalled
    | Evicted                           // diagnostic 0xd8: a busy slot was taken
    | Overflowed                        // diagnostic 0xee: more than 64 bytes
    | Acked(id: Uuid)                   // chunked acknowledgement and entry timer

  type Slots = s: seq<Slot> | |s| == SLOTS witness [Free, Free, Free]

  const NO_SLOTS: Slots := [Free, Free, Free]

  predicate Holds(s: Slot, id: Uuid) {
    s.Open? && s.id == id
  }

  /** The first slot of `id`, else the first free slot, else slot 0. */
  function Target(s: Slots, id: Uuid): (i: nat)
    ensures i < SLOTS
  {
    if Holds(s[0], id) then 0 else if Holds(s[1], id) then 1 else if Holds(s[2], id) then 2
    else if s[0].Free? then 0 else if s[1].Free? then 1 else if s[2].Free? then 2
    else 0
  }

  predicate Evicts(s: Slots, id: Uuid) {
    forall i :: 0 <= i < SLOTS ==> s[i].Open? && s[i].id != id
  }

  /** Bytes gathered for `id` before the next fragment. */
  function Gathered(s: Slots, id: Uuid): seq<u8> {
    var t := s[Target(s, id)];
    if Holds(t, id) then t.got else []
  }

  datatype Outcome = Outcome(slots: Slots, events: seq<Event>, ok: bool)

  /** One fragment into the shared slots. */
  function Assemble(s: Slots, id: Uuid, e: Entry, data: seq<u8>): Outcome {
    var i := Target(s, id);
    var diag := if Evicts(s, id) then [Evicted] else [];
    var got := Gathered(s, id) + data;
    if |got| > SLOT_BYTES then Outcome(s[i := Free], diag + [Overflowed], false)
    else if |got| >= e.need then
      Outcome(s[i := Free], diag + (if e.hasHandler then [Called(id, got)] else []), true)
    else Outcome(s[i := Open(id, got)], diag, true)
  }

  /** One attribute write, as the dispatcher answers it. */
  function Write(subs: map<Uuid, Entry>, s: Slots, req: Frame): Outcome {
    var id := Id(req);
    if id !in subs || subs[id].kind > 2 then Outcome(s, [], false)
    else
      var e := subs[id];
      var o := match e.kind
        case 0 => Outcome(s, if e.hasHandler then [Called(id, Payload(req))] else [], true)
        case 1 => Outcome(s, if e.hasQueue then [Queued(id)] else [], true)
        case _ => Assemble(s, id, e, Payload(req));
      var acks := o.ok && (e.kind == 2 || req[3] / 16 % 4 != 0);
      o.(events := o.events + if acks then [Acked(id)] else [])
  }

  // The memory behind the slots: three control records and three 64-byte areas.

  datatype Control = Control(busy: bool, owner: Uuid, fill: u32)

  predicate IsMemory(control: seq<Control>, store: seq<u8>) {
    && |control| == SLOTS && |store| == SLOTS * SLOT_BYTES
    && forall i :: 0 <= i < SLOTS ==> control[i].fill <= SLOT_BYTES
  }

  function SlotAt(control: seq<Control>, store: seq<u8>, i: nat): Slot
    requires IsMemory(control, store) && i < SLOTS
  {
    var c := control[i];
    if c.busy then Open(c.owner, store[SLOT_BYTES * i..SLOT_BYTES * i + c.fill]) else Free
  }

  function SlotsOf(control: seq<Control>, store: seq<u8>): Slots
    requires IsMemory(control, store)
  {
    [SlotAt(control, store, 0), SlotAt(control, store, 1), SlotAt(control, store, 2)]
  }

  lemma SetControl(control: seq<Control>, store: seq<u8>, i: nat, c: Control)
    requires IsMemory(control, store) && i < SLOTS && c.fill <= SLOT_BYTES
    ensures var control' := control[i := c];
            && IsMemory(control', store)
            && SlotsOf(control', store) == SlotsOf(control, store)[i := SlotAt(control', store, i)]
  {
  }

  lemma AppendBytes(control: seq<Control>, store: seq<u8>, i: nat, data: seq<u8>)
    requires IsMemory(control, store) && i < SLOTS && control[i].busy && control[i].fill + |data| <= SLOT_BYTES
    ensures var c := control[i];
            var at := SLOT_BYTES * i + c.fill;
            var control' := control[i := c.(fill := c.fill + |data|)];
            var store' := store[..at] + data + store[at + |data|..];
            && IsMemory(control', store')
            && var s := SlotsOf(control, store);
               s[i].Open? && SlotsOf(control', store') == s[i := Open(s[i].id, s[i].got + data)]
  {
    var c := control[i];
    var at := SLOT_BYTES * i + c.fill;
    var store' := store[..at] + data + store[at + |data|..];
    assert store'[SLOT_BYTES * i..at + |data|] == store[SLOT_BYTES * i..at] + data;
    var control' := control[i := c.(fill := c.fill + |data|)];
    forall j: nat | j < SLOTS && j != i
      ensures SlotAt(control', store', j) == SlotAt(control, store, j)
    {
      var lo, hi := SLOT_BYTES * j, SLOT_BYTES * j + control[j].fill;
      assert store'[lo..hi] == store[lo..hi];
    }
    if i == 0 {} else if i == 1 {} else {}
  }

  class Reassembler {
    const subs: map<Uuid, Entry>
    var control: array<Control>
    var store: array<u8>
    var log: seq<Event>

    ghost predicate Valid()
      reads this, control, store
    {
      IsMemory(control[..], store[..])
    }

    ghost function View(): Slots
      requires Valid()
      reads this, control, store
    {
      SlotsOf(control[..], store[..])
    }

    constructor (subs: map<Uuid, Entry>)
      ensures Valid() && View() == NO_SLOTS && log == [] && this.subs == subs
      ensures fresh(control) && fresh(store)
    {
      this.subs := subs;
      control := new Control[SLOTS](_ => Control(false, Uuid(0, 0, 0), 0));
      store := new u8[SLOTS * SLOT_BYTES](_ => 0);
      log := [];
    }

    method SetSlot(i: nat, c: Control)
      requires Valid() && i < SLOTS && c.fill <= SLOT_BYTES
      modifies control
      ensures Valid() && control[..] == old(control[..])[i := c]
      ensures View() == old(View())[i := SlotAt(control[..], store[..], i)]
    {
      SetControl(control[..], store[..], i, c);
      control[i] := c;
      assert control[..] == old(control[..])[i := c];
    }

    method Release(i: nat)
      requires Valid() && i < SLOTS
      modifies control
      ensures Valid() && View() == old(View())[i := Free]
    {
      SetSlot(i, control[i].(busy := false));
    }

    /** The slot of `id`, a free one, or slot 0 taken from its owner; afterwards it belongs to `id`. */
    method Claim(id: Uuid) returns (slot: nat)
      requires Valid()
      modifies this`log, control
      ensures Valid()
      ensures slot == Target(old(View()), id) && slot < control.Length
      ensures control[slot].busy && control[slot].fill == |Gathered(old(View()), id)|
      ensures View() == old(View())[slot := Open(id, Gathered(old(View()), id))]
      ensures log == old(log) + if Evicts(old(View()), id) then [Evicted] else []
    {
      ghost var s := View();
      slot := 0;
      while slot < SLOTS && !(control[slot].busy && control[slot].owner == id)
        invariant slot <= SLOTS
        invariant forall j :: 0 <= j < slot ==> !Holds(View()[j], id)
      {
        slot := slot + 1;
      }
      if slot == SLOTS {
        slot := 0;
        while slot < SLOTS && control[slot].busy
          invariant slot <= SLOTS
          invariant forall j :: 0 <= j < slot ==> View()[j].Open?
        {
          slot := slot + 1;
        }
        if slot == SLOTS {
          slot := 0;
          log := log + [Evicted];
        }
        SetSlot(slot, Control(true, id, 0));
      }
      assert View()[slot] == Open(id, Gathered(s, id));
    }

    /** Adds `data` behind what slot `i` holds. */
    method Append(i: nat, data: seq<u8>)
      requires Valid() && i < SLOTS && control[i].busy && control[i].fill + |data| <= SLOT_BYTES
      modifies control, store
      ensures Valid()
      ensures var s := old(View()); View() == s[i := Open(s[i].id, s[i].got + data)]
      ensures control[i] == old(control[i]).(fill := old(control[i]).fill + |data|)
    {
      hide SlotsOf, SlotAt;
      AppendBytes(control[..], store[..], i, data);
      Copy(store, SLOT_BYTES * i + control[i].fill, data);
      control[i] := control[i].(fill := control[i].fill + |data|);
      assert control[..] == old(control[..])[i := control[i]];
    }

    /** What the handler is shown: the filled part of a busy slot's area. */
    function Area(i: nat): (bytes: seq<u8>)
      requires Valid() && i < SLOTS && control[i].busy
      reads this, control, store
      ensures View()[i] == Open(control[i].owner, bytes)
    {
      store[SLOT_BYTES * i..SLOT_BYTES * i + control[i].fill]
    }

    /** Hands a message over and frees its slot, once the entry's length has been gathered. */
    method Complete(i: nat, e: Entry)
      requires Valid() && i < SLOTS && control[i].busy
      modifies this`log, control
      ensures Valid()
      ensures var s := old(View()); var done := |s[i].got| >= e.need;
              && View() == (if done then s[i := Free] else s)
              && log == old(log) + if done && e.hasHandler then [Called(s[i].id, s[i].got)] else []
    {
      assert View()[i] == Open(control[i].owner, Area(i));
      if control[i].fill >= e.need {
        if e.hasHandler {
          log := log + [Called(control[i].owner, Area(i))];
        }
        Release(i);
      }
    }

    method AssembleFragment(id: Uuid, e: Entry, data: seq<u8>) returns (ok: bool)
      requires Valid()
      modifies this`log, control, store
      ensures Valid()
      ensures var o := Assemble(old(View()), id, e, data);
              View() == o.slots && log == old(log) + o.events && ok == o.ok
    {
      hide SlotsOf, SlotAt, IsMemory;
      ghost var s := View();
      ghost var got := Gathered(s, id);
      var i := Claim(id);
      ok := control[i].fill + |data| <= SLOT_BYTES;
      if ok {
        Append(i, data);
        assert View() == s[i := Open(id, got + data)] && View()[i] == Open(id, got + data);
        Complete(i, e);
        assert s[i := Open(id, got + data)][i := Free] == s[i := Free];
      } else {
        Release(i);
        log := log + [Overflowed];
        assert s[i := Open(id, got)][i := Free] == s[i := Free];
      }
    }

    /** The dispatcher. Returns false where the firmware returns -1. */
    method Dispatch(req: Frame) returns (ok: bool)
      requires Valid()
      modifies this`log, control, store
      ensures Valid()
      ensures var o := Write(subs, old(View()), req);
              View() == o.slots && log == old(log) + o.events && ok == o.ok
    {
      var id, flags, n := Id(req), req[3], req[4];
      if id !in subs {
        return false;
      }
      var e := subs[id];
      match e.kind {
        case 0 =>
          if e.hasHandler {
            log := log + [Called(id, req[5..5 + n])];
          }
        case 1 =>
          if e.hasQueue {
            log := log + [Queued(id)];
          }
        case 2 =>
          var assembled := AssembleFragment(id, e, req[5..5 + n]);
          if !assembled {
            return false;
          }
        case _ => return false;
      }
      if flags / 16 % 4 != 0 || e.kind == 2 {
        log := log + [Acked(id)];
      }
      return true;
    }
  }
}
