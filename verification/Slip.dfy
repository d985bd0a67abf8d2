/**
 Serial Line IP framing (RFC 1055, section "PROTOCOL") of the motor controller's serial link. A
 frame is END, the escaped payload and its escaped CRC-16, END.
 */
module Slip {
  import opened Memory
  import opened Crc16
  import SerialFifo

  const END: bv8 := 0xC0
  const ESC: bv8 := 0xDB
  const ESC_END: bv8 := 0xDC
  const ESC_ESC: bv8 := 0xDD

  // ---------------------------------------------------------------- sending

  function EscapeByte(b: bv8): seq<bv8> {
    if b == END then [ESC, ESC_END] else if b == ESC then [ESC, ESC_ESC] else [b]
  }

  function Escape(m: seq<bv8>): seq<bv8> {
    if m == [] then [] else var n := |m| - 1; Escape(m[..n]) + EscapeByte(m[n])
  }

  /** Payload and trailer, as both ends compute the CRC over them. */
  function Body(m: seq<bv8>): seq<bv8> {
    m + Trailer(m)
  }

  function Encode(m: seq<bv8>): seq<bv8> {
    [END] + Escape(Body(m)) + [END]
  }

  function EncodeAll(ms: seq<seq<bv8>>): seq<bv8> {
    if ms == [] then [] else Encode(ms[0]) + EncodeAll(ms[1..])
  }

  /** What goes out for a buffer of words: their low bytes, and the CRC over the words as they are. */
  function LowBytes(w: seq<bv16>): (m: seq<bv8>)
    ensures |m| == |w|
  {
    seq(|w|, k requires 0 <= k < |w| => Low(Reg(w[k])))
  }

  function EncodeWords(w: seq<bv16>): seq<bv8> {
    var c := CrcWords(INIT, w);
    [END] + Escape(LowBytes(w) + [Low(c), High(c)]) + [END]
  }

  lemma LowOfByte(b: bv8)
    ensures Low(Reg(Byte(b).v)) == b
  {
  }

  /** For a buffer of bytes that is the encoded message. */
  lemma EncodeOfBytes(m: seq<bv8>)
    ensures EncodeWords(Words(m)) == Encode(m)
  {
    hide Escape, Crc, CrcWords, Low, High, Byte;
    CrcOfWords(INIT, m);
    forall k | 0 <= k < |m|
      ensures LowBytes(Words(m))[k] == m[k]
    {
      LowOfByte(m[k]);
    }
    assert LowBytes(Words(m)) == m;
  }

  class Sender {
    var sent: seq<bv8>

    constructor ()
      ensures sent == []
    {
      sent := [];
    }

    method PutEscaped(b: bv8)
      modifies this
      ensures sent == old(sent) + EscapeByte(b)
    {
      if b == END {
        sent := sent + [ESC];
        sent := sent + [ESC_END];
      } else if b == ESC {
        sent := sent + [ESC];
        sent := sent + [ESC_ESC];
      } else {
        sent := sent + [b];
      }
    }

    method PutPayload(len: u16, src: array<bv16>)
      requires len <= src.Length
      modifies this
      ensures sent == old(sent) + Escape(LowBytes(src[..len]))
    {
      hide EscapeByte, Low;
      ghost var m := LowBytes(src[..len]);
      var n := len;
      while n > 0
        invariant n <= len
        invariant sent == old(sent) + Escape(m[..len - n])
      {
        var b := Low(Reg(src[len - n]));
        ghost var k := len - n;
        assert m[..k + 1][..k] == m[..k] && m[..k + 1][k] == b;
        Assoc(old(sent), Escape(m[..k]), EscapeByte(b));
        assert Escape(m[..k + 1]) == Escape(m[..k]) + EscapeByte(b);
        PutEscaped(b);
        n := n - 1;
      }
      assert m[..len] == m;
    }

    method EncodeSend(len: u16, src: array<bv16>)
      requires len <= src.Length
      modifies this
      ensures sent == old(sent) + EncodeWords(src[..len])
    {
      hide EncodeWords, CrcWords, Step, Escape, EscapeByte, LowBytes, Low, High;
      var endWord := ComputeBuf(len, src, 0xFFFF);
      var lo, hi := Low(Reg(endWord)), High(Reg(endWord));
      sent := sent + [END];
      PutPayload(len, src);
      PutEscaped(lo);
      PutEscaped(hi);
      sent := sent + [END];
      EncodeParts(old(sent), src[..len], lo, hi);
    }
  }

  lemma EscapeBody(m: seq<bv8>, lo: bv8, hi: bv8)
    ensures Escape(m + [lo, hi]) == Escape(m) + EscapeByte(lo) + EscapeByte(hi)
  {
    var b := m + [lo, hi];
    var n := |m|;
    assert b[..n + 1][..n] == m && b[..n + 1] == m + [lo];
    assert b[..|b| - 1] == b[..n + 1];
  }

  lemma Regroup(before: seq<bv8>, a: seq<bv8>, e: seq<bv8>, lo: seq<bv8>, hi: seq<bv8>)
    ensures before + a + e + lo + hi + a == before + (a + (e + lo + hi) + a)
  {
  }

  lemma EncodeParts(before: seq<bv8>, w: seq<bv16>, lo: bv8, hi: bv8)
    requires Low(CrcWords(INIT, w)) == lo && High(CrcWords(INIT, w)) == hi
    ensures before + [END] + Escape(LowBytes(w)) + EscapeByte(lo) + EscapeByte(hi) + [END] == before + EncodeWords(w)
  {
    hide Escape, EscapeByte, LowBytes, CrcWords, Low, High;
    EscapeBody(LowBytes(w), lo, hi);
    Regroup(before, [END], Escape(LowBytes(w)), EscapeByte(lo), EscapeByte(hi));
  }

  // ---------------------------------------------------------------- receiving

  datatype Mode = Idle | InFrame | Escaped

  /** Decoder state; `data` is the receive buffer up to its tail. */
  datatype Decoder = Decoder(mode: Mode, data: seq<bv8>)

  datatype Signal = Going | Done | Bad

  function Store(d: Decoder, b: bv8, limit: nat): Decoder {
    Decoder(InFrame, if |d.data| < limit then d.data + [b] else d.data)
  }

  function Receive(d: Decoder, b: bv8, limit: nat): (Decoder, Signal) {
    match d.mode
    case Idle => (if b == END then Decoder(InFrame, []) else d, Going)
    case InFrame =>
      if b == END then (d.(mode := Idle), Done)
      else if b == ESC then (d.(mode := Escaped), Going)
      else (Store(d, b, limit), Going)
    case Escaped =>
      if b == ESC_ESC then (Store(d, ESC, limit), Going)
      else if b == ESC_END then (Store(d, END, limit), Going)
      else (d.(mode := Idle), Bad)
  }

  lemma DoneKeepsData(d: Decoder, b: bv8, limit: nat)
    ensures Receive(d, b, limit).1.Done? ==> Receive(d, b, limit).0.data == d.data
  {
  }

  function Decode(d: Decoder, bytes: seq<bv8>, limit: nat): Decoder {
    if bytes == [] then d
    else var n := |bytes| - 1; Receive(Decode(d, bytes[..n], limit), bytes[n], limit).0
  }

  /** The receive buffer at each frame end. */
  function Completed(d: Decoder, bytes: seq<bv8>, limit: nat): seq<seq<bv8>> {
    if bytes == [] then []
    else
      var n := |bytes| - 1;
      var before := Decode(d, bytes[..n], limit);
      Completed(d, bytes[..n], limit)
        + if Receive(before, bytes[n], limit).1.Done? then [before.data] else []
  }

  /** Some byte after an escape byte was not one of the two codes. */
  predicate Garbled(d: Decoder, bytes: seq<bv8>, limit: nat) {
    bytes != [] &&
    var n := |bytes| - 1;
    Garbled(d, bytes[..n], limit) || Receive(Decode(d, bytes[..n], limit), bytes[n], limit).1.Bad?
  }

  lemma NothingReceived(d: Decoder, limit: nat)
    ensures Decode(d, [], limit) == d && Completed(d, [], limit) == [] && !Garbled(d, [], limit)
  {
  }

  lemma OneMoreByte(d: Decoder, bytes: seq<bv8>, k: nat, limit: nat)
    requires k < |bytes|
    ensures var before := Decode(d, bytes[..k], limit); var r := Receive(before, bytes[k], limit);
            && Decode(d, bytes[..k + 1], limit) == r.0
            && Completed(d, bytes[..k + 1], limit)
                 == Completed(d, bytes[..k], limit) + (if r.1.Done? then [before.data] else [])
            && (Garbled(d, bytes[..k + 1], limit) <==> Garbled(d, bytes[..k], limit) || r.1.Bad?)
  {
    assert bytes[..k + 1][..k] == bytes[..k];
  }

  class Receiver {
    const limit: nat
    const data: array<bv8>
    const fifo: SerialFifo.Fifo
    var mode: Mode
    var tail: nat

    ghost predicate Valid()
      reads this, fifo, fifo.buf
    {
      && data.Length == limit && tail <= limit
      && fifo.Valid() && fifo.buf != data
    }

    ghost function View(): Decoder
      requires Valid()
      reads this, data, fifo, fifo.buf
    {
      Decoder(mode, data[..tail])
    }

    constructor (limit: nat, fifo: SerialFifo.Fifo)
      requires fifo.Valid()
      ensures Valid() && View() == Decoder(Idle, []) && this.limit == limit && this.fifo == fifo
      ensures fresh(data)
    {
      this.limit := limit;
      this.fifo := fifo;
      data := new bv8[limit](_ => 0);
      mode, tail := Idle, 0;
    }

    method Put(b: bv8)
      requires Valid() && mode == InFrame
      modifies this`tail, data
      ensures Valid() && View() == Store(old(View()), b, limit)
    {
      if tail < limit {
        data[tail] := b;
        tail := tail + 1;
        assert data[..tail - 1] == old(data[..tail]);
      }
    }

    method Take(b: bv8) returns (signal: Signal)
      requires Valid()
      modifies this`mode, this`tail, data
      ensures Valid() && (View(), signal) == Receive(old(View()), b, limit)
    {
      signal := Going;
      match mode {
        case Idle =>
          if b == END {
            tail := 0;
            mode := InFrame;
          }
        case InFrame =>
          if b == END {
            mode := Idle;
            signal := Done;
          } else if b == ESC {
            mode := Escaped;
          } else {
            Put(b);
          }
        case Escaped =>
          if b == ESC_ESC {
            mode := InFrame;
            Put(ESC);
          } else if b == ESC_END {
            mode := InFrame;
            Put(END);
          } else {
            mode := Idle;
            signal := Bad;
          }
      }
    }

    /**
     Handles `first` and then whatever the ring still holds, up to the end of a frame. Returns 0 at
     a frame end, else 2 after a bad escape and 1 without one; `used` bytes were consumed.
     */
    method RxByte(first: bv8) returns (result: nat, ghost used: nat)
      requires Valid()
      modifies this`mode, this`tail, data, fifo, fifo.buf
      ensures Valid() && fifo.buf == old(fifo.buf)
      ensures var bytes := [first] + old(fifo.Contents()); var d := old(View());
              && 1 <= used <= |bytes| && fifo.Contents() == bytes[used..]
              && View() == Decode(d, bytes[..used], limit)
              && Completed(d, bytes[..used], limit) == (if result == 0 then [View().data] else [])
              && (result != 0 ==> used == |bytes|)
              && (result == 0 || result == if Garbled(d, bytes, limit) then 2 else 1)
    {
      hide Receive, Decode, Completed, Garbled;
      ghost var bytes, d := [first] + fifo.Contents(), View();
      NothingReceived(d, limit);
      assert bytes[..0] == [];
      result := 1;
      var b := first;
      used := 0;
      while true
        invariant Valid() && fifo.buf == old(fifo.buf)
        invariant used < |bytes| && b == bytes[used] && fifo.Contents() == bytes[used + 1..]
        invariant View() == Decode(d, bytes[..used], limit)
        invariant Completed(d, bytes[..used], limit) == []
        invariant result == if Garbled(d, bytes[..used], limit) then 2 else 1
        decreases |bytes| - used
      {
        OneMoreByte(d, bytes, used, limit);
        DoneKeepsData(View(), b, limit);
        var signal := Take(b);
        used := used + 1;
        match signal {
          case Done => return 0, used;
          case Bad => result := 2;
          case Going =>
        }
        var next := fifo.Pop();
        if next.None? {
          assert used == |bytes| && bytes[..used] == bytes;
          break;
        }
        b := next.value;
      }
    }
  }

  // ---------------------------------------------------------------- the round trip

  lemma {:induction false} DecodeAppend(d: Decoder, a: seq<bv8>, b: seq<bv8>, limit: nat)
    ensures Decode(d, a + b, limit) == Decode(Decode(d, a, limit), b, limit)
    ensures Completed(d, a + b, limit) == Completed(d, a, limit) + Completed(Decode(d, a, limit), b, limit)
    ensures Garbled(d, a + b, limit) <==> Garbled(d, a, limit) || Garbled(Decode(d, a, limit), b, limit)
  {
    if b == [] {
      assert a + b == a;
    } else {
      hide Receive;
      var n := |b| - 1;
      assert (a + b)[..|a + b| - 1] == a + b[..n];
      DecodeAppend(d, a, b[..n], limit);
      var before := Decode(Decode(d, a, limit), b[..n], limit);
      Assoc(Completed(d, a, limit), Completed(Decode(d, a, limit), b[..n], limit),
            if Receive(before, b[n], limit).1.Done? then [before.data] else []);
    }
  }

  lemma DecodeOne(d: Decoder, b: bv8, limit: nat)
    ensures Decode(d, [b], limit) == Receive(d, b, limit).0
    ensures Completed(d, [b], limit) == if Receive(d, b, limit).1.Done? then [d.data] else []
    ensures Garbled(d, [b], limit) <==> Receive(d, b, limit).1.Bad?
  {
  }

  /** Inside a frame, the escape codes of a byte store just that byte. */
  lemma DecodeEscapedByte(d: Decoder, b: bv8, limit: nat)
    requires d.mode.InFrame?
    ensures Decode(d, EscapeByte(b), limit) == Store(d, b, limit)
    ensures Completed(d, EscapeByte(b), limit) == [] && !Garbled(d, EscapeByte(b), limit)
  {
    if b == END || b == ESC {
      var code := if b == END then ESC_END else ESC_ESC;
      DecodeOne(d, ESC, limit);
      DecodeOne(d.(mode := Escaped), code, limit);
      DecodeAppend(d, [ESC], [code], limit);
      assert EscapeByte(b) == [ESC] + [code];
    } else {
      DecodeOne(d, b, limit);
    }
  }

  /** What the receive buffer can hold of `s`. */
  function Capped(s: seq<bv8>, limit: nat): seq<bv8> {
    if |s| <= limit then s else s[..limit]
  }

  lemma StoreCapped(s: seq<bv8>, b: bv8, limit: nat)
    ensures Store(Decoder(InFrame, Capped(s, limit)), b, limit) == Decoder(InFrame, Capped(s + [b], limit))
  {
  }

  lemma NothingEscaped(x: seq<bv8>, limit: nat)
    requires |x| <= limit
    ensures var d := Decoder(InFrame, x);
            && Decode(d, Escape([]), limit) == Decoder(InFrame, Capped(x + [], limit))
            && Completed(d, Escape([]), limit) == [] && !Garbled(d, Escape([]), limit)
  {
    assert x + [] == x;
  }

  lemma {:induction false} DecodeEscaped(x: seq<bv8>, m: seq<bv8>, limit: nat)
    requires |x| <= limit
    ensures var d := Decoder(InFrame, x);
            && Decode(d, Escape(m), limit) == Decoder(InFrame, Capped(x + m, limit))
            && Completed(d, Escape(m), limit) == [] && !Garbled(d, Escape(m), limit)
  {
    hide EscapeByte, Decode, Completed, Garbled, Store, Capped;
    var d := Decoder(InFrame, x);
    if m == [] {
      NothingEscaped(x, limit);
    } else {
      var n := |m| - 1;
      DecodeEscaped(x, m[..n], limit);
      StoreCapped(x + m[..n], m[n], limit);
      var mid := Decoder(InFrame, Capped(x + m[..n], limit));
      DecodeEscapedByte(mid, m[n], limit);
      DecodeAppend(d, Escape(m[..n]), EscapeByte(m[n]), limit);
      Assoc(x, m[..n], [m[n]]);
      assert m[..n] + [m[n]] == m && Escape(m) == Escape(m[..n]) + EscapeByte(m[n]);
      hide Escape;
    }
  }

  /** From idle, one encoded frame is one completion and leaves the decoder idle. */
  lemma DecodeFrame(d: Decoder, m: seq<bv8>, limit: nat)
    requires d.mode.Idle?
    ensures Decode(d, Encode(m), limit) == Decoder(Idle, Capped(Body(m), limit))
    ensures Completed(d, Encode(m), limit) == [Capped(Body(m), limit)] && !Garbled(d, Encode(m), limit)
  {
    hide Escape, Decode, Completed, Garbled, Trailer;
    var open, full := Decoder(InFrame, []), Decoder(InFrame, Capped(Body(m), limit));
    DecodeOne(d, END, limit);
    DecodeEscaped([], Body(m), limit);
    assert [] + Body(m) == Body(m);
    DecodeOne(full, END, limit);
    DecodeAppend(d, [END], Escape(Body(m)), limit);
    DecodeAppend(d, [END] + Escape(Body(m)), [END], limit);
  }

  function Bodies(ms: seq<seq<bv8>>, limit: nat): seq<seq<bv8>> {
    if ms == [] then [] else [Capped(Body(ms[0]), limit)] + Bodies(ms[1..], limit)
  }

  /** Any number of frames: one completion each, in order, whatever their lengths. */
  lemma {:induction false} DecodeFrames(d: Decoder, ms: seq<seq<bv8>>, limit: nat)
    requires d.mode.Idle?
    ensures Decode(d, EncodeAll(ms), limit).mode.Idle? && !Garbled(d, EncodeAll(ms), limit)
    ensures Completed(d, EncodeAll(ms), limit) == Bodies(ms, limit)
    decreases |ms|
  {
    if ms != [] {
      hide Decode, Completed, Garbled, Encode, Body;
      DecodeFrame(d, ms[0], limit);
      DecodeFrames(Decoder(Idle, Capped(Body(ms[0]), limit)), ms[1..], limit);
      DecodeAppend(d, Encode(ms[0]), EncodeAll(ms[1..]), limit);
    } else {
      assert EncodeAll(ms) == [];
    }
  }

  lemma {:induction false} BodyAt(ms: seq<seq<bv8>>, limit: nat, k: nat)
    requires k < |ms|
    ensures |Bodies(ms, limit)| == |ms| && Bodies(ms, limit)[k] == Capped(Body(ms[k]), limit)
  {
    hide Body;
    if k == 0 {
      BodiesLength(ms, limit);
    } else {
      BodyAt(ms[1..], limit, k - 1);
    }
  }

  lemma BodiesLength(ms: seq<seq<bv8>>, limit: nat)
    ensures |Bodies(ms, limit)| == |ms|
  {
  }

  /**
   Frames that fit come out as sent: the k-th completed buffer is the k-th payload followed by its
   CRC, low byte first, and the CRC over that whole buffer is zero.
   */
  lemma RoundTrip(d: Decoder, ms: seq<seq<bv8>>, limit: nat, k: nat)
    requires d.mode.Idle? && k < |ms| && |ms[k]| + 2 <= limit
    ensures var done := Completed(d, EncodeAll(ms), limit);
            && |done| == |ms| && done[k] == ms[k] + Trailer(ms[k])
            && Crc(INIT, done[k]) == ZERO
  {
    hide Decode, Completed, Garbled, EncodeAll, Crc;
    DecodeFrames(d, ms, limit);
    BodyAt(ms, limit, k);
    ResidueExactly(ms[k], Trailer(ms[k])[0], Trailer(ms[k])[1]);
  }

  // ---------------------------------------------------------------- the bytes on the wire

  /** The two reserved bytes and their codes, as RFC 1055 numbers them. */
  lemma ReservedBytes(b: bv8)
    ensures EscapeByte(0xC0) == [0xDB, 0xDC] && EscapeByte(0xDB) == [0xDB, 0xDD]
    ensures b != 0xC0 && b != 0xDB ==> EscapeByte(b) == [b]
  {
  }

  /** An escape byte is followed by one of the two codes. */
  predicate WellEscaped(s: seq<bv8>) {
    forall k :: 0 <= k < |s| && s[k] == 0xDB ==> k + 1 < |s| && (s[k + 1] == 0xDC || s[k + 1] == 0xDD)
  }

  lemma {:induction false} EscapeIsClean(m: seq<bv8>)
    ensures 0xC0 !in Escape(m) && WellEscaped(Escape(m))
  {
    if m != [] {
      EscapeIsClean(m[..|m| - 1]);
    }
  }

  /** A frame begins and ends with the delimiter, which occurs nowhere else in it. */
  lemma DelimitersOnlyAtEnds(m: seq<bv8>)
    ensures var e := Encode(m);
            && |e| >= 4 && e[0] == 0xC0 && e[|e| - 1] == 0xC0
            && 0xC0 !in e[1..|e| - 1] && WellEscaped(e[1..|e| - 1])
  {
    EscapeIsClean(Body(m));
    EscapeGrows(Body(m));
    hide Escape, Crc;
    assert Encode(m)[1..|Encode(m)| - 1] == Escape(Body(m));
  }

  lemma {:induction false} EscapeGrows(m: seq<bv8>)
    ensures |m| <= |Escape(m)| <= 2 * |m|
  {
    if m != [] {
      EscapeGrows(m[..|m| - 1]);
    }
  }

  /** A bad escape code ends the frame without completing it; what follows is ignored up to a delimiter. */
  lemma BadCodeDropsFrame(d: Decoder, bytes: seq<bv8>, limit: nat)
    requires d.mode.Escaped? && bytes != [] && bytes[0] != 0xDC && bytes[0] != 0xDD && 0xC0 !in bytes[1..]
    ensures Decode(d, bytes, limit) == Decoder(Idle, d.data) && Completed(d, bytes, limit) == []
    ensures Garbled(d, bytes, limit)
  {
    DecodeOne(d, bytes[0], limit);
    IdleIgnores(Decoder(Idle, d.data), bytes[1..], limit);
    DecodeAppend(d, [bytes[0]], bytes[1..], limit);
    assert bytes == [bytes[0]] + bytes[1..];
    hide Decode, Completed, Garbled;
  }

  lemma {:induction false} IdleIgnores(d: Decoder, bytes: seq<bv8>, limit: nat)
    requires d.mode.Idle? && 0xC0 !in bytes
    ensures Decode(d, bytes, limit) == d && Completed(d, bytes, limit) == [] && !Garbled(d, bytes, limit)
  {
    if bytes != [] {
      IdleIgnores(d, bytes[..|bytes| - 1], limit);
    }
  }
}
