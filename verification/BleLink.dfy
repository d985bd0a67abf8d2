/**
 The comm-port task between the BLE chip and the main controller. One descriptor buffer holds the
 frame being offered: a 14-byte header whose last two bytes are the payload length (big endian), the
 pending payload, and a marker and CRC behind it. The peer's window frames drop acknowledged bytes
 from the front; each pass tops the payload up from the pipe and closes the frame again.
 */
module BleLink {
  import opened Memory

  const FRAME_MAX: nat := 0x7DE
  const PAYLOAD_MAX: nat := 0x7CA
  const HEADER: nat := 0xE
  const MARKER: seq<u8> := [0x55, 0xAA, 0x55, 0xAA]
  const TYPE_DATA: u8 := 0x01
  const TYPE_WINDOW: u8 := 0x10

  type Crc = seq<u8> -> u16

  function BigEndian(v: u16): (b: seq<u8>)
    ensures |b| == 2
  {
    [v as int / 256, v as int % 256]
  }

  /** The check of a received data frame of `n` bytes: marker, then CRC of all before it. */
  predicate Sound(crc: Crc, frame: seq<u8>, n: nat)
    requires n <= |frame|
  {
    n > 6 && frame[n - 6..n - 2] == MARKER && frame[n - 2..n] == BigEndian(crc(frame[..n - 2]))
  }

  /** One pass: the frame in the current receive slot, its reported length, what the pipe offers. */
  datatype Transfer = Transfer(frame: seq<u8>, length: nat, pipe: seq<u8>)

  type Input = i: Transfer | |i.frame| == FRAME_MAX && i.length <= FRAME_MAX
    witness Transfer(seq(FRAME_MAX, _ => 0), 0, [])

  function Window(frame: seq<u8>): nat
    requires |frame| == FRAME_MAX
  {
    256 * (frame[1] as int) + frame[2]
  }

  /** How many pending bytes a frame acknowledges. */
  function Drops(pending: nat, frame: seq<u8>): (d: nat)
    requires |frame| == FRAME_MAX
    ensures d <= pending
  {
    if frame[0] != TYPE_WINDOW || Window(frame) > FRAME_MAX then 0
    else if Window(frame) < pending then Window(frame) else pending
  }

  function Refill(room: nat, pipe: seq<u8>): (got: seq<u8>)
    ensures |got| <= room && got <= pipe
  {
    if |pipe| <= room then pipe else pipe[..room]
  }

  /** The frame on offer: `ack` is the CRC echo of the last data frame, zero if it was bad. */
  datatype Link = Link(pending: seq<u8>, ack: seq<u8>, slot: nat)

  predicate IsLink(l: Link) {
    |l.pending| <= PAYLOAD_MAX && |l.ack| == 2 && l.slot < 2
  }

  function Echo(crc: Crc, ack: seq<u8>, i: Input): seq<u8> {
    if i.frame[0] != TYPE_DATA then ack
    else if Sound(crc, i.frame, i.length) then i.frame[i.length - 2..i.length]
    else [0, 0]
  }

  function Next(crc: Crc, l: Link, i: Input): (l': Link)
    requires IsLink(l)
    ensures IsLink(l')
  {
    if i.length == 0 then l
    else
      var rest := l.pending[Drops(|l.pending|, i.frame)..];
      Link(rest + Refill(PAYLOAD_MAX - |rest|, i.pipe), Echo(crc, l.ack, i), 1 - l.slot)
  }

  class Task {
    const crc: Crc
    var desc: array<u8>
    var toggle: nat
    var armed: nat   // receive slot that the driver fills next

    ghost predicate Valid()
      reads this, desc
    {
      && desc.Length == FRAME_MAX && toggle < 2
      && Length() <= PAYLOAD_MAX
    }

    function Length(): nat
      requires desc.Length == FRAME_MAX
      reads this, desc
    {
      256 * (desc[0xC] as int) + desc[0xD]
    }

    ghost function View(): (l: Link)
      requires Valid()
      reads this, desc
      ensures IsLink(l) && l.ack == desc[8..10]
      ensures |l.pending| == 256 * (desc[0xC] as int) + desc[0xD] && l.pending == desc[14..14 + |l.pending|]
    {
      Link(desc[HEADER..HEADER + Length()], desc[8..10], toggle)
    }

    /** The bytes a transfer of the whole frame puts on the wire. */
    ghost function Offer(): seq<u8>
      requires Valid()
      reads this, desc
    {
      desc[..HEADER + Length() + 6]
    }

    constructor (crc: Crc)
      ensures Valid() && View() == Link([], [0, 0], 0) && this.crc == crc && fresh(desc) && armed == 0
    {
      this.crc := crc;
      desc := new u8[FRAME_MAX](i => if i == 0xA then 7 else if i == 0xB then 0xCF else 0);
      toggle, armed := 0, 0;
    }

    method SetLength(n: u16)
      requires desc.Length == FRAME_MAX
      modifies desc
      ensures desc[0xC..0xE] == BigEndian(n) && Length() == n
      ensures desc[..0xC] == old(desc[..0xC]) && desc[HEADER..] == old(desc[HEADER..])
    {
      desc[0xC] := n / 256;
      desc[0xD] := n % 256;
    }

    /** Checks a data frame and leaves its CRC, or zero, in the echo field. */
    method Check(frame: seq<u8>, n: nat) returns (ok: bool)
      requires desc.Length == FRAME_MAX && n <= |frame|
      modifies desc
      ensures ok <==> Sound(crc, frame, n)
      ensures desc[8..10] == if ok then frame[n - 2..n] else [0, 0]
      ensures desc[..8] == old(desc[..8]) && desc[10..] == old(desc[10..])
    {
      desc[8], desc[9] := 0, 0;
      ok := false;
      if n > 6 && frame[n - 6..n - 2] == MARKER {
        var c: int := crc(frame[..n - 2]);
        assert frame[n - 2..n] == [frame[n - 2], frame[n - 1]] && BigEndian(c) == [c / 256, c % 256];
        if frame[n - 2] == c / 256 && frame[n - 1] == c % 256 {
          desc[8], desc[9] := c / 256, c % 256;
          ok := true;
        }
      }
    }

    /** Moves the payload down over `win` acknowledged bytes, in place. */
    method Slide(pend: nat, win: nat)
      requires desc.Length == FRAME_MAX && win < pend <= PAYLOAD_MAX
      modifies desc
      ensures desc[..HEADER] == old(desc[..HEADER])
      ensures desc[HEADER..HEADER + pend - win] == old(desc[HEADER + win..HEADER + pend])
    {
      ghost var was := desc[..];
      for i := 0 to pend - win
        invariant forall j :: 0 <= j < HEADER ==> desc[j] == was[j]
        invariant forall j :: HEADER <= j < HEADER + i ==> desc[j] == was[j + win]
        invariant forall j :: HEADER + i <= j < FRAME_MAX ==> desc[j] == was[j]
      {
        desc[HEADER + i] := desc[HEADER + i + win];
      }
      assert desc[HEADER..HEADER + pend - win] == was[HEADER + win..HEADER + pend];
    }

    /** Marker and CRC behind the first `t` bytes. */
    method Close(t: nat)
      requires desc.Length == FRAME_MAX && HEADER < t <= HEADER + PAYLOAD_MAX
      modifies desc
      ensures desc[..t] == old(desc[..t])
      ensures Sound(crc, desc[..t + 6], t + 6)
    {
      Copy(desc, t, MARKER);
      ghost var body := desc[..t + 4];
      var c: int := crc(desc[..t + 4]);
      desc[t + 4], desc[t + 5] := c / 256, c % 256;
      assert desc[..t + 6] == body + BigEndian(c);
      assert desc[..t + 6][..t + 4] == body && body[..t] == old(desc[..t]) && body[t..] == MARKER;
    }

    /** Writes length, marker and CRC around a payload of `pend` bytes. */
    method Emit(pend: nat)
      requires desc.Length == FRAME_MAX && pend <= PAYLOAD_MAX
      modifies desc
      ensures Length() == pend && desc[8..10] == old(desc[8..10])
      ensures desc[HEADER..HEADER + pend] == old(desc[HEADER..HEADER + pend])
      ensures pend != 0 ==> Sound(crc, desc[..HEADER + pend + 6], HEADER + pend + 6)
    {
      hide Sound;
      ghost var was := desc[..];
      SetLength(pend);
      assert desc[..0xC][8..10] == was[8..10] && desc[HEADER..][..pend] == was[HEADER..HEADER + pend];
      if pend != 0 {
        ghost var inner := desc[..HEADER + pend];
        assert inner[8..10] == was[8..10] && inner[HEADER..] == was[HEADER..HEADER + pend];
        Close(HEADER + pend);
        assert desc[8..10] == inner[8..10] && desc[HEADER..HEADER + pend] == inner[HEADER..];
        assert desc[0xC] == inner[0xC] && desc[0xD] == inner[0xD];
      }
    }

    /** Clears the length and lets the received frame act; the result is what stays pending. */
    method Acknowledge(i: Input) returns (kept: nat)
      requires Valid() && i.length != 0
      modifies desc
      ensures var l := old(View());
              && kept == |l.pending| - Drops(|l.pending|, i.frame)
              && desc[HEADER..HEADER + kept] == l.pending[Drops(|l.pending|, i.frame)..]
              && desc[8..10] == Echo(crc, l.ack, i)
    {
      hide Sound;
      ghost var l, was := View(), desc[..];
      var pend := Length();
      SetLength(0);
      assert l.pending == was[HEADER..][..pend];
      assert desc[HEADER..HEADER + pend] == l.pending by {
        assert desc[HEADER..HEADER + pend] == desc[HEADER..][..pend];
      }
      assert desc[8..10] == l.ack by {
        assert desc[8..10] == desc[..0xC][8..10] && l.ack == was[..0xC][8..10];
      }
      kept := pend;
      var kind := i.frame[0];
      if kind == TYPE_DATA {
        ghost var behind := desc[10..];
        assert behind[4..4 + pend] == l.pending;
        var ok := Check(i.frame, i.length);
        assert desc[10..][4..4 + pend] == desc[HEADER..HEADER + pend];
      } else if kind == TYPE_WINDOW {
        var win := Window(i.frame);
        if win <= FRAME_MAX {
          if win < pend {
            ghost var header := desc[..HEADER];
            assert desc[HEADER + win..HEADER + pend] == l.pending[win..];
            Slide(pend, win);
            assert desc[8..10] == header[8..10];
            kept := pend - win;
          } else {
            kept := 0;
          }
        }
      }
      assert l.pending[0..] == l.pending;
    }

    /** Tops the kept bytes up and closes the frame. */
    method Refresh(kept: nat, pipe: seq<u8>)
      requires desc.Length == FRAME_MAX && kept <= PAYLOAD_MAX
      modifies desc
      ensures Valid() || toggle >= 2
      ensures Length() == kept + |Refill(PAYLOAD_MAX - kept, pipe)| && desc[8..10] == old(desc[8..10])
      ensures desc[HEADER..HEADER + Length()] == old(desc[HEADER..HEADER + kept]) + Refill(PAYLOAD_MAX - kept, pipe)
      ensures Length() != 0 ==> Sound(crc, desc[..HEADER + Length() + 6], HEADER + Length() + 6)
    {
      hide Sound;
      ghost var header := desc[..HEADER];
      assert header[8..10] == desc[8..10];
      var pend := TopUp(kept, pipe);
      assert desc[8..10] == header[8..10];
      Emit(pend);
    }

    method Advance(i: Input)
      requires Valid() && i.length != 0
      modifies desc
      ensures Valid()
      ensures View().pending == Next(crc, old(View()), i).pending && View().ack == Next(crc, old(View()), i).ack
      ensures View().pending != [] ==> Sound(crc, Offer(), |Offer()|)
    {
      hide Sound, Echo, Drops, Window;
      var kept := Acknowledge(i);
      Refresh(kept, i.pipe);
    }

    /** One pass of the task's loop. */
    method Pass(i: Input)
      requires Valid()
      modifies this, desc
      ensures Valid() && desc == old(desc)
      ensures View() == Next(crc, old(View()), i)
      ensures i.length != 0 && View().pending != [] ==> Sound(crc, Offer(), |Offer()|)
      ensures |Offer()| <= FRAME_MAX
      ensures armed == 1 - old(toggle)
    {
      hide Sound, Echo, Drops;
      armed := if toggle + 1 > 1 then 0 else toggle + 1;
      if i.length != 0 {
        Advance(i);
        toggle := armed;
      }
    }

    /** Reads the pipe into the space behind `pend` kept bytes. */
    method TopUp(pend: nat, pipe: seq<u8>) returns (total: nat)
      requires desc.Length == FRAME_MAX && pend <= PAYLOAD_MAX
      modifies desc
      ensures var got := Refill(PAYLOAD_MAX - pend, pipe);
              && total == pend + |got|
              && desc[HEADER..HEADER + total] == old(desc[HEADER..HEADER + pend]) + got
              && desc[..HEADER] == old(desc[..HEADER])
    {
      total := pend;
      if pend < PAYLOAD_MAX {
        var got := Refill(PAYLOAD_MAX - pend, pipe);
        Copy(desc, HEADER + pend, got);
        total := pend + |got|;
        assert desc[..HEADER] == desc[..HEADER + pend][..HEADER];
        assert desc[HEADER..HEADER + pend] == desc[..HEADER + pend][HEADER..];
        assert desc[HEADER..HEADER + total] == desc[HEADER..HEADER + pend] + got;
      } else {
        assert desc[HEADER..HEADER + pend] + [] == desc[HEADER..HEADER + pend];
      }
    }
  }

  // ---------------------------------------------------------------- one pass, in bytes of the frames

  /**
   A window frame drops exactly what it says, up to all there is; any other frame, and a window beyond
   the frame size, drops nothing. The rest is followed by as much of the pipe as there is, or as fits.
   */
  lemma PassExactly(crc: Crc, l: Link, i: Input)
    requires IsLink(l) && i.length != 0
    ensures var w := 256 * (i.frame[1] as int) + i.frame[2];
            var p := |l.pending|;
            var d := if i.frame[0] != 0x10 || w > 0x7DE then 0 else if w < p then w else p;
            var after := Next(crc, l, i).pending;
            && p - d <= |after| <= 0x7CA && after[..p - d] == l.pending[d..]
            && after[p - d..] <= i.pipe && (after[p - d..] == i.pipe || |after| == 0x7CA)
  {
  }

  lemma SoundExactly(crc: Crc, frame: seq<u8>, n: nat)
    requires n <= |frame|
    ensures Sound(crc, frame, n) <==>
              && n > 6
              && frame[n - 6] == 0x55 && frame[n - 5] == 0xAA && frame[n - 4] == 0x55 && frame[n - 3] == 0xAA
              && 256 * (frame[n - 2] as int) + frame[n - 1] == crc(frame[..n - 2])
  {
    if n > 6 {
      assert frame[n - 6..n - 2] == [frame[n - 6], frame[n - 5], frame[n - 4], frame[n - 3]];
      assert frame[n - 2..n] == [frame[n - 2], frame[n - 1]];
    }
  }

  /** The echo field: the CRC bytes of a data frame that is sound, zeros for one that is not, else as before. */
  lemma EchoExactly(crc: Crc, l: Link, i: Input)
    requires IsLink(l) && i.length != 0
    ensures var n := i.length; var f := i.frame;
            var sound := n > 6 && f[n - 6..n - 2] == [0x55, 0xAA, 0x55, 0xAA]
                         && 256 * (f[n - 2] as int) + f[n - 1] == crc(f[..n - 2]);
            Next(crc, l, i).ack ==
              if f[0] != 0x01 then l.ack else if sound then [f[n - 2], f[n - 1]] else [0, 0]
  {
    SoundExactly(crc, i.frame, i.length);
    hide Sound;
  }

  // ---------------------------------------------------------------- runs

  /** History beside the link: bytes read from the pipe, bytes dropped, payloads offered. */
  datatype History = History(link: Link, taken: seq<u8>, dropped: seq<u8>)

  function Run(crc: Crc, inputs: seq<Input>): (h: History)
    ensures IsLink(h.link)
  {
    if inputs == [] then History(Link([], [0, 0], 0), [], [])
    else
      var n := |inputs| - 1;
      var h, i := Run(crc, inputs[..n]), inputs[n];
      if i.length == 0 then h
      else
        var d := Drops(|h.link.pending|, i.frame);
        var room := PAYLOAD_MAX - (|h.link.pending| - d);
        History(Next(crc, h.link, i), h.taken + Refill(room, i.pipe), h.dropped + h.link.pending[..d])
  }

  /** The stream is conserved: what was dropped, then what is pending, is what the pipe gave. */
  lemma {:induction false} Conserved(crc: Crc, inputs: seq<Input>)
    ensures var h := Run(crc, inputs);
            && h.dropped + h.link.pending == h.taken && |h.link.pending| <= PAYLOAD_MAX
            && h.dropped <= h.taken && h.link.pending == h.taken[|h.dropped|..]
  {
    if inputs != [] {
      var n := |inputs| - 1;
      Conserved(crc, inputs[..n]);
      var h, i := Run(crc, inputs[..n]), inputs[n];
      if i.length != 0 {
        var p, d := h.link.pending, Drops(|h.link.pending|, i.frame);
        var got := Refill(PAYLOAD_MAX - (|p| - d), i.pipe);
        assert p == p[..d] + p[d..];
        Assoc(h.dropped, p[..d], p[d..]);
        Assoc(h.dropped + p[..d], p[d..], got);
      }
    }
  }

  /** The slot that the transfer reported to the next pass arrived in: the one armed a pass before. */
  function ArrivedIn(crc: Crc, inputs: seq<Input>): nat {
    if inputs == [] then 0
    else
      var n := |inputs| - 1;
      1 - Run(crc, inputs[..n]).link.slot
  }

  /**
   A pass reads the slot that its transfer arrived in exactly if the transfer before it was not empty: an
   empty one leaves the slot to be read behind, and the next pass looks at an older frame.
   */
  lemma ReadWhereItArrived(crc: Crc, inputs: seq<Input>)
    ensures Run(crc, inputs).link.slot == ArrivedIn(crc, inputs) <==>
              inputs == [] || inputs[|inputs| - 1].length != 0
  {
    hide Run, ArrivedIn;
    if inputs == [] {
      StartSlot(crc);
    } else {
      LastPass(crc, inputs);
    }
  }

  lemma StartSlot(crc: Crc)
    ensures Run(crc, []).link.slot == 0 && ArrivedIn(crc, []) == 0
  {
  }

  lemma LastPass(crc: Crc, inputs: seq<Input>)
    requires inputs != []
    ensures var n := |inputs| - 1; var l := Run(crc, inputs[..n]).link;
            && Run(crc, inputs).link.slot == (if inputs[n].length == 0 then l.slot else 1 - l.slot)
            && ArrivedIn(crc, inputs) == 1 - l.slot
  {
  }

  lemma NextSlot(crc: Crc, l: Link, i: Input)
    requires IsLink(l)
    ensures Next(crc, l, i).slot == if i.length == 0 then l.slot else 1 - l.slot
  {
  }
}
