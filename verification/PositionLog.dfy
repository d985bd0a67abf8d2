/**
 The e-shifter keeps its last position in a 254-byte page of non-volatile memory: a 6-byte header and
 124 two-byte slots, 0xFFFF meaning empty. Each update empties the live slot and fills the next one,
 so that the wear rotates over the page.
 */
module PositionLog {
  import opened Memory

  const PAGE: nat := 0xFE
  const SLOTS: nat := 0x7C
  const EMPTY: u16 := 0xFFFF
  const MAGIC: seq<u8> := [0x56, 0x4D, 0x46, 0x57]
  const HEADER: seq<u8> := [0x56, 0x4D, 0x46, 0x57, 2, 0]
  const NO_POSITION: int := -0x8000

  /** The low 16 bits of a value, and their reading as a signed 16-bit number. */
  function Low16(v: int): u16 {
    v % 0x1_0000
  }

  function Signed16(v: u16): int {
    if v < 0x8000 then v else v - 0x1_0000
  }

  function Bytes(v: u16): (b: seq<u8>)
    ensures |b| == 2
  {
    var w: int := v;
    [w % 256, w / 256]
  }

  // ---------------------------------------------------------------- the page

  predicate IsPage(p: seq<u8>) {
    |p| == PAGE
  }

  function Slot(p: seq<u8>, k: nat): u16
    requires IsPage(p) && k < SLOTS
  {
    p[6 + 2 * k] + 256 * (p[7 + 2 * k] as int)
  }

  function Patch(p: seq<u8>, at: nat, bytes: seq<u8>): (q: seq<u8>)
    requires IsPage(p) && at + |bytes| <= PAGE
    ensures IsPage(q)
  {
    p[..at] + bytes + p[at + |bytes|..]
  }

  /** How a block write went: stored; failed but blanked by the retry; or failed twice, changing nothing. */
  datatype Io = Good | Blanked | Lost

  function Blank(n: nat): (b: seq<u8>)
    ensures |b| == n
  {
    seq(n, _ => 0xFF)
  }

  function Send(p: seq<u8>, at: nat, bytes: seq<u8>, io: Io): (q: seq<u8>)
    requires IsPage(p) && at + |bytes| <= PAGE
    ensures IsPage(q)
  {
    match io
    case Good => Patch(p, at, bytes)
    case Blanked => Patch(p, at, Blank(|bytes|))
    case Lost => p
  }

  // ---------------------------------------------------------------- scanning

  /** The first slot from `k` on that is not empty. */
  function Scan(p: seq<u8>, k: nat): (r: Option<nat>)
    requires IsPage(p) && k <= SLOTS
    ensures r.Some? ==> k <= r.value < SLOTS && Slot(p, r.value) != EMPTY
    ensures forall j :: k <= j < (if r.Some? then r.value else SLOTS) ==> Slot(p, j) == EMPTY
    decreases SLOTS - k
  {
    if k == SLOTS then None else if Slot(p, k) != EMPTY then Some(k) else Scan(p, k + 1)
  }

  /** The context fields beside the page. `sel` is twice the live slot. */
  datatype Log = Log(page: seq<u8>, valid: bool, err: bool, position: int, sel: u8)

  predicate IsLog(l: Log) {
    IsPage(l.page) && l.sel <= 246 && l.sel % 2 == 0
  }

  /** Formats the page; a failed first attempt sets the error flag. */
  function Format(l: Log, io: Io): (l': Log)
    requires IsLog(l)
    ensures IsLog(l')
  {
    l.(page := Send(l.page, 0, HEADER + Blank(0xF8), io), valid := false, err := l.err || !io.Good?)
  }

  /** Reads the page back into the context. */
  function ReadStatus(l: Log, readOk: bool, io: Io): (l': Log)
    requires IsLog(l)
    ensures IsLog(l')
  {
    var m := l.(sel := 0, position := NO_POSITION);
    if !readOk then m
    else
      var v := m.(valid := true);
      if l.page[..4] != MAGIC then Format(v, io)
      else if l.page[4] == 2 then
        (match Scan(l.page, 0)
         case Some(k) => v.(position := Signed16(Low16(Slot(l.page, k) as int - 0x8000)), sel := 2 * k)
         case None => v)
      else if l.page[4] != 1 then v.(err := true)
      else Format(v, io)
  }

  /** The outcomes one update meets: wrap clear, slot write, read back, formatting. */
  datatype Outcome = Outcome(clear: Io, store: Io, readOk: bool, format: Io)

  predicate Accepts(l: Log, position: int) {
    !l.err && (position < l.position - 3 || l.position + 3 < position)
  }

  predicate Wraps(l: Log) {
    l.sel as int + 10 > 0xFF
  }

  function Stored(l: Log, position: int, o: Outcome): (l': Log)
    requires IsLog(l)
    ensures IsLog(l')
  {
    var marker := Bytes(EMPTY);
    var m := if Wraps(l) then l.(page := Send(l.page, l.sel as int + 6, marker, o.clear), sel := 0) else l;
    m.(page := Send(m.page, m.sel as int + 6, marker + Bytes(Low16(position)), o.store), valid := false)
  }

  function Update(l: Log, position: int, o: Outcome): (l': Log)
    requires IsLog(l)
    ensures IsLog(l')
  {
    var m := if Accepts(l, position) then Stored(l, position, o) else l;
    if !m.valid && !m.err then ReadStatus(m, o.readOk, o.format) else m
  }

  class Shifter {
    const page: array<u8>
    var valid: bool
    var err: bool
    var position: int
    var sel: u8

    ghost function View(): Log
      reads this, page
    {
      Log(page[..], valid, err, position, sel)
    }

    ghost predicate Valid()
      reads this, page
    {
      IsLog(View())
    }

    constructor (page: array<u8>)
      requires page.Length == PAGE
      ensures Valid() && this.page == page && !valid && !err && position == NO_POSITION && sel == 0
    {
      this.page := page;
      valid, err, position, sel := false, false, NO_POSITION, 0;
    }

    /** The block write with its blanking retry. The page bound is what every caller must respect. */
    method SignalSend(at: nat, bytes: seq<u8>, io: Io) returns (failed: bool)
      requires page.Length == PAGE && at + |bytes| <= PAGE
      modifies page
      ensures page[..] == Send(old(page[..]), at, bytes, io) && failed == !io.Good?
    {
      match io {
        case Good =>
          Copy(page, at, bytes);
          return false;
        case Blanked =>
          Copy(page, at, Blank(|bytes|));
          return true;
        case Lost => return true;
      }
    }

    method EmitHeader(io: Io)
      requires Valid()
      modifies this`valid, this`err, page
      ensures Valid() && View() == Format(old(View()), io)
    {
      valid := false;
      var failed := SignalSend(0, HEADER + Blank(0xF8), io);
      if failed {
        err := true;
      }
    }

    /** The scan over the slots of a formatted page. */
    method FindLive()
      requires Valid() && sel == 0 && position == NO_POSITION
      modifies this`sel, this`position
      ensures Valid()
      ensures match Scan(page[..], 0)
              case Some(k) => position == Signed16(Low16(Slot(page[..], k) as int - 0x8000)) && sel == 2 * k
              case None => position == NO_POSITION && sel == 0
    {
      var k := 0;
      while k != SLOTS
        invariant k <= SLOTS && Scan(page[..], 0) == Scan(page[..], k)
        decreases SLOTS - k
      {
        var sample := Slot(page[..], k);
        if sample != EMPTY {
          position := Signed16(Low16(sample as int - 0x8000));
          sel := 2 * k;
          return;
        }
        k := k + 1;
      }
    }

    method ReadPositionStatus(readOk: bool, io: Io) returns (r: int)
      requires Valid()
      modifies this, page
      ensures Valid() && View() == ReadStatus(old(View()), readOk, io) && r == position
    {
      hide Scan, Format, Slot, Signed16, Low16;
      sel, position := 0, NO_POSITION;
      if !readOk {
        return position;
      }
      valid := true;
      if page[..4] == MAGIC {
        if page[4] == 2 {
          FindLive();
          return position;
        }
        if page[4] != 1 {
          err := true;
          return position;
        }
      }
      EmitHeader(io);
      return position;
    }

    method StorePosition(p: int, o: Outcome)
      requires Valid()
      modifies this`valid, this`sel, page
      ensures Valid() && View() == Stored(old(View()), p, o)
    {
      hide Send, Bytes;
      valid := false;
      if sel as int + 10 > 0xFF {
        var failed := SignalSend((sel as int + 6) % 256, Bytes(EMPTY), o.clear);
        sel := 0;
      }
      var failed := SignalSend((sel as int + 6) % 256, Bytes(EMPTY) + Bytes(Low16(p)), o.store);
    }

    method SendPositionSignal(p: int, o: Outcome) returns (r: int)
      requires Valid()
      modifies this, page
      ensures Valid() && View() == Update(old(View()), p, o) && r == position
    {
      hide Stored, ReadStatus;
      if !err && (p < position - 3 || position + 3 < p) {
        StorePosition(p, o);
      }
      if !valid && !err {
        r := ReadPositionStatus(o.readOk, o.format);
      } else {
        r := position;
      }
    }
  }

  // ---------------------------------------------------------------- one live slot

  /** The page is formatted and slot `k`, if any, is the only one that is not empty. */
  predicate OnlyLive(p: seq<u8>, live: Option<nat>)
    requires IsPage(p)
  {
    && p[..6] == HEADER
    && (live.Some? ==> live.value < SLOTS && Slot(p, live.value) != EMPTY)
    && forall j :: 0 <= j < SLOTS && live != Some(j) ==> Slot(p, j) == EMPTY
  }

  /** Page and context agree on the live slot and its value. */
  predicate Synced(l: Log, live: Option<nat>) {
    && IsLog(l) && !l.err && OnlyLive(l.page, live)
    && l.sel == (if live.Some? then 2 * live.value else 0)
    && l.position == if live.Some? then Signed16(Low16(Slot(l.page, live.value) as int - 0x8000)) else NO_POSITION
  }

  lemma PatchedSlots(p: seq<u8>, k: nat, v: u16, w: u16, j: nat)
    requires IsPage(p) && k + 1 < SLOTS && j < SLOTS
    ensures var q := Patch(p, 6 + 2 * k, Bytes(v) + Bytes(w));
            && q[..6] == p[..6]
            && Slot(q, j) == if j == k then v else if j == k + 1 then w else Slot(p, j)
  {
  }

  lemma BlankIsEmpty()
    ensures Blank(2) == Bytes(EMPTY) && Blank(4) == Bytes(EMPTY) + Bytes(EMPTY)
  {
  }

  /** What the slot write leaves: a new value, nothing, or what was there. */
  function Written(store: Io, position: int): u16 {
    if store.Good? then Low16(position) else EMPTY
  }

  function LiveAfter(live: Option<nat>, position: int, o: Outcome): Option<nat> {
    var next := if live.Some? && live.value + 1 < SLOTS then live.value + 1 else 1;
    if o.store.Good? && Low16(position) != EMPTY then Some(next)
    else if live == Some(SLOTS - 1) then (if o.clear.Lost? then live else None)
    else if o.store.Lost? then live
    else None
  }

  /** The slot write in the middle of the page: it empties the live slot and fills the next. */
  lemma StoreNext(p: seq<u8>, live: Option<nat>, position: int, store: Io)
    requires IsPage(p) && OnlyLive(p, live) && live != Some(SLOTS - 1)
    ensures var k := if live.Some? then live.value else 0;
            var q := Send(p, 6 + 2 * k, Bytes(EMPTY) + Bytes(Low16(position)), store);
            var live' := if store.Lost? then live
                         else if store.Good? && Low16(position) != EMPTY then Some(k + 1) else None;
            OnlyLive(q, live') && (store.Good? && live'.Some? ==> Slot(q, k + 1) == Low16(position))
  {
    hide Slot, Patch;
    var k := if live.Some? then live.value else 0;
    BlankIsEmpty();
    PatchedSlots(p, k, EMPTY, Written(store, position), 0);
    forall j | 0 <= j < SLOTS
      ensures var q := Patch(p, 6 + 2 * k, Bytes(EMPTY) + Bytes(Written(store, position)));
              Slot(q, j) == if j == k then EMPTY else if j == k + 1 then Written(store, position) else Slot(p, j)
    {
      PatchedSlots(p, k, EMPTY, Written(store, position), j);
    }
  }

  /** The wrap clear empties the last slot, unless it is lost. */
  lemma ClearLast(p: seq<u8>, clear: Io)
    requires IsPage(p) && OnlyLive(p, Some(SLOTS - 1)) && !clear.Lost?
    ensures OnlyLive(Send(p, 252, Bytes(EMPTY), clear), None)
  {
  }

  /** Reading a formatted page finds its live slot. */
  lemma ReadSyncs(l: Log, live: Option<nat>, io: Io)
    requires IsLog(l) && !l.err && OnlyLive(l.page, live)
    ensures var m := ReadStatus(l, true, io); Synced(m, live) && m.valid && m.page == l.page
  {
  }

  /** At most one slot is occupied. */
  predicate OneLive(p: seq<u8>)
    requires IsPage(p)
  {
    forall j, k :: 0 <= j < k < SLOTS ==> Slot(p, j) == EMPTY || Slot(p, k) == EMPTY
  }

  /** A value written to slot 1 while slot `k` is live: two live slots, unless the write covers slot `k`. */
  lemma WriteAhead(p: seq<u8>, k: nat, v: u16)
    requires IsPage(p) && k < SLOTS && OnlyLive(p, Some(k)) && v != EMPTY
    ensures var q := Patch(p, 6, Bytes(EMPTY) + Bytes(v));
            (OneLive(q) <==> k <= 1) && (k > 1 ==> Slot(q, 1) != EMPTY && Slot(q, k) != EMPTY)
  {
    hide Slot, Patch;
    forall j | 0 <= j < SLOTS
      ensures var q := Patch(p, 6, Bytes(EMPTY) + Bytes(v));
              Slot(q, j) == if j == 0 then EMPTY else if j == 1 then v else Slot(p, j)
    {
      PatchedSlots(p, 0, EMPTY, v, j);
    }
    if k > 1 {
      var q := Patch(p, 6, Bytes(EMPTY) + Bytes(v));
      assert Slot(q, 1) != EMPTY && Slot(q, k) != EMPTY;
    }
  }

  /** A write of nothing but empty slots ahead of the last slot leaves that one live. */
  lemma EmptyAhead(p: seq<u8>, v: u16, store: Io)
    requires IsPage(p) && OnlyLive(p, Some(SLOTS - 1)) && (store.Good? ==> v == EMPTY)
    ensures OnlyLive(Send(p, 6, Bytes(EMPTY) + Bytes(v), store), Some(SLOTS - 1))
  {
  }

  lemma OnlyLiveIsOneLive(p: seq<u8>, live: Option<nat>)
    requires IsPage(p) && OnlyLive(p, live)
    ensures OneLive(p) && Scan(p, 0) == live
  {
  }

  // ---------------------------------------------------------------- what an update keeps

  /** The one way to a second live slot: the wrap clear is lost and a value is then stored. */
  predicate Doubles(l: Log, position: int, o: Outcome) {
    Accepts(l, position) && Wraps(l) && o.clear.Lost? && o.store.Good? && Low16(position) != EMPTY
  }

  lemma StoredLive(l: Log, live: Option<nat>, position: int, o: Outcome)
    requires Synced(l, live) && Accepts(l, position) && !Doubles(l, position, o)
    ensures var m := Stored(l, position, o); var live' := LiveAfter(live, position, o);
            && OnlyLive(m.page, live') && !m.err && !m.valid
            && (live' == Some(0) ==> m.page == l.page)
            && (o.store.Good? && Low16(position) != EMPTY ==> Slot(m.page, live'.value) == Low16(position))
  {
    hide OnlyLive, Send, Slot, Bytes;
    if live == Some(SLOTS - 1) {
      if o.clear.Lost? {
        EmptyAhead(l.page, Low16(position), o.store);
        LostClear(l, o);
      } else {
        ClearLast(l.page, o.clear);
        StoreNext(Send(l.page, 252, Bytes(EMPTY), o.clear), None, position, o.store);
      }
    } else {
      StoreNext(l.page, live, position, o.store);
      LostClear(l, o);
    }
  }

  lemma LostClear(l: Log, o: Outcome)
    requires IsLog(l)
    ensures o.clear.Lost? && Wraps(l) ==> Send(l.page, l.sel as int + 6, Bytes(EMPTY), o.clear) == l.page
    ensures o.store.Lost? && !Wraps(l) ==> forall p: int :: Stored(l, p, o).page == l.page
  {
  }

  /** What doubling leaves: the new value in slot 1 and the old one in the last slot. */
  lemma LostClearLeavesTwo(l: Log, position: int, o: Outcome)
    requires Synced(l, Some(SLOTS - 1)) && Doubles(l, position, o)
    ensures var p := Stored(l, position, o).page;
            !OneLive(p) && Slot(p, 1) != EMPTY && Slot(p, SLOTS - 1) != EMPTY
  {
    hide OneLive, OnlyLive, Slot, Bytes;
    WriteAhead(l.page, SLOTS - 1, Low16(position));
    LostClear(l, o);
  }

  /** Context and page agree. */
  predicate InStep(l: Log) {
    IsLog(l) && Synced(l, Scan(l.page, 0))
  }

  lemma InStepIsOneLive(l: Log)
    ensures InStep(l) ==> OneLive(l.page)
  {
  }

  lemma SyncedIsInStep(l: Log, live: Option<nat>)
    requires Synced(l, live)
    ensures InStep(l) && live == Scan(l.page, 0)
  {
  }

  /** The live slot after an update of a log in step. */
  function LiveNext(l: Log, position: int, o: Outcome): Option<nat>
    requires IsLog(l)
  {
    var live := Scan(l.page, 0);
    if Accepts(l, position) then LiveAfter(live, position, o) else live
  }

  predicate ReadsBack(l: Log, position: int) {
    Accepts(l, position) || !l.valid
  }

  /**
   The read back fails and would have found something. A failed read leaves the context as it is for an
   empty page, and for a zero in slot 0, which no update ever stores there.
   */
  predicate Loses(l: Log, position: int, o: Outcome)
    requires IsLog(l)
  {
    ReadsBack(l, position) && !o.readOk &&
    var live := LiveNext(l, position, o);
    live.Some? && !(live == Some(0) && Slot(l.page, 0) == 0)
  }

  predicate Stays(l: Log, position: int, o: Outcome)
    requires IsLog(l)
  {
    !Doubles(l, position, o) && !Loses(l, position, o)
  }

  /** What a failed read back leaves. */
  lemma FailedRead(m: Log, live: Option<nat>, io: Io)
    requires IsLog(m) && !m.err && OnlyLive(m.page, live)
    ensures var r := ReadStatus(m, false, io);
            && r.page == m.page && r.sel == 0 && r.position == NO_POSITION && !r.err && r.valid == m.valid
            && (InStep(r) <==> live.None? || (live == Some(0) && Slot(m.page, 0) == 0))
            && (InStep(r) ==> Synced(r, live))
  {
  }

  /**
   One update of a log in step that meets the condition: context and page agree again, the live slot is
   the one that the outcomes say, and a value that was stored is in it.
   */
  lemma UpdateKeepsSync(l: Log, live: Option<nat>, position: int, o: Outcome)
    requires IsLog(l) && Synced(l, live) && Stays(l, position, o)
    ensures var m := Update(l, position, o);
            && live == Scan(l.page, 0) && Synced(m, LiveNext(l, position, o))
            && (if Accepts(l, position) then
                  o.store.Good? && Low16(position) != EMPTY ==>
                    Slot(m.page, LiveAfter(live, position, o).value) == Low16(position)
                else m.page == l.page)
  {
    SyncedIsInStep(l, live);
    hide OnlyLive, Stored, ReadStatus, Slot, LiveAfter, Scan;
    if Accepts(l, position) {
      StoredLive(l, live, position, o);
      ReadSyncs(Stored(l, position, o), LiveAfter(live, position, o), o.format);
      FailedRead(Stored(l, position, o), LiveAfter(live, position, o), o.format);
    } else if !l.valid {
      ReadSyncs(l, live, o.format);
      FailedRead(l, live, o.format);
    }
  }

  /** An update that stores leaves the page as `Stored` does; the read back does not change it. */
  lemma UpdatedPage(l: Log, position: int, o: Outcome)
    requires IsLog(l) && Synced(l, Scan(l.page, 0))
    ensures Update(l, position, o).page == if Accepts(l, position) then Stored(l, position, o).page else l.page
  {
    var m := if Accepts(l, position) then Stored(l, position, o) else l;
    UpdatedHeader(l, position, o);
    assert m.page[..4] == m.page[..6][..4] == MAGIC;
    assert m.page[4] == m.page[..6][4] == 2;
  }

  lemma UpdatedHeader(l: Log, position: int, o: Outcome)
    requires IsLog(l) && l.page[..6] == HEADER
    ensures Stored(l, position, o).page[..6] == HEADER && Stored(l, position, o).err == l.err
  {
  }

  /**
   For every update of a log in step: the page keeps at most one live slot exactly when the update does
   not double it, and the context stays in step exactly when, besides, no read back loses the slot.
   */
  lemma UpdateExactly(l: Log, position: int, o: Outcome)
    requires InStep(l)
    ensures OneLive(Update(l, position, o).page) <==> !Doubles(l, position, o)
    ensures InStep(Update(l, position, o)) <==> Stays(l, position, o)
  {
    hide Slot, OneLive, Stored;
    var live := Scan(l.page, 0);
    UpdatedPage(l, position, o);
    OnlyLiveIsOneLive(l.page, live);
    var m := Update(l, position, o);
    if Doubles(l, position, o) {
      LostClearLeavesTwo(l, position, o);
      InStepIsOneLive(m);
    } else {
      hide OnlyLive, Scan, LiveAfter;
      if Accepts(l, position) {
        StoredLive(l, live, position, o);
        OnlyLiveIsOneLive(m.page, LiveAfter(live, position, o));
      }
      if Stays(l, position, o) {
        UpdateKeepsSync(l, live, position, o);
        SyncedIsInStep(m, LiveNext(l, position, o));
      } else if Accepts(l, position) {
        FailedRead(Stored(l, position, o), LiveAfter(live, position, o), o.format);
      } else {
        FailedRead(l, live, o.format);
      }
    }
  }

  /**
   And what a lost read back leads to: unless the slot was one of the first two, the next stored value
   goes to slot 1 and the old slot stays live.
   */
  lemma FailedReadLeavesTwo(l: Log, position: int, o: Outcome, next: int)
    requires InStep(l) && !Doubles(l, position, o) && ReadsBack(l, position) && !o.readOk
    requires LiveNext(l, position, o).Some?
    requires Accepts(Update(l, position, o), next) && Low16(next) != EMPTY
    ensures OneLive(Update(Update(l, position, o), next, WORKING).page) <==> LiveNext(l, position, o).value <= 1
  {
    var live := Scan(l.page, 0);
    var lost := if Accepts(l, position) then Stored(l, position, o) else l;
    hide Slot, OneLive, OnlyLive, Scan, LiveAfter, Bytes, Send;
    if Accepts(l, position) {
      StoredLive(l, live, position, o);
    }
    var k := LiveNext(l, position, o).value;
    FailedRead(lost, Some(k), o.format);
    var m := Update(l, position, o);
    WriteAhead(m.page, k, Low16(next));
    SecondPage(m, Some(k), next);
  }

  lemma SecondPage(m: Log, live: Option<nat>, next: int)
    requires IsLog(m) && !m.err && m.sel == 0 && OnlyLive(m.page, live) && Accepts(m, next)
    ensures Update(m, next, WORKING).page == Patch(m.page, 6, Bytes(EMPTY) + Bytes(Low16(next)))
  {
  }

  // ---------------------------------------------------------------- runs

  const WORKING: Outcome := Outcome(Good, Good, true, Good)

  datatype Request = Request(position: int, o: Outcome)

  function Run(l: Log, rs: seq<Request>): (l': Log)
    requires IsLog(l)
    ensures IsLog(l')
  {
    if rs == [] then l else var n := |rs| - 1; Update(Run(l, rs[..n]), rs[n].position, rs[n].o)
  }

  /** Every update of the run meets the condition where it happens. */
  predicate AllStay(l: Log, rs: seq<Request>)
    requires IsLog(l)
  {
    forall n :: 0 <= n < |rs| ==> Stays(Run(l, rs[..n]), rs[n].position, rs[n].o)
  }

  lemma FewerStay(l: Log, rs: seq<Request>)
    requires IsLog(l) && rs != []
    ensures var k := |rs| - 1;
            AllStay(l, rs) <==> AllStay(l, rs[..k]) && Stays(Run(l, rs[..k]), rs[k].position, rs[k].o)
  {
    hide Stays, Run;
    assert forall n :: 0 <= n < |rs| - 1 ==> rs[..|rs| - 1][..n] == rs[..n];
  }

  predicate AllInStep(l: Log, rs: seq<Request>)
    requires IsLog(l)
  {
    forall n :: 0 <= n <= |rs| ==> InStep(Run(l, rs[..n]))
  }

  lemma FewerInStep(l: Log, rs: seq<Request>)
    requires IsLog(l) && rs != []
    ensures AllInStep(l, rs) <==> AllInStep(l, rs[..|rs| - 1]) && InStep(Run(l, rs))
  {
    hide InStep, Run;
    var k := |rs| - 1;
    forall n | 0 <= n <= k
      ensures rs[..k][..n] == rs[..n]
    {
    }
    if AllInStep(l, rs) {
      LastInStep(l, rs);
      forall n | 0 <= n <= k
        ensures InStep(Run(l, rs[..k][..n]))
      {
      }
    }
    if AllInStep(l, rs[..k]) && InStep(Run(l, rs)) {
      forall n | 0 <= n <= |rs|
        ensures InStep(Run(l, rs[..n]))
      {
        if n == |rs| {
          assert rs[..n] == rs;
        } else {
          assert InStep(Run(l, rs[..k][..n]));
        }
      }
    }
  }

  lemma LastInStep(l: Log, rs: seq<Request>)
    requires IsLog(l) && AllInStep(l, rs)
    ensures InStep(Run(l, rs))
  {
    assert rs[..|rs|] == rs;
  }

  /** A run stays in step after each of its updates exactly when each of them meets the condition. */
  lemma {:induction false} RunExactly(l: Log, rs: seq<Request>)
    requires InStep(l)
    ensures AllInStep(l, rs) <==> AllStay(l, rs)
  {
    if rs != [] {
      var k := |rs| - 1;
      RunExactly(l, rs[..k]);
      FewerStay(l, rs);
      FewerInStep(l, rs);
      assert Run(l, rs) == Update(Run(l, rs[..k]), rs[k].position, rs[k].o);
      hide Update, Stays, InStep, AllInStep, AllStay, Run;
      if AllInStep(l, rs[..k]) {
        LastInStep(l, rs[..k]);
        UpdateExactly(Run(l, rs[..k]), rs[k].position, rs[k].o);
      }
    } else {
      assert rs[..0] == [];
    }
  }

  /** The values stored since the log was last empty, oldest first, if it held `before` at the start. */
  function Since(l: Log, before: seq<int>, rs: seq<Request>): seq<int>
    requires IsLog(l)
  {
    if rs == [] then before
    else
      var n := |rs| - 1;
      var m, held, p, o := Run(l, rs[..n]), Since(l, before, rs[..n]), rs[n].position, rs[n].o;
      if !Accepts(m, p) then held
      else if o.store.Good? && Low16(p) != EMPTY then held + [p]
      else if (if Wraps(m) then o.clear.Lost? else o.store.Lost?) then held
      else []
  }

  /** Slot of the n-th store on an empty page: 1, 2, ..., 123, 1, ... */
  function SlotOf(n: nat): (k: nat)
    ensures 1 <= k < SLOTS
  {
    n % (SLOTS - 1) + 1
  }

  lemma SlotsCycle(n: nat)
    ensures SlotOf(0) == 1 && SlotOf(n) <= 123 && SlotOf(n + 1) == if SlotOf(n) == 123 then 1 else SlotOf(n) + 1
  {
  }

  function SlotAfter(n: nat): (live: Option<nat>)
    ensures live.Some? ==> 1 <= live.value < SLOTS
  {
    if n == 0 then None else Some(SlotOf(n - 1))
  }

  lemma NextSlot(n: nat, position: int, o: Outcome)
    ensures o.store.Good? && Low16(position) != EMPTY ==> LiveAfter(SlotAfter(n), position, o) == SlotAfter(n + 1)
  {
  }

  /** The page carries the last of the stored values, in the slot that their number says, and only it. */
  predicate Carries(l: Log, stores: seq<int>) {
    var n := |stores|;
    && IsLog(l) && Synced(l, SlotAfter(n))
    && (n > 0 ==> Slot(l.page, SlotOf(n - 1)) == Low16(stores[n - 1])
                  && l.position == Signed16(Low16(stores[n - 1] - 0x8000)))
  }

  lemma LivePosition(l: Log, k: nat, v: int)
    requires k < SLOTS && Synced(l, Some(k)) && Slot(l.page, k) == Low16(v)
    ensures l.position == Signed16(Low16(v - 0x8000))
  {
    assert v == 0x1_0000 * (v / 0x1_0000) + Low16(v);
  }

  lemma WrapsExactly(l: Log, live: Option<nat>)
    requires Synced(l, live)
    ensures Wraps(l) <==> live == Some(SLOTS - 1)
  {
  }

  lemma CarriesOn(l: Log, s: seq<int>, p: int, o: Outcome)
    requires Carries(l, s) && Stays(l, p, o)
    ensures var m := Update(l, p, o);
            Carries(m, if !Accepts(l, p) then s
                       else if o.store.Good? && Low16(p) != EMPTY then s + [p]
                       else if (if Wraps(l) then o.clear.Lost? else o.store.Lost?) then s
                       else [])
  {
    hide Update, Accepts, Synced, Slot, SlotOf, Signed16, Stays, Wraps, Scan;
    var m, live := Update(l, p, o), SlotAfter(|s|);
    UpdateKeepsSync(l, live, p, o);
    NextSlot(|s|, p, o);
    WrapsExactly(l, live);
    if Accepts(l, p) && o.store.Good? && Low16(p) != EMPTY {
      LivePosition(m, SlotOf(|s|), p);
    } else if |s| > 0 && LiveNext(l, p, o) == live {
      KeptSlot(l, SlotOf(|s| - 1), p, o);
      LivePosition(m, SlotOf(|s| - 1), s[|s| - 1]);
    }
  }

  /** A live slot that stays live without a store keeps its value. */
  lemma KeptSlot(l: Log, k: nat, p: int, o: Outcome)
    requires 1 <= k < SLOTS && Synced(l, Some(k)) && Stays(l, p, o)
    ensures LiveNext(l, p, o) == Some(k) && !(Accepts(l, p) && o.store.Good? && Low16(p) != EMPTY) ==>
              Slot(Update(l, p, o).page, k) == Slot(l.page, k)
  {
    SyncedIsInStep(l, Some(k));
    UpdatedPage(l, p, o);
    hide Scan, OnlyLive, ReadStatus, Update;
    if Accepts(l, p) && LiveNext(l, p, o) == Some(k) && !(o.store.Good? && Low16(p) != EMPTY) {
      LostClear(l, o);
      if k == SLOTS - 1 {
        KeptLast(l, p, o);
      }
    }
  }

  lemma KeptLast(l: Log, p: int, o: Outcome)
    requires IsLog(l) && l.sel == 246 && o.clear.Lost? && (o.store.Good? ==> Low16(p) == EMPTY)
    ensures Slot(Stored(l, p, o).page, SLOTS - 1) == Slot(l.page, SLOTS - 1)
  {
  }

  /**
   After any run in which every update meets the condition, whatever else fails, and from any page that
   carries stored values or none: the live slot is the one that the number of stores since the log was last
   empty says, it holds the last of them, and no other slot is occupied.
   */
  lemma {:induction false} LogHoldsLast(l: Log, before: seq<int>, rs: seq<Request>)
    requires IsLog(l) && Carries(l, before) && AllStay(l, rs)
    ensures Carries(Run(l, rs), Since(l, before, rs))
  {
    if rs != [] {
      FewerStay(l, rs);
      hide Update, Accepts, Carries, Stays, AllStay, Wraps, Synced;
      var k := |rs| - 1;
      LogHoldsLast(l, before, rs[..k]);
      CarriesOn(Run(l, rs[..k]), Since(l, before, rs[..k]), rs[k].position, rs[k].o);
    }
  }

  /** An empty page carries nothing, and a restart on a page with a live slot goes on from its value. */
  lemma RestartCarries(l: Log, live: Option<nat>)
    requires Synced(l, live) && live != Some(0)
    ensures Carries(l, if live.Some? then seq(live.value, _ => Slot(l.page, live.value) as int) else [])
  {
    if live.Some? {
      LivePosition(l, live.value, Slot(l.page, live.value));
    }
  }

  /** With working memory the condition always holds, so all of this applies to every such run. */
  lemma WorkingStays(l: Log, position: int)
    requires IsLog(l)
    ensures Stays(l, position, WORKING)
  {
  }

  /** Formatting, which is what a page without the header gets, leads to that fresh state. */
  lemma FormatIsFresh(l: Log)
    requires IsLog(l) && !l.err && l.page[..4] != MAGIC
    ensures Synced(ReadStatus(l, true, Good), None)
  {
  }

  /**
   The dead band lies around the logged value less 0x8000, not around the value itself; an empty log
   counts as a zero.
   */
  lemma RefusedExactly(l: Log, live: Option<nat>, position: int)
    requires Synced(l, live)
    ensures var v: int := if live.Some? then Slot(l.page, live.value) else 0;
            !Accepts(l, position) <==> v - 0x8000 - 3 <= position <= v - 0x8000 + 3
  {
  }

  /** So sending the value just stored once more is never suppressed, whatever the value. */
  lemma RepeatIsStored(l: Log, k: nat, position: int)
    requires k < SLOTS && Synced(l, Some(k)) && Slot(l.page, k) == Low16(position)
    ensures Accepts(l, position)
  {
  }

  // ---------------------------------------------------------------- what a read back does with a page

  /**
   By the page's first bytes: a position page is left alone, a page of the old type or without the header
   is formatted, and any other type sets the error flag.
   */
  lemma ReadByType(l: Log, io: Io)
    requires IsLog(l)
    ensures var m := ReadStatus(l, true, io);
            var known := l.page[..4] == [0x56, 0x4D, 0x46, 0x57];
            if known && l.page[4] == 2 then m.page == l.page && m.valid && m.err == l.err
            else if known && l.page[4] != 1 then m.page == l.page && m.valid && m.err
            else !m.valid && (m.err <==> l.err || !io.Good?) && m.position == -0x8000 && m.sel == 0
  {
  }

  /** A page formatted without failure: the six header bytes, and 0xFF to its end. */
  lemma FormattedPage(l: Log)
    requires IsLog(l)
    ensures var p := Format(l, Good).page;
            p[..6] == [0x56, 0x4D, 0x46, 0x57, 2, 0] && forall k :: 6 <= k < 254 ==> p[k] == 0xFF
  {
  }

  /** Once the error flag is set, no update changes anything any more. */
  lemma ErrorStops(l: Log, position: int, o: Outcome)
    requires IsLog(l) && l.err
    ensures Update(l, position, o) == l
  {
  }

  lemma PatchedBytes(p: seq<u8>, at: nat, v: u16)
    requires IsPage(p) && at + 4 <= PAGE
    ensures var q := Patch(p, at, Bytes(EMPTY) + Bytes(v));
            q[at] == 0xFF && q[at + 1] == 0xFF && q[at + 2] == v % 256 && q[at + 3] == v / 256
  {
  }

  /** Where a store puts its value: the two bytes behind the live slot, or of slot 1, low byte first. */
  lemma StoredBytes(l: Log, position: int, o: Outcome)
    requires IsLog(l) && o.store.Good?
    ensures var p := Stored(l, position, o).page;
            var at := if l.sel as int + 10 > 255 then 8 else l.sel as int + 8;
            && p[at] == position % 0x1_0000 % 256 && p[at + 1] == position % 0x1_0000 / 256
            && p[at - 2] == 0xFF && p[at - 1] == 0xFF
  {
    hide Bytes, Patch;
    var m := if Wraps(l) then l.(page := Send(l.page, l.sel as int + 6, Bytes(EMPTY), o.clear), sel := 0) else l;
    PatchedBytes(m.page, m.sel as int + 6, Low16(position));
  }
}
