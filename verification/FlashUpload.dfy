/**
 The BLE "ftp_command" handler: a named flash region is opened, written in 512-byte blocks, verified
 by CRC and closed. Flash is NOR: erasing sets bytes to 0xFF, writing can only clear bits.
 */
module FlashUpload {
  import opened Memory

  const BLOCK: nat := 0x200
  const PAGE: nat := 0x1000
  const BLANK: bv8 := 0xFF

  /** A region is erased whole when opened, or page by page as its blocks arrive. */
  datatype Region = Region(eraseOnOpen: bool, offset: u32, size: u32, hasCallback: bool)

  const APP_UPDATE: string := "app_update"
  const FMNA_BLOB: string := "fmna_blob"

  /**
   A command with the fields its parser delivered; a field that is missing or has the wrong type is
   `None`. `name` is the name buffer after the copy.
   */
  datatype Command =
    | Malformed
    | Unknown(cmd: u32)
    | Open(size: Option<u32>, name: Option<string>)
    | Close
    | Write(index: Option<u32>, data: Option<seq<bv8>>)
    | Verify(hasSize: bool, size: Option<u32>, hasCrc: bool, crc: Option<u32>)
    | Read(index: Option<u32>, count: u32)

  datatype Reply = Reply(status: u32, crc: Option<u16>)

  type Crc = seq<bv8> -> u16

  // ---------------------------------------------------------------- flash

  function Nor(old_: bv8, new_: bv8): bv8 {
    old_ & new_
  }

  lemma NorFacts(x: bv8)
    ensures Nor(BLANK, x) == x && Nor(x, x) == x
  {
  }

  function Erased(flash: seq<bv8>, at: nat, n: nat): (f: seq<bv8>)
    requires at + n <= |flash|
    ensures |f| == |flash|
  {
    flash[..at] + seq(n, _ => BLANK) + flash[at + n..]
  }

  function Programmed(flash: seq<bv8>, at: nat, data: seq<bv8>): (f: seq<bv8>)
    requires at + |data| <= |flash|
    ensures |f| == |flash|
  {
    flash[..at] + seq(|data|, i requires 0 <= i < |data| => Nor(flash[at + i], data[i])) + flash[at + |data|..]
  }

  // ---------------------------------------------------------------- the handler

  datatype Ftp = Ftp(flash: seq<bv8>, active: Option<nat>, buf: seq<bv8>, calls: seq<u8>)

  /** Regions lie in the flash and consist of whole pages. */
  predicate WellPlaced(regions: seq<Region>, n: nat) {
    && |regions| == 2
    && IsPlaced(regions[0], n) && IsPlaced(regions[1], n)
  }

  predicate IsPlaced(r: Region, n: nat) {
    r.offset % PAGE == 0 && r.size % PAGE == 0 && r.offset + r.size <= n
  }

  predicate IsFtp(regions: seq<Region>, f: Ftp) {
    && WellPlaced(regions, |f.flash|) && |f.buf| == BLOCK
    && (f.active.Some? ==> f.active.value < 2)
  }

  function RegionNamed(name: string): Option<nat> {
    if APP_UPDATE <= name then Some(0) else if FMNA_BLOB <= name then Some(1) else None
  }

  /** The CRC of a flash range; `stray` stands for one that leaves the flash or the address space. */
  function RangeCrc(crc: Crc, flash: seq<bv8>, at: nat, n: nat, stray: u16): u16 {
    if at + n <= |flash| then crc(flash[at..at + n]) else stray
  }

  function Notify(regions: seq<Region>, f: Ftp, code: u8): seq<u8>
    requires IsFtp(regions, f)
  {
    if f.active.Some? && regions[f.active.value].hasCallback then f.calls + [code] else f.calls
  }

  function Padded(n: nat): nat {
    if n % 4 != 0 then n + (4 - n % 4) else n
  }

  function Buffered(buf: seq<bv8>, data: seq<bv8>): (b: seq<bv8>)
    requires |data| <= |buf|
    ensures |b| == |buf|
  {
    data + buf[|data|..]
  }

  /** One block: erase its page when it opens one, then program the padded bytes. */
  function Stored(r: Region, flash: seq<bv8>, index: nat, bytes: seq<bv8>): (f: seq<bv8>)
    requires IsPlaced(r, |flash|)
    requires index < r.size / BLOCK && |bytes| <= BLOCK
    ensures |f| == |flash|
  {
    var at := r.offset + index * BLOCK;
    var ready := if !r.eraseOnOpen && index % 8 == 0 then Erased(flash, at, PAGE) else flash;
    Programmed(ready, at, bytes)
  }

  function Handle(regions: seq<Region>, crc: Crc, f: Ftp, c: Command, stray: u16): (r: (Ftp, Reply))
    requires IsFtp(regions, f)
    ensures IsFtp(regions, r.0) && |r.0.flash| == |f.flash|
  {
    match c
    case Malformed => (f, Reply(6, None))
    case Unknown(_) => (f, Reply(7, None))
    case Open(size, name) =>
      if f.active.Some? then (f, Reply(2, None))
      else if size.None? || name.None? then (f, Reply(8, None))
      else
        (match RegionNamed(name.value)
         case None => (f, Reply(4, None))
         case Some(i) =>
           var r := regions[i];
           if r.size < size.value then (f, Reply(3, None))
           else
             (f.(active := Some(i),
                 flash := if r.eraseOnOpen then Erased(f.flash, r.offset, r.size) else f.flash),
              Reply(0, None)))
    case Close => (f.(active := None, calls := Notify(regions, f, 2)), Reply(0, None))
    case Write(index, data) =>
      if f.active.None? then (f, Reply(7, None))
      else if index.None? || data.None? || |data.value| > BLOCK then (f, Reply(8, None))
      else
        var r := regions[f.active.value];
        var buf := Buffered(f.buf, data.value);
        if r.size / BLOCK <= index.value then (f.(buf := buf), Reply(5, None))
        else
          (f.(buf := buf, flash := Stored(r, f.flash, index.value, buf[..Padded(|data.value|)])), Reply(0, None))
    case Verify(hasSize, size, hasCrc, given) =>
      if (hasSize && (!hasCrc || size.None?)) || given.None? then (f.(active := None), Reply(8, None))
      else if hasSize && (if f.active.None? then stray
                          else RangeCrc(crc, f.flash, regions[f.active.value].offset, size.value, stray))
                         != given.value then
        (f.(active := None, calls := Notify(regions, f, 1)), Reply(1, None))
      else (f.(calls := Notify(regions, f, 0)), Reply(0, None))
    case Read(index, count) =>
      if f.active.None? then (f, Reply(9, None))
      else if index.None? then (f, Reply(8, None))
      else
        var r := regions[f.active.value];
        if (index.value + count) % 0x1_0000_0000 <= r.size / BLOCK then
          (f, Reply(0, Some(RangeCrc(crc, f.flash, r.offset + index.value * BLOCK, count * BLOCK, stray))))
        else (f, Reply(8, None))
  }

  lemma BufferedAs(was: seq<bv8>, now: seq<bv8>, data: seq<bv8>)
    requires |data| <= |was| && now == was[..0] + data + was[|data|..]
    ensures now == Buffered(was, data)
  {
  }

  class Handler {
    const regions: seq<Region>
    const crc: Crc
    const flash: array<bv8>
    const buf: array<bv8>
    var active: Option<nat>
    var calls: seq<u8>

    ghost function View(): Ftp
      reads this, flash, buf
    {
      Ftp(flash[..], active, buf[..], calls)
    }

    ghost predicate Valid()
      reads this, flash, buf
    {
      flash != buf && IsFtp(regions, View())
    }

    constructor (regions: seq<Region>, crc: Crc, flash: array<bv8>)
      requires WellPlaced(regions, flash.Length)
      ensures Valid() && active == None && calls == []
      ensures this.regions == regions && this.crc == crc && this.flash == flash && fresh(buf)
    {
      this.regions, this.crc, this.flash := regions, crc, flash;
      buf := new bv8[BLOCK](_ => 0);
      active, calls := None, [];
    }

    method Erase(at: nat, n: nat)
      requires at + n <= flash.Length
      modifies flash
      ensures flash[..] == Erased(old(flash[..]), at, n)
    {
      ghost var was := flash[..];
      for i := 0 to n
        invariant forall j :: 0 <= j < flash.Length ==> flash[j] == if at <= j < at + i then BLANK else was[j]
      {
        flash[at + i] := BLANK;
      }
      assert flash[..] == Erased(was, at, n);
    }

    method Program(at: nat, n: nat)
      requires flash != buf && n <= buf.Length && at + n <= flash.Length
      modifies flash
      ensures flash[..] == Programmed(old(flash[..]), at, buf[..n])
    {
      hide Nor;
      ghost var was := flash[..];
      for i := 0 to n
        invariant forall j :: 0 <= j < flash.Length ==>
                    flash[j] == if at <= j < at + i then Nor(was[j], buf[j - at]) else was[j]
      {
        flash[at + i] := Nor(flash[at + i], buf[i]);
      }
      assert flash[..] == Programmed(was, at, buf[..n]);
    }

    method OpenRegion(size: Option<u32>, name: Option<string>) returns (reply: Reply)
      requires Valid()
      modifies this, flash
      ensures Valid() && (View(), reply) == Handle(regions, crc, old(View()), Open(size, name), 0)
    {
      if active.Some? {
        return Reply(2, None);
      }
      if size.None? || name.None? {
        return Reply(8, None);
      }
      var found := RegionNamed(name.value);
      if found.None? {
        active := None;
        return Reply(4, None);
      }
      active := found;
      var r := regions[found.value];
      if r.size < size.value {
        active := None;
        return Reply(3, None);
      }
      if r.eraseOnOpen {
        Erase(r.offset, r.size);
      }
      return Reply(0, None);
    }

    method FillBuffer(data: seq<bv8>)
      requires |data| <= buf.Length
      modifies buf
      ensures buf[..] == Buffered(old(buf[..]), data)
    {
      Copy(buf, 0, data);
      BufferedAs(old(buf[..]), buf[..], data);
    }

    method WriteBlock(index: Option<u32>, data: Option<seq<bv8>>) returns (reply: Reply)
      requires Valid()
      modifies flash, buf
      ensures Valid() && (View(), reply) == Handle(regions, crc, old(View()), Write(index, data), 0)
    {
      hide Stored, Buffered;
      if active.None? {
        return Reply(7, None);
      }
      if index.None? || data.None? || |data.value| > BLOCK {
        return Reply(8, None);
      }
      FillBuffer(data.value);
      var r := regions[active.value];
      if r.size / BLOCK <= index.value {
        return Reply(5, None);
      }
      var n := |data.value|;
      var pad := 0;
      if n % 4 != 0 {
        pad := 4 - n % 4;
      }
      StoreBlock(r, index.value, pad + n);
      return Reply(0, None);
    }

    method StoreBlock(r: Region, index: nat, n: nat)
      requires flash != buf && IsPlaced(r, flash.Length) && index < r.size / BLOCK && n <= buf.Length <= BLOCK
      modifies flash
      ensures flash[..] == Stored(r, old(flash[..]), index, buf[..n])
    {
      hide Erased, Programmed;
      BlockFits(r, index);
      var at := r.offset + index * BLOCK;
      if !r.eraseOnOpen && index % 8 == 0 {
        Erase(at, PAGE);
      }
      Program(at, n);
    }

    method Finish(hasSize: bool, size: Option<u32>, hasCrc: bool, given: Option<u32>, stray: u16)
      returns (reply: Reply)
      requires Valid()
      modifies this
      ensures Valid()
      ensures (View(), reply) == Handle(regions, crc, old(View()), Verify(hasSize, size, hasCrc, given), stray)
    {
      if (!hasSize || (hasCrc && size.Some?)) && given.Some? {
        if hasSize {
          var actual := if active.None? then stray
                        else RangeCrc(crc, flash[..], regions[active.value].offset, size.value, stray);
          if actual != given.value {
            if active.Some? && regions[active.value].hasCallback {
              calls := calls + [1];
            }
            active := None;
            return Reply(1, None);
          }
        }
        if active.Some? && regions[active.value].hasCallback {
          calls := calls + [0];
        }
        return Reply(0, None);
      }
      active := None;
      return Reply(8, None);
    }

    method CommandHandler(c: Command, stray: u16) returns (reply: Reply)
      requires Valid()
      modifies this, flash, buf
      ensures Valid() && (View(), reply) == Handle(regions, crc, old(View()), c, stray)
    {
      match c {
        case Malformed => return Reply(6, None);
        case Unknown(_) => return Reply(7, None);
        case Open(size, name) => reply := OpenRegion(size, name);
        case Close =>
          if active.Some? && regions[active.value].hasCallback {
            calls := calls + [2];
          }
          active := None;
          return Reply(0, None);
        case Write(index, data) => reply := WriteBlock(index, data);
        case Verify(hasSize, size, hasCrc, given) => reply := Finish(hasSize, size, hasCrc, given, stray);
        case Read(index, count) =>
          if active.None? {
            return Reply(9, None);
          }
          if index.Some? {
            var r := regions[active.value];
            if (index.value + count) % 0x1_0000_0000 <= r.size / BLOCK {
              var at := r.offset + index.value * BLOCK;
              return Reply(0, Some(RangeCrc(crc, flash[..], at, count * BLOCK, stray)));
            }
          }
          return Reply(8, None);
      }
    }
  }

  // ---------------------------------------------------------------- what a command may touch

  predicate Within(r: Region, j: nat) {
    r.offset <= j < r.offset + r.size
  }

  predicate Concerns(regions: seq<Region>, f: Ftp, j: nat)
    requires IsFtp(regions, f)
  {
    f.active.Some? && Within(regions[f.active.value], j)
  }

  lemma BlockFits(r: Region, index: nat)
    requires r.size % PAGE == 0 && index < r.size / BLOCK
    ensures index * BLOCK + BLOCK <= r.size
    ensures index % 8 == 0 ==> index * BLOCK + PAGE <= r.size
  {
  }

  lemma StoredConfined(r: Region, flash: seq<bv8>, index: nat, bytes: seq<bv8>, j: nat)
    requires IsPlaced(r, |flash|) && index < r.size / BLOCK && |bytes| <= BLOCK && j < |flash|
    ensures Stored(r, flash, index, bytes)[j] == flash[j] || Within(r, j)
  {
  }

  /** No command changes a byte outside the region that is open before or after it. */
  lemma Confined(regions: seq<Region>, crc: Crc, f: Ftp, c: Command, stray: u16, j: nat)
    requires IsFtp(regions, f) && j < |f.flash|
    ensures var f' := Handle(regions, crc, f, c, stray).0;
            f'.flash[j] == f.flash[j] || Concerns(regions, f, j) || Concerns(regions, f', j)
  {
    hide Stored, Buffered, RangeCrc, Notify;
    match c
    case Write(Some(index), Some(data)) =>
      if f.active.Some? && index < regions[f.active.value].size / BLOCK && |data| <= BLOCK {
        StoredConfined(regions[f.active.value], f.flash, index, Buffered(f.buf, data)[..Padded(|data|)], j);
      }
    case _ =>
  }

  // ---------------------------------------------------------------- uploading an image

  function Blocks(n: nat): nat {
    (n + BLOCK - 1) / BLOCK
  }

  function Block(image: seq<bv8>, k: nat): (b: seq<bv8>)
    requires k < Blocks(|image|)
    ensures |b| <= BLOCK
  {
    if k * BLOCK + BLOCK <= |image| then image[k * BLOCK..k * BLOCK + BLOCK] else image[k * BLOCK..]
  }

  /** How far flash must be blank before block `k` arrives: to the end of its page or region. */
  function CleanTo(r: Region, k: nat): nat {
    if r.eraseOnOpen then r.size else (k + 7) / 8 * PAGE
  }

  predicate Clean(r: Region, flash: seq<bv8>, k: nat)
    requires IsPlaced(r, |flash|)
  {
    forall j :: r.offset + k * BLOCK <= j < r.offset + CleanTo(r, k) && j < |flash| ==> flash[j] == BLANK
  }

  /** The first `n` bytes of the image are in place. */
  predicate Loaded(r: Region, flash: seq<bv8>, image: seq<bv8>, n: nat)
    requires IsPlaced(r, |flash|) && n <= |image| <= r.size
  {
    forall j :: r.offset <= j < r.offset + n ==> flash[j] == image[j - r.offset]
  }

  /** A cell as programming finds it: blank if its page has just been erased. */
  function Base(r: Region, flash: seq<bv8>, k: nat, j: nat): bv8
    requires j < |flash|
  {
    var at := r.offset + k * BLOCK;
    if !r.eraseOnOpen && k % 8 == 0 && at <= j < at + PAGE then BLANK else flash[j]
  }

  lemma StoredCell(r: Region, flash: seq<bv8>, k: nat, bytes: seq<bv8>, j: nat)
    requires IsPlaced(r, |flash|) && k < r.size / BLOCK && |bytes| <= BLOCK && j < |flash|
    ensures var at := r.offset + k * BLOCK;
            Stored(r, flash, k, bytes)[j] ==
              if at <= j < at + |bytes| then Nor(Base(r, flash, k, j), bytes[j - at]) else Base(r, flash, k, j)
  {
  }

  /** Whatever was clean stays blank behind the block; the block's own cells take its bytes. */
  lemma StoredCells(r: Region, flash: seq<bv8>, k: nat, bytes: seq<bv8>, j: nat)
    requires IsPlaced(r, |flash|) && k < r.size / BLOCK && |bytes| <= BLOCK && j < |flash|
    requires Clean(r, flash, k)
    ensures var at := r.offset + k * BLOCK; var f := Stored(r, flash, k, bytes);
            && (at <= j < at + |bytes| ==> f[j] == bytes[j - at])
            && (at + |bytes| <= j < r.offset + CleanTo(r, k + 1) ==> f[j] == BLANK)
            && (j < at ==> f[j] == flash[j])
  {
    hide Nor, Stored;
    BlockFits(r, k);
    PageOf(k);
    StoredCell(r, flash, k, bytes, j);
    var at := r.offset + k * BLOCK;
    NorFacts(if at <= j < at + |bytes| then bytes[j - at] else BLANK);
  }

  lemma PageOf(k: nat)
    ensures k % 8 == 0 ==> (k + 7) / 8 * PAGE == k * BLOCK && (k + 8) / 8 * PAGE == k * BLOCK + PAGE
    ensures k % 8 != 0 ==> (k + 7) / 8 == (k + 8) / 8 && (k + 8) / 8 * PAGE >= k * BLOCK + BLOCK
  {
  }

  /** The receive buffer and flash after block `k` of the image has been written. */
  function Sent(r: Region, flash: seq<bv8>, buf: seq<bv8>, image: seq<bv8>, k: nat): (s: (seq<bv8>, seq<bv8>))
    requires IsPlaced(r, |flash|) && |buf| == BLOCK && |image| <= r.size && k < Blocks(|image|)
    ensures |s.0| == |flash| && |s.1| == BLOCK
  {
    var buf' := Buffered(buf, Block(image, k));
    BlockIndexFits(|image|, r.size, k);
    (Stored(r, flash, k, buf'[..Padded(|Block(image, k)|)]), buf')
  }

  lemma BlockIndexFits(n: nat, size: nat, k: nat)
    requires n <= size && size % PAGE == 0 && k < Blocks(n)
    ensures k < size / BLOCK && k * BLOCK <= n && k <= n
  {
  }

  lemma SentIsWrite(regions: seq<Region>, crc: Crc, f: Ftp, image: seq<bv8>, k: nat, stray: u16)
    requires IsFtp(regions, f) && f.active.Some? && |image| <= regions[f.active.value].size && k < Blocks(|image|)
    ensures k < 0x1_0000_0000
    ensures var (flash, buf) := Sent(regions[f.active.value], f.flash, f.buf, image, k);
            Handle(regions, crc, f, Write(Some(k), Some(Block(image, k))), stray)
              == (f.(flash := flash, buf := buf), Reply(0, None))
  {
    hide Stored, Buffered, Block;
    BlockIndexFits(|image|, regions[f.active.value].size, k);
  }

  lemma BlockBytes(buf: seq<bv8>, image: seq<bv8>, k: nat)
    requires |buf| == BLOCK && k < Blocks(|image|)
    ensures var b := Block(image, k); var bytes := Buffered(buf, b)[..Padded(|b|)];
            && |b| <= |bytes| <= BLOCK && (|b| == BLOCK ==> |bytes| == BLOCK)
            && k * BLOCK + |b| <= |image|
            && forall i :: 0 <= i < |b| ==> bytes[i] == image[k * BLOCK + i]
  {
  }

  lemma StoredImage(r: Region, flash: seq<bv8>, image: seq<bv8>, k: nat, n: nat, bytes: seq<bv8>)
    requires IsPlaced(r, |flash|) && |image| <= r.size && k < r.size / BLOCK && n <= |bytes| <= BLOCK
    requires k * BLOCK + n <= |image| && forall i :: 0 <= i < n ==> bytes[i] == image[k * BLOCK + i]
    requires Loaded(r, flash, image, k * BLOCK) && Clean(r, flash, k)
    ensures Loaded(r, Stored(r, flash, k, bytes), image, k * BLOCK + n)
  {
    hide Stored, Clean;
    var f := Stored(r, flash, k, bytes);
    var at := r.offset + k * BLOCK;
    forall j | r.offset <= j < at + n
      ensures f[j] == image[j - r.offset]
    {
      StoredCells(r, flash, k, bytes, j);
      if j >= at {
        assert bytes[j - at] == image[k * BLOCK + (j - at)];
      }
    }
  }

  lemma StoredClean(r: Region, flash: seq<bv8>, k: nat, bytes: seq<bv8>)
    requires IsPlaced(r, |flash|) && k < r.size / BLOCK && |bytes| == BLOCK && Clean(r, flash, k)
    ensures Clean(r, Stored(r, flash, k, bytes), k + 1)
  {
    hide Stored;
    var f := Stored(r, flash, k, bytes);
    forall j | r.offset + (k + 1) * BLOCK <= j < r.offset + CleanTo(r, k + 1) && j < |flash|
      ensures f[j] == BLANK
    {
      StoredCells(r, flash, k, bytes, j);
    }
  }

  /** A block that arrives on clean flash extends the image and leaves the rest clean. */
  lemma FirstCopy(r: Region, flash: seq<bv8>, buf: seq<bv8>, image: seq<bv8>, k: nat)
    requires IsPlaced(r, |flash|) && |buf| == BLOCK && |image| <= r.size && k < Blocks(|image|)
    requires k * BLOCK <= |image| && Loaded(r, flash, image, k * BLOCK) && Clean(r, flash, k)
    ensures var f := Sent(r, flash, buf, image, k).0; var n := k * BLOCK + |Block(image, k)|;
            n <= |image| && Loaded(r, f, image, n) && (|Block(image, k)| == BLOCK ==> Clean(r, f, k + 1))
  {
    var b := Block(image, k);
    var bytes := Buffered(buf, b)[..Padded(|b|)];
    BlockBytes(buf, image, k);
    BlockIndexFits(|image|, r.size, k);
    hide Block, Buffered, Padded, Stored, Loaded, Clean;
    StoredImage(r, flash, image, k, |b|, bytes);
    if |b| == BLOCK {
      StoredClean(r, flash, k, bytes);
    }
  }

  /** Sending the same block again changes nothing at all. */
  lemma SecondCopy(r: Region, flash: seq<bv8>, buf: seq<bv8>, image: seq<bv8>, k: nat)
    requires IsPlaced(r, |flash|) && |buf| == BLOCK && |image| <= r.size && k < Blocks(|image|)
    requires Clean(r, flash, k)
    ensures var s := Sent(r, flash, buf, image, k); Sent(r, s.0, s.1, image, k) == s
  {
    var b := Block(image, k);
    var buf' := Buffered(buf, b);
    assert Buffered(buf', b) == buf';
    BlockBytes(buf, image, k);
    BlockIndexFits(|image|, r.size, k);
    hide Stored, Clean, Block, Padded, Buffered;
    StoredTwice(r, flash, k, buf'[..Padded(|b|)]);
  }

  lemma StoredTwiceAt(r: Region, flash: seq<bv8>, k: nat, bytes: seq<bv8>, j: nat)
    requires IsPlaced(r, |flash|) && k < r.size / BLOCK && |bytes| <= BLOCK && Clean(r, flash, k) && j < |flash|
    ensures Stored(r, Stored(r, flash, k, bytes), k, bytes)[j] == Stored(r, flash, k, bytes)[j]
  {
    hide Nor, Stored;
    PageOf(k);
    StoredCell(r, flash, k, bytes, j);
    StoredCell(r, Stored(r, flash, k, bytes), k, bytes, j);
    var at := r.offset + k * BLOCK;
    NorFacts(if at <= j < at + |bytes| then bytes[j - at] else BLANK);
  }

  lemma StoredTwice(r: Region, flash: seq<bv8>, k: nat, bytes: seq<bv8>)
    requires IsPlaced(r, |flash|) && k < r.size / BLOCK && |bytes| <= BLOCK && Clean(r, flash, k)
    ensures Stored(r, Stored(r, flash, k, bytes), k, bytes) == Stored(r, flash, k, bytes)
  {
    hide Stored, Clean;
    forall j | 0 <= j < |flash|
      ensures Stored(r, Stored(r, flash, k, bytes), k, bytes)[j] == Stored(r, flash, k, bytes)[j]
    {
      StoredTwiceAt(r, flash, k, bytes, j);
    }
  }

  /** `times` copies of block `k` in a row, then the same for the blocks after it. */
  function SendTimes(regions: seq<Region>, crc: Crc, f: Ftp, image: seq<bv8>, k: nat, times: nat): (f': Ftp)
    requires IsFtp(regions, f) && k < Blocks(|image|) && k < 0x1_0000_0000
    ensures IsFtp(regions, f') && |f'.flash| == |f.flash|
  {
    if times == 0 then f
    else
      Handle(regions, crc, SendTimes(regions, crc, f, image, k, times - 1),
             Write(Some(k), Some(Block(image, k))), 0).0
  }

  /** Blocks 0, 1, ... in order, block `i` sent `repeats[i]` times. */
  function Upload(regions: seq<Region>, crc: Crc, f: Ftp, image: seq<bv8>, repeats: seq<nat>): (f': Ftp)
    requires IsFtp(regions, f) && |repeats| <= Blocks(|image|) < 0x1_0000_0000
    ensures IsFtp(regions, f') && |f'.flash| == |f.flash|
  {
    if repeats == [] then f
    else
      var k := |repeats| - 1;
      SendTimes(regions, crc, Upload(regions, crc, f, image, repeats[..k]), image, k, repeats[k])
  }

  lemma {:induction false} CopiesAreOne(regions: seq<Region>, crc: Crc, f: Ftp, image: seq<bv8>, k: nat, times: nat)
    requires IsFtp(regions, f) && f.active.Some? && |image| <= regions[f.active.value].size
    requires k < Blocks(|image|) && k < 0x1_0000_0000 && times >= 1
    requires Clean(regions[f.active.value], f.flash, k)
    ensures var (flash, buf) := Sent(regions[f.active.value], f.flash, f.buf, image, k);
            SendTimes(regions, crc, f, image, k, times) == f.(flash := flash, buf := buf)
  {
    hide Handle, Sent, Clean, Block;
    if times == 1 {
      SentIsWrite(regions, crc, f, image, k, 0);
      assert SendTimes(regions, crc, f, image, k, 0) == f;
    } else {
      CopiesAreOne(regions, crc, f, image, k, times - 1);
      SentIsWrite(regions, crc, SendTimes(regions, crc, f, image, k, times - 1), image, k, 0);
      SecondCopy(regions[f.active.value], f.flash, f.buf, image, k);
    }
  }

  lemma PartialBlockIsLast(image: seq<bv8>, k: nat)
    requires k < Blocks(|image|)
    ensures |Block(image, k)| == BLOCK || k + 1 == Blocks(|image|)
    ensures k * BLOCK <= |image|
    ensures k * BLOCK + |Block(image, k)| == if |Block(image, k)| == BLOCK then (k + 1) * BLOCK else |image|
    ensures k + 1 == Blocks(|image|) ==> k * BLOCK + |Block(image, k)| == |image|
  {
  }

  function Covered(image: seq<bv8>, blocks: nat): (n: nat)
    ensures n <= |image|
  {
    if blocks * BLOCK <= |image| then blocks * BLOCK else |image|
  }

  /** After each block the image grows by it, and flash ahead of it is still clean. */
  lemma {:induction false} UploadLoads(regions: seq<Region>, crc: Crc, f: Ftp, image: seq<bv8>, repeats: seq<nat>)
    requires IsFtp(regions, f) && f.active.Some? && |image| <= regions[f.active.value].size
    requires |repeats| <= Blocks(|image|) < 0x1_0000_0000
    requires forall i :: 0 <= i < |repeats| ==> repeats[i] >= 1
    requires Clean(regions[f.active.value], f.flash, 0)
    ensures var r := regions[f.active.value]; var f' := Upload(regions, crc, f, image, repeats);
            && f'.active == f.active && f'.calls == f.calls
            && Loaded(r, f'.flash, image, Covered(image, |repeats|))
            && (|repeats| * BLOCK <= |image| ==> Clean(r, f'.flash, |repeats|))
  {
    hide SendTimes, Sent, Clean, Block, Loaded, Handle;
    if repeats == [] {
      NothingLoaded(regions[f.active.value], f.flash, image);
    } else {
      var k := |repeats| - 1;
      var r := regions[f.active.value];
      UploadLoads(regions, crc, f, image, repeats[..k]);
      var g := Upload(regions, crc, f, image, repeats[..k]);
      assert Upload(regions, crc, f, image, repeats) == SendTimes(regions, crc, g, image, k, repeats[k]);
      hide Upload;
      PartialBlockIsLast(image, k);
      assert Covered(image, k) == k * BLOCK && Covered(image, k + 1) == k * BLOCK + |Block(image, k)|;
      CopiesAreOne(regions, crc, g, image, k, repeats[k]);
      FirstCopy(r, g.flash, g.buf, image, k);
    }
  }

  lemma NothingLoaded(r: Region, flash: seq<bv8>, image: seq<bv8>)
    requires IsPlaced(r, |flash|) && |image| <= r.size
    ensures Loaded(r, flash, image, 0)
  {
  }

  /** Opening a region leaves it clean under either erase policy. */
  lemma OpenIsClean(regions: seq<Region>, crc: Crc, f: Ftp, size: u32, name: string, i: nat, stray: u16)
    requires IsFtp(regions, f) && f.active == None && RegionNamed(name) == Some(i) && size <= regions[i].size
    ensures var (g, reply) := Handle(regions, crc, f, Open(Some(size), Some(name)), stray);
            reply.status == 0 && g.active == Some(i) && g.calls == f.calls && Clean(regions[i], g.flash, 0)
  {
  }

  lemma {:induction false} SendConfined(regions: seq<Region>, crc: Crc, f: Ftp, image: seq<bv8>, k: nat,
                                        times: nat, j: nat)
    requires IsFtp(regions, f) && k < Blocks(|image|) && k < 0x1_0000_0000 && j < |f.flash|
    ensures var f' := SendTimes(regions, crc, f, image, k, times);
            f'.active == f.active && (f'.flash[j] == f.flash[j] || Concerns(regions, f, j))
  {
    if times > 0 {
      SendConfined(regions, crc, f, image, k, times - 1, j);
      WriteConfined(regions, crc, SendTimes(regions, crc, f, image, k, times - 1), k, Block(image, k), j);
      hide Handle, Block;
    }
  }

  lemma WriteConfined(regions: seq<Region>, crc: Crc, f: Ftp, k: u32, data: seq<bv8>, j: nat)
    requires IsFtp(regions, f) && j < |f.flash|
    ensures var f' := Handle(regions, crc, f, Write(Some(k), Some(data)), 0).0;
            f'.active == f.active && (f'.flash[j] == f.flash[j] || Concerns(regions, f, j))
  {
    Confined(regions, crc, f, Write(Some(k), Some(data)), 0, j);
    WriteKeepsActive(regions, crc, f, k, data);
    hide Handle;
  }

  lemma WriteKeepsActive(regions: seq<Region>, crc: Crc, f: Ftp, k: u32, data: seq<bv8>)
    requires IsFtp(regions, f)
    ensures Handle(regions, crc, f, Write(Some(k), Some(data)), 0).0.active == f.active
  {
    hide Stored, Buffered;
  }

  lemma {:induction false} UploadConfined(regions: seq<Region>, crc: Crc, f: Ftp, image: seq<bv8>,
                                          repeats: seq<nat>, j: nat)
    requires IsFtp(regions, f) && |repeats| <= Blocks(|image|) < 0x1_0000_0000 && j < |f.flash|
    ensures var f' := Upload(regions, crc, f, image, repeats);
            f'.active == f.active && (f'.flash[j] == f.flash[j] || Concerns(regions, f, j))
  {
    if repeats != [] {
      hide SendTimes, Block;
      var k := |repeats| - 1;
      UploadConfined(regions, crc, f, image, repeats[..k], j);
      SendConfined(regions, crc, Upload(regions, crc, f, image, repeats[..k]), image, k, repeats[k], j);
    }
  }

  /**
   A whole session: open, then every block of the image in order, each one or more times. The region
   then begins with the image, and nothing outside it has changed. A verify is answered by status 0,
   leaves the region open and tells its callback 0 exactly when the CRC given is that of the image; with
   any other it tells 1 and closes.
   */
  lemma UploadVerifies(regions: seq<Region>, crc: Crc, f: Ftp, name: string, i: nat, image: seq<bv8>,
                       repeats: seq<nat>, given: u32, stray: u16)
    requires IsFtp(regions, f) && f.active == None && Names(name, i)
    requires |image| <= regions[i].size && |repeats| == Blocks(|image|)
    requires forall k :: 0 <= k < |repeats| ==> repeats[k] >= 1
    ensures |repeats| < 0x1_0000_0000
    ensures var r := regions[i];
            var ready := Handle(regions, crc, f, Open(Some(|image|), Some(name)), stray).0;
            var done := Upload(regions, crc, ready, image, repeats);
            && done.flash[r.offset..r.offset + |image|] == image
            && (forall j :: 0 <= j < |f.flash| && !Within(r, j) ==> done.flash[j] == f.flash[j])
            && var (v, reply) := Handle(regions, crc, done, Verify(true, Some(|image|), true, Some(given)), stray);
               && (reply.status == 0 <==> given == crc(image)) && v.flash == done.flash
               && v.active == (if given == crc(image) then Some(i) else None)
               && v.calls == Told(r, f.calls, if given == crc(image) then 0 else 1)
  {
    NamesExactly(name, i);
    hide Handle, Clean, Upload, Loaded, Blocks, Told, RegionNamed;
    var r := regions[i];
    BlocksBounded(|image|, r.size);
    OpenIsClean(regions, crc, f, |image|, name, i, stray);
    var ready := Handle(regions, crc, f, Open(Some(|image|), Some(name)), stray).0;
    UploadLoads(regions, crc, ready, image, repeats);
    var done := Upload(regions, crc, ready, image, repeats);
    assert Covered(image, |repeats|) == |image|;
    LoadedImage(r, done.flash, image);
    VerifyAnswer(regions, crc, done, image, given, stray);
    forall j | 0 <= j < |f.flash| && !Within(r, j)
      ensures done.flash[j] == f.flash[j]
    {
      SessionConfined(regions, crc, f, ready, name, i, image, repeats, stray, j);
    }
  }

  lemma SessionConfined(regions: seq<Region>, crc: Crc, f: Ftp, ready: Ftp, name: string, i: nat, image: seq<bv8>,
                        repeats: seq<nat>, stray: u16, j: nat)
    requires IsFtp(regions, f) && f.active == None && i < 2 && |image| < 0x1_0000_0000
    requires ready == Handle(regions, crc, f, Open(Some(|image|), Some(name)), stray).0 && ready.active == Some(i)
    requires |repeats| <= Blocks(|image|) < 0x1_0000_0000 && j < |f.flash| && !Within(regions[i], j)
    ensures Upload(regions, crc, ready, image, repeats).flash[j] == f.flash[j]
  {
    hide Upload, Handle;
    Confined(regions, crc, f, Open(Some(|image|), Some(name)), stray, j);
    UploadConfined(regions, crc, ready, image, repeats, j);
  }

  lemma LoadedImage(r: Region, flash: seq<bv8>, image: seq<bv8>)
    requires IsPlaced(r, |flash|) && |image| <= r.size && Loaded(r, flash, image, |image|)
    ensures flash[r.offset..r.offset + |image|] == image
  {
  }

  /** What a callback sees of a command that calls it. */
  function Told(r: Region, calls: seq<u8>, code: u8): seq<u8> {
    if r.hasCallback then calls + [code] else calls
  }

  /**
   A verify of an image in place: with its CRC the callback is told 0 and the region stays open, with any
   other it is told 1 and the region closes.
   */
  lemma VerifyAnswer(regions: seq<Region>, crc: Crc, f: Ftp, image: seq<bv8>, given: u32, stray: u16)
    requires IsFtp(regions, f) && f.active.Some? && |image| <= regions[f.active.value].size
    requires var at := regions[f.active.value].offset; f.flash[at..at + |image|] == image
    ensures var (v, reply) := Handle(regions, crc, f, Verify(true, Some(|image|), true, Some(given)), stray);
            var r := regions[f.active.value];
            && (reply.status == 0 <==> given == crc(image)) && v.flash == f.flash
            && (given == crc(image) ==> v.active == f.active && v.calls == Told(r, f.calls, 0))
            && (given != crc(image) ==> reply.status == 1 && v.active == None && v.calls == Told(r, f.calls, 1))
  {
  }

  /** Region names are known by how they begin. */
  predicate Names(name: string, i: nat) {
    (i == 0 && "app_update" <= name) || (i == 1 && "fmna_blob" <= name)
  }

  lemma NamesExactly(name: string, i: nat)
    ensures RegionNamed(name) == Some(i) <==> Names(name, i)
  {
    if "app_update" <= name {
      assert name[0] == "app_update"[0];
    }
  }

  lemma BlocksBounded(n: nat, size: u32)
    requires n <= size
    ensures Blocks(n) < 0x1_0000_0000 && n <= Blocks(n) * BLOCK
  {
  }
}
