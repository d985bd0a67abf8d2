/**
 What the answers of the upload handler mean: its status codes, its callback codes, the CRC of a read, and
 the bytes behind a short block.
 */
module FlashStatus {
  import opened Memory
  import opened FlashUpload

  /** A close tells the callback 2, and always leaves no region open. */
  lemma CloseAnswer(regions: seq<Region>, crc: Crc, f: Ftp, stray: u16)
    requires IsFtp(regions, f)
    ensures var (v, reply) := Handle(regions, crc, f, Close, stray);
            && reply.status == 0 && v.active == None && v.flash == f.flash
            && v.calls == if f.active.Some? then Told(regions[f.active.value], f.calls, 2) else f.calls
  {
  }

  /** No other command calls back. */
  lemma OthersAreSilent(regions: seq<Region>, crc: Crc, f: Ftp, c: Command, stray: u16)
    requires IsFtp(regions, f) && !c.Close? && !c.Verify?
    ensures Handle(regions, crc, f, c, stray).0.calls == f.calls
  {
  }

  /** A read answers with the CRC of the blocks it names. */
  lemma ReadAnswer(regions: seq<Region>, crc: Crc, f: Ftp, image: seq<bv8>, index: u32, count: u32, stray: u16)
    requires IsFtp(regions, f) && f.active.Some? && |image| <= regions[f.active.value].size
    requires var at := regions[f.active.value].offset; f.flash[at..at + |image|] == image
    requires 512 * (index + count) <= |image|
    ensures Handle(regions, crc, f, Read(Some(index), count), stray)
              == (f, Reply(0, Some(crc(image[512 * index..512 * (index + count)]))))
  {
    var r := regions[f.active.value];
    hide Handle;
    ReadReply(regions, crc, f, index, count, stray);
    SliceOfSlice(f.flash, r.offset, |image|, 512 * index, 512 * (index + count));
  }

  lemma SliceOfSlice<T>(s: seq<T>, at: nat, n: nat, a: nat, b: nat)
    requires a <= b <= n && at + n <= |s|
    ensures s[at..at + n][a..b] == s[at + a..at + b]
  {
    var t := s[at..at + n];
    forall k | 0 <= k < b - a
      ensures t[a..b][k] == s[at + a..at + b][k]
    {
      assert t[a + k] == s[at + (a + k)];
    }
  }

  lemma ReadReply(regions: seq<Region>, crc: Crc, f: Ftp, index: u32, count: u32, stray: u16)
    requires IsFtp(regions, f) && f.active.Some? && 512 * (index + count) <= regions[f.active.value].size
    ensures var r := regions[f.active.value]; var from, to := r.offset + 512 * index, r.offset + 512 * (index + count);
            from <= to <= |f.flash|
            && Handle(regions, crc, f, Read(Some(index), count), stray) == (f, Reply(0, Some(crc(f.flash[from..to]))))
  {
    assert (index + count) % 0x1_0000_0000 == index + count;
  }

  /** What each status of an open means; one that is refused changes nothing. */
  lemma OpenStatus(regions: seq<Region>, crc: Crc, f: Ftp, size: Option<u32>, name: Option<string>, stray: u16)
    requires IsFtp(regions, f)
    ensures var (g, reply) := Handle(regions, crc, f, Open(size, name), stray);
            var given := size.Some? && name.Some?;
            && (reply.status == 2 <==> f.active.Some?)
            && (reply.status == 8 <==> f.active.None? && !given)
            && (reply.status == 4 <==> f.active.None? && given && forall i: nat :: !Names(name.value, i))
            && (reply.status == 3 <==>
                  f.active.None? && given && exists i: nat :: Names(name.value, i) && size.value > regions[i].size)
            && (reply.status == 0 <==>
                  f.active.None? && given && exists i: nat :: Names(name.value, i) && size.value <= regions[i].size)
            && (reply.status == 0 ==> g.active.Some? && Names(name.value, g.active.value))
            && (reply.status != 0 ==> g == f)
  {
    if name.Some? {
      NamesExactly(name.value, 0);
      NamesExactly(name.value, 1);
    }
  }

  /** What each status of a write means; one that is refused leaves flash and region alone. */
  lemma WriteStatus(regions: seq<Region>, crc: Crc, f: Ftp, index: Option<u32>, data: Option<seq<bv8>>, stray: u16)
    requires IsFtp(regions, f)
    ensures var (g, reply) := Handle(regions, crc, f, Write(index, data), stray);
            var given := index.Some? && data.Some? && |data.value| <= 512;
            && (reply.status == 7 <==> f.active.None?)
            && (reply.status == 8 <==> f.active.Some? && !given)
            && (reply.status == 5 <==>
                  f.active.Some? && given && 512 * (index.value + 1) > regions[f.active.value].size)
            && (reply.status == 0 <==>
                  f.active.Some? && given && 512 * (index.value + 1) <= regions[f.active.value].size)
            && g.active == f.active && (reply.status != 0 ==> g.flash == f.flash)
            && (reply.status == 0 || reply.status == 5 ==> g.buf[..|data.value|] == data.value)
  {
    hide Stored;
  }

  /** The end of the blocks, as 32 bits hold it, lies behind the region. */
  predicate TooFar(r: Region, c: Command)
    requires c.Read? && c.index.Some?
  {
    512 * ((c.index.value + c.count) % 0x1_0000_0000) > r.size
  }

  /** And of a verify, a read, and a request that says neither. */
  lemma OtherStatus(regions: seq<Region>, crc: Crc, f: Ftp, c: Command, stray: u16)
    requires IsFtp(regions, f)
    ensures var (g, reply) := Handle(regions, crc, f, c, stray);
            && (c.Malformed? ==> reply.status == 6 && g == f)
            && (c.Unknown? ==> reply.status == 7 && g == f)
            && (c.Verify? ==>
                  (reply.status == 8 <==> c.crc.None? || (c.hasSize && (!c.hasCrc || c.size.None?)))
                  && (reply.status == 8 ==> g == f.(active := None))
                  && (!c.hasSize && c.crc.Some? ==> reply.status == 0 && g.active == f.active))
            && (c.Read? ==>
                  && (reply.status == 9 <==> f.active.None?) && g == f
                  && (reply.status == 8 <==> f.active.Some? && (c.index.None? || TooFar(regions[f.active.value], c))))
  {
  }

  /** Up to a whole word, a short block is filled with what the buffer held before. */
  lemma PaddingIsLeftover(regions: seq<Region>, crc: Crc, f: Ftp, index: u32, data: seq<bv8>, stray: u16, j: nat)
    requires IsFtp(regions, f) && f.active.Some? && |data| <= 512
    requires 512 * (index + 1) <= regions[f.active.value].size
    requires |data| <= j < 512 && j / 4 * 4 < |data|
    ensures var at := regions[f.active.value].offset + 512 * index;
            var r := regions[f.active.value];
            var erased := !r.eraseOnOpen && index % 8 == 0;
            at + j < |f.flash| &&
            Handle(regions, crc, f, Write(Some(index), Some(data)), stray).0.flash[at + j]
              == (if erased then f.buf[j] else f.flash[at + j] & f.buf[j])
  {
    hide Handle, Stored, Buffered, Padded;
    var r := regions[f.active.value];
    WriteStores(regions, crc, f, index, data, stray);
    LeftoverByte(f.buf, data, j);
    BlockFits(r, index);
    StoredCell(r, f.flash, index, Buffered(f.buf, data)[..Padded(|data|)], r.offset + 512 * index + j);
    NorFacts(f.buf[j]);
  }

  lemma WriteStores(regions: seq<Region>, crc: Crc, f: Ftp, index: u32, data: seq<bv8>, stray: u16)
    requires IsFtp(regions, f) && f.active.Some? && |data| <= 512
    requires 512 * (index + 1) <= regions[f.active.value].size
    ensures Handle(regions, crc, f, Write(Some(index), Some(data)), stray).0.flash
              == Stored(regions[f.active.value], f.flash, index, Buffered(f.buf, data)[..Padded(|data|)])
  {
    hide Stored, Buffered;
  }

  lemma LeftoverByte(buf: seq<bv8>, data: seq<bv8>, j: nat)
    requires |buf| == 512 && |data| <= j < 512 && j / 4 * 4 < |data|
    ensures j < Padded(|data|) <= 512 && Buffered(buf, data)[..Padded(|data|)][j] == buf[j]
  {
  }

  /**
   With page-wise erasing, the first block of each eight blanks the 4096 bytes from its start before it is
   programmed; every other write changes nothing behind its padded block.
   */
  lemma PageIsBlanked(regions: seq<Region>, crc: Crc, f: Ftp, index: u32, data: seq<bv8>, stray: u16, j: nat)
    requires IsFtp(regions, f) && f.active.Some? && |data| <= 512
    requires 512 * (index + 1) <= regions[f.active.value].size
    requires var at := regions[f.active.value].offset + 512 * index; at + 512 <= j < |f.flash|
    ensures var r := regions[f.active.value]; var at := r.offset + 512 * index;
            Handle(regions, crc, f, Write(Some(index), Some(data)), stray).0.flash[j]
              == if !r.eraseOnOpen && index % 8 == 0 && j < at + 4096 then 0xFF else f.flash[j]
  {
    hide Handle, Stored, Buffered, Padded;
    var r := regions[f.active.value];
    WriteStores(regions, crc, f, index, data, stray);
    BlockFits(r, index);
    PaddedFits(f.buf, data);
    StoredCell(r, f.flash, index, Buffered(f.buf, data)[..Padded(|data|)], j);
  }

  lemma PaddedFits(buf: seq<bv8>, data: seq<bv8>)
    requires |buf| == 512 && |data| <= 512
    ensures |data| <= Padded(|data|) <= 512 && |Buffered(buf, data)| == 512
  {
  }
}
