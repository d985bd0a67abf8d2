/**
 The reflected CRC-16 of the serial link: polynomial 0xA001, least significant bit first. Buffers are
 of 16-bit words; a message holds one byte a word.
 */
module Crc16 {

  /** The shift register. */
  datatype Reg = Reg(v: bv16)

  const INIT: Reg := Reg(0xFFFF)
  const ZERO: Reg := Reg(0)

  function Mix(a: Reg, b: Reg): Reg {
    Reg(a.v ^ b.v)
  }

  function Half(c: Reg): Reg {
    Reg(c.v >> 1)
  }

  predicate LowBit(c: Reg) {
    c.v & 1 == 1
  }

  /** One bit time of the shift register. */
  function Shift(c: Reg): Reg {
    if LowBit(c) then Mix(Half(c), Reg(0xA001)) else Half(c)
  }

  function Shifts(c: Reg, n: nat): Reg
    decreases n
  {
    if n == 0 then c else Shifts(Shift(c), n - 1)
  }

  function Step(c: Reg, data: Reg): Reg {
    Shifts(Mix(c, data), 8)
  }

  /** A byte as the register's low half. */
  function Byte(b: bv8): Reg {
    Reg(b as bv16)
  }

  function Crc(init: Reg, m: seq<bv8>): Reg {
    if m == [] then init
    else var n := |m| - 1; Step(Crc(init, m[..n]), Byte(m[n]))
  }

  /** The same over words as they lie in memory. */
  function CrcWords(init: Reg, w: seq<bv16>): Reg {
    if w == [] then init
    else var n := |w| - 1; Step(CrcWords(init, w[..n]), Reg(w[n]))
  }

  function Words(m: seq<bv8>): (w: seq<bv16>)
    ensures |w| == |m|
  {
    seq(|m|, k requires 0 <= k < |m| => Byte(m[k]).v)
  }

  function Low(c: Reg): bv8 {
    (c.v & 0xFF) as bv8
  }

  function High(c: Reg): bv8 {
    (c.v >> 8) as bv8
  }

  /** The two bytes that close a frame: CRC low byte, then high byte. */
  function Trailer(m: seq<bv8>): seq<bv8> {
    [Low(Crc(INIT, m)), High(Crc(INIT, m))]
  }

  method StepByte(crc: bv16, data: bv16) returns (r: bv16)
    ensures Reg(r) == Step(Reg(crc), Reg(data))
  {
    r := crc ^ data;
    for i := 0 to 8
      invariant Shifts(Reg(r), 8 - i) == Step(Reg(crc), Reg(data))
    {
      if r & 1 == 1 {
        r := r >> 1;
        r := r ^ 0xA001;
      } else {
        r := r >> 1;
      }
    }
  }

  method ComputeBuf(count: nat, buf: array<bv16>, init: bv16) returns (crc: bv16)
    requires count <= buf.Length
    ensures Reg(crc) == CrcWords(Reg(init), buf[..count])
  {
    crc := init;
    if count == 0 {
      return;
    }
    var n := count;
    var at := 0;
    while n != 0
      invariant at + n == count
      invariant Reg(crc) == CrcWords(Reg(init), buf[..at])
    {
      assert buf[..at + 1][..at] == buf[..at];
      crc := StepByte(crc, buf[at]);
      at := at + 1;
      n := n - 1;
    }
  }

  lemma {:induction false} CrcOfWords(init: Reg, m: seq<bv8>)
    ensures CrcWords(init, Words(m)) == Crc(init, m)
  {
    if m != [] {
      hide Step;
      var n := |m| - 1;
      CrcOfWords(init, m[..n]);
      assert Words(m)[..n] == Words(m[..n]);
    }
  }

  // ---------------------------------------------------------------- facts about one register value

  function Tap(c: Reg): Reg {
    if LowBit(c) then Reg(0xA001) else ZERO
  }

  function One(b: bool): Reg {
    if b then Reg(1) else ZERO
  }

  lemma ShiftTaps(c: Reg)
    ensures Shift(c) == Mix(Half(c), Tap(c))
  {
  }

  lemma MixHalf(x: Reg, y: Reg)
    ensures Half(Mix(x, y)) == Mix(Half(x), Half(y))
  {
  }

  lemma MixTap(x: Reg, y: Reg)
    ensures Tap(Mix(x, y)) == Mix(Tap(x), Tap(y))
  {
  }

  lemma MixZero(x: Reg)
    ensures Mix(x, ZERO) == x == Mix(ZERO, x)
  {
  }

  lemma MixSame(x: Reg, y: Reg)
    ensures Mix(x, y) == ZERO <==> x == y
  {
  }

  lemma ShiftLinear(x: Reg, y: Reg)
    ensures Shift(Mix(x, y)) == Mix(Shift(x), Shift(y))
  {
    hide Tap, Mix, Half, LowBit, Shift;
    ShiftTaps(x);
    ShiftTaps(y);
    ShiftTaps(Mix(x, y));
    MixHalf(x, y);
    MixTap(x, y);
    Exchange(Half(x), Half(y), Tap(x), Tap(y));
  }

  lemma ShiftInjective(x: Reg)
    ensures Shift(x) == ZERO <==> x == ZERO
  {
  }

  /** A register value without its low bit. */
  function Rest(w: Reg): Reg {
    Reg(w.v & 0xFFFE)
  }

  lemma Recompose(w: Reg)
    ensures w == Mix(One(LowBit(w)), Rest(w))
  {
  }

  lemma ShiftRest(w: Reg)
    ensures Shift(Rest(w)) == Half(w)
  {
  }

  lemma MixAssoc(a: Reg, b: Reg, c: Reg)
    ensures Mix(a, Mix(b, c)) == Mix(Mix(a, b), c)
  {
  }

  lemma Exchange(a: Reg, b: Reg, p: Reg, q: Reg)
    ensures Mix(Mix(a, b), Mix(p, q)) == Mix(Mix(a, p), Mix(b, q))
  {
  }

  /** Only the low bit of what is mixed in meets the tap; the rest just moves down. */
  lemma FirstBit(c: Reg, w: Reg)
    ensures Shift(Mix(c, w)) == Mix(Shift(Mix(c, One(LowBit(w)))), Half(w))
  {
    hide Mix, Half, One, LowBit, Shift, Rest;
    Recompose(w);
    ShiftRest(w);
    MixAssoc(c, One(LowBit(w)), Rest(w));
    ShiftLinear(Mix(c, One(LowBit(w))), Rest(w));
  }

  /** The value fits in `n` bits. */
  predicate Below(w: Reg, n: nat)
    decreases n
  {
    if n == 0 then w == ZERO else Below(Half(w), n - 1)
  }

  lemma ByteBelow(b: bv8)
    ensures Below(Byte(b), 8)
  {
  }

  /** `k` halvings leave `p`, and so every value of at least `p`, nonzero. */
  predicate Outlasts(p: Reg, k: nat)
    decreases k
  {
    p != ZERO && (k == 0 || Outlasts(Half(p), k - 1))
  }

  lemma HalfMonotone(x: bv16, p: bv16)
    ensures x >= p ==> x >> 1 >= p >> 1
    ensures x >= p && p != 0 ==> x != 0
  {
  }

  lemma {:induction false} OutlastsNotBelow(x: Reg, p: Reg, k: nat)
    requires Outlasts(p, k) && x.v >= p.v
    ensures !Below(x, k)
    decreases k
  {
    HalfMonotone(x.v, p.v);
    if k > 0 {
      OutlastsNotBelow(Half(x), Half(p), k - 1);
    }
  }

  lemma {:induction false} OutlastsLess(p: Reg, k: nat, n: nat)
    requires k <= n && Outlasts(p, n)
    ensures Outlasts(p, k)
    decreases k
  {
    if k > 0 {
      OutlastsLess(Half(p), k - 1, n - 1);
    }
  }

  lemma TopOutlasts(k: nat)
    requires k <= 15
    ensures Outlasts(Reg(0x8000), k)
  {
    assert Outlasts(Reg(1), 0);
    assert Outlasts(Reg(2), 1);
    assert Outlasts(Reg(8), 3);
    assert Outlasts(Reg(0x20), 5);
    assert Outlasts(Reg(0x80), 7);
    assert Outlasts(Reg(0x200), 9);
    assert Outlasts(Reg(0x800), 11);
    assert Outlasts(Reg(0x2000), 13);
    assert Outlasts(Reg(0x8000), 15);
    OutlastsLess(Reg(0x8000), k, 15);
  }

  lemma TappedHasTop(c: Reg)
    ensures LowBit(c) ==> Shift(c).v >= 0x8000
    ensures !LowBit(c) ==> Shift(c) == Half(c)
  {
  }

  lemma LowBitHalves(c: Reg, b: bool)
    ensures Half(Mix(c, One(b))) == Half(c)
  {
  }

  lemma Survives(c: Reg, b: bool, n: nat)
    requires 1 <= n <= 15 && !Below(c, n)
    ensures !Below(Shift(Mix(c, One(b))), n - 1)
  {
    hide Mix, Shift, One, LowBit, Half;
    var x := Mix(c, One(b));
    TappedHasTop(x);
    if LowBit(x) {
      TopOutlasts(n - 1);
      OutlastsNotBelow(Shift(x), Reg(0x8000), n - 1);
    } else {
      LowBitHalves(c, b);
    }
  }

  lemma SameHalves(v: Reg, w: Reg)
    requires Half(v) == Half(w) && LowBit(v) == LowBit(w)
    ensures v == w
  {
  }

  lemma SameByte(x: bv8, y: bv8)
    requires Byte(x) == Byte(y)
    ensures x == y
  {
  }

  // ---------------------------------------------------------------- bit by bit

  /** The register after a bit sequence, first bit first. */
  function Feed(c: Reg, bits: seq<bool>): Reg
    decreases bits
  {
    if bits == [] then c else Feed(Shift(Mix(c, One(bits[0]))), bits[1..])
  }

  function LowBits(w: Reg, n: nat): (bits: seq<bool>)
    ensures |bits| == n
    decreases n
  {
    if n == 0 then [] else [LowBit(w)] + LowBits(Half(w), n - 1)
  }

  /** The bits of a message in the order the register takes them. */
  function Bits(m: seq<bv8>): (bits: seq<bool>)
    ensures |bits| == 8 * |m|
  {
    if m == [] then []
    else var n := |m| - 1; Bits(m[..n]) + LowBits(Byte(m[n]), 8)
  }

  /** Mixing a word in at once is mixing its bits in one by one. */
  lemma {:induction false} FeedWord(c: Reg, w: Reg, n: nat)
    requires n <= 15 && Below(w, n)
    ensures Feed(c, LowBits(w, n)) == Shifts(Mix(c, w), n)
    decreases n
  {
    hide Shift, One, Mix, Half, LowBit;
    if n == 0 {
      MixZero(c);
    } else {
      FirstBit(c, w);
      FeedWord(Shift(Mix(c, One(LowBit(w)))), Half(w), n - 1);
      assert LowBits(w, n)[1..] == LowBits(Half(w), n - 1);
    }
  }

  lemma {:induction false} FeedAppend(c: Reg, a: seq<bool>, b: seq<bool>)
    ensures Feed(c, a + b) == Feed(Feed(c, a), b)
    decreases a
  {
    hide Shift, One, Mix;
    if a == [] {
      assert a + b == b;
    } else {
      assert (a + b)[1..] == a[1..] + b;
      FeedAppend(Shift(Mix(c, One(a[0]))), a[1..], b);
    }
  }

  lemma {:induction false} CrcIsFeed(init: Reg, m: seq<bv8>)
    ensures Crc(init, m) == Feed(init, Bits(m))
  {
    hide Feed, LowBits, Shifts, Mix;
    if m == [] {
      FeedNothing(init);
    } else {
      var n := |m| - 1;
      CrcIsFeed(init, m[..n]);
      ByteBelow(m[n]);
      FeedWord(Crc(init, m[..n]), Byte(m[n]), 8);
      FeedAppend(init, Bits(m[..n]), LowBits(Byte(m[n]), 8));
    }
  }

  lemma FeedNothing(c: Reg)
    ensures Feed(c, []) == c
  {
  }

  // ---------------------------------------------------------------- differences

  function Xor(a: seq<bool>, b: seq<bool>): seq<bool>
    requires |a| == |b|
  {
    seq(|a|, i requires 0 <= i < |a| => a[i] != b[i])
  }

  lemma OneXor(a: bool, b: bool)
    ensures Mix(One(a), One(b)) == One(a != b)
  {
  }

  /** The difference of two runs of the register is a run over the differing bits alone. */
  lemma {:induction false} FeedDifference(c: Reg, d: Reg, a: seq<bool>, b: seq<bool>)
    requires |a| == |b|
    ensures Mix(Feed(c, a), Feed(d, b)) == Feed(Mix(c, d), Xor(a, b))
    decreases a
  {
    hide Shift, One, Mix;
    if a != [] {
      var x, y := Mix(c, One(a[0])), Mix(d, One(b[0]));
      OneXor(a[0], b[0]);
      Exchange(c, d, One(a[0]), One(b[0]));
      ShiftLinear(x, y);
      FeedDifference(Shift(x), Shift(y), a[1..], b[1..]);
      assert Xor(a, b)[1..] == Xor(a[1..], b[1..]);
    }
  }

  /** A register this large cannot be cleared by `k` arbitrary bits, nor by the silence after them. */
  lemma {:induction false} NotCleared(c: Reg, bits: seq<bool>, k: nat)
    requires k <= 15 && !Below(c, k)
    requires forall i :: k <= i < |bits| ==> !bits[i]
    ensures Feed(c, bits) != ZERO
    decreases bits
  {
    hide Shift, Mix;
    if bits == [] {
      LargeIsNotZero(c, k);
    } else if k == 0 {
      MixZero(c);
      ShiftInjective(c);
      NotCleared(Shift(c), bits[1..], 0);
    } else {
      Survives(c, bits[0], k);
      NotCleared(Shift(Mix(c, One(bits[0]))), bits[1..], k - 1);
    }
  }

  lemma LargeIsNotZero(c: Reg, n: nat)
    requires !Below(c, n)
    ensures c != ZERO
  {
  }

  lemma FirstDifference()
    ensures Shift(Mix(ZERO, One(false))) == ZERO && !Below(Shift(Mix(ZERO, One(true))), 15)
  {
    assert Shift(Mix(ZERO, One(true))) == Reg(0xA001);
    TopOutlasts(15);
    OutlastsNotBelow(Reg(0xA001), Reg(0x8000), 15);
  }

  /** From a clear register, a burst of at most 16 bits leaves a trace for ever. */
  lemma {:induction false} BurstLeavesTrace(bits: seq<bool>, start: nat)
    requires forall i :: 0 <= i < |bits| && bits[i] ==> start <= i < start + 16
    requires exists i :: 0 <= i < |bits| && bits[i]
    ensures Feed(ZERO, bits) != ZERO
    decreases bits
  {
    hide Shift, Mix, One;
    FirstDifference();
    if bits[0] {
      NotCleared(Shift(Mix(ZERO, One(true))), bits[1..], 15);
    } else {
      var i :| 0 <= i < |bits| && bits[i];
      assert bits[1..][i - 1];
      BurstLeavesTrace(bits[1..], if start == 0 then 0 else start - 1);
    }
  }

  lemma {:induction false} LowBitsInjective(v: Reg, w: Reg, n: nat)
    requires n <= 15 && Below(v, n) && Below(w, n) && LowBits(v, n) == LowBits(w, n)
    ensures v == w
    decreases n
  {
    hide Half, LowBit;
    if n == 0 {
    } else {
      assert LowBits(v, n)[0] == LowBits(w, n)[0];
      assert LowBits(v, n)[1..] == LowBits(Half(v), n - 1) && LowBits(w, n)[1..] == LowBits(Half(w), n - 1);
      LowBitsInjective(Half(v), Half(w), n - 1);
      SameHalves(v, w);
    }
  }

  lemma {:induction false} BitsInjective(a: seq<bv8>, b: seq<bv8>)
    requires |a| == |b| && a != b
    ensures exists i :: 0 <= i < 8 * |a| && Bits(a)[i] != Bits(b)[i]
  {
    hide LowBits;
    if Bits(a) == Bits(b) {
      var n := |a| - 1;
      assert Bits(a)[..8 * n] == Bits(a[..n]) && Bits(b)[..8 * n] == Bits(b[..n]);
      assert Bits(a)[8 * n..] == LowBits(Byte(a[n]), 8) && Bits(b)[8 * n..] == LowBits(Byte(b[n]), 8);
      ByteBelow(a[n]);
      ByteBelow(b[n]);
      LowBitsInjective(Byte(a[n]), Byte(b[n]), 8);
      SameByte(a[n], b[n]);
      assert a == a[..n] + [a[n]] && b == b[..n] + [b[n]];
      BitsInjective(a[..n], b[..n]);
    }
  }

  // ---------------------------------------------------------------- the theorems

  /** Messages of equal length, bit by bit equal outside 16 consecutive bits, never share a CRC. */
  lemma BurstDetected(init: Reg, a: seq<bv8>, b: seq<bv8>, start: nat)
    requires |a| == |b| && a != b
    requires forall i :: 0 <= i < 8 * |a| && Bits(a)[i] != Bits(b)[i] ==> start <= i < start + 16
    ensures Crc(init, a) != Crc(init, b)
  {
    hide Feed, Mix, Bits, Crc;
    CrcIsFeed(init, a);
    CrcIsFeed(init, b);
    BitsInjective(a, b);
    FeedDifference(init, init, Bits(a), Bits(b));
    MixSame(init, init);
    MixSame(Crc(init, a), Crc(init, b));
    var d := Xor(Bits(a), Bits(b));
    var i :| 0 <= i < 8 * |a| && Bits(a)[i] != Bits(b)[i];
    assert d[i];
    BurstLeavesTrace(d, start);
  }

  lemma {:induction false} EqualBytesEqualBits(a: seq<bv8>, b: seq<bv8>, k: nat, i: nat)
    requires |a| == |b| && k < |a| && a[k] == b[k] && 8 * k <= i < 8 * k + 8
    ensures Bits(a)[i] == Bits(b)[i]
  {
    hide LowBits;
    var n := |a| - 1;
    if k < n {
      EqualBytesEqualBits(a[..n], b[..n], k, i);
    }
  }

  /** In particular, any damage inside two adjacent bytes is detected, whatever the length. */
  lemma AdjacentBytesDetected(init: Reg, a: seq<bv8>, b: seq<bv8>, k: nat)
    requires |a| == |b| && a != b
    requires forall j :: 0 <= j < |a| && a[j] != b[j] ==> k <= j < k + 2
    ensures Crc(init, a) != Crc(init, b)
  {
    forall i | 0 <= i < 8 * |a| && Bits(a)[i] != Bits(b)[i]
      ensures 8 * k <= i < 8 * k + 16
    {
      if a[i / 8] == b[i / 8] {
        EqualBytesEqualBits(a, b, i / 8, i);
      }
    }
    BurstDetected(init, a, b, 8 * k);
  }

  // Parity: the polynomial has an even number of terms, so the register keeps count modulo 2.

  predicate Odd(bits: seq<bool>) {
    bits != [] && bits[0] != Odd(bits[1..])
  }

  lemma {:induction false} OddAppend(a: seq<bool>, b: seq<bool>)
    ensures Odd(a + b) == (Odd(a) != Odd(b))
  {
    if a == [] {
      assert a + b == b;
    } else {
      assert (a + b)[1..] == a[1..] + b;
      OddAppend(a[1..], b);
    }
  }

  predicate OddReg(c: Reg, n: nat)
    decreases n
  {
    n > 0 && LowBit(c) != OddReg(Half(c), n - 1)
  }

  lemma OddStep(c: Reg, n: nat)
    ensures OddReg(c, n) == (n > 0 && LowBit(c) != OddReg(Half(c), n - 1))
  {
  }

  lemma MixLowBit(a: Reg, b: Reg)
    ensures LowBit(Mix(a, b)) == (LowBit(a) != LowBit(b))
  {
  }

  lemma {:induction false} OddMix(a: Reg, b: Reg, n: nat)
    ensures OddReg(Mix(a, b), n) == (OddReg(a, n) != OddReg(b, n))
    decreases n
  {
    hide LowBit, Mix, Half, OddReg;
    OddStep(a, n);
    OddStep(b, n);
    OddStep(Mix(a, b), n);
    if n > 0 {
      MixLowBit(a, b);
      MixHalf(a, b);
      OddMix(Half(a), Half(b), n - 1);
    }
  }

  lemma {:induction false} OddBelow(c: Reg, n: nat)
    requires Below(c, n)
    ensures OddReg(c, n + 1) == OddReg(c, n)
    decreases n
  {
    if n > 0 {
      hide LowBit, Half;
      OddBelow(Half(c), n - 1);
    }
  }

  lemma Below16(c: Reg)
    ensures Below(c, 16)
  {
    var h := Half(Half(Half(Half(Half(Half(Half(Half(c))))))));
    assert h.v < 0x100;
    ByteBelow(h.v as bv8);
    assert Below(Half(Half(Half(Half(c)))), 12) == Below(h, 8);
    assert Below(c, 16) == Below(Half(Half(Half(Half(c)))), 12);
  }

  lemma TapIsOdd()
    ensures OddReg(Reg(0xA001), 16) && OddReg(One(true), 16) && !OddReg(One(false), 16)
  {
    assert !OddReg(ZERO, 1) && !OddReg(ZERO, 3) && !OddReg(ZERO, 5) && !OddReg(ZERO, 7);
    assert !OddReg(ZERO, 9) && !OddReg(ZERO, 11) && !OddReg(ZERO, 13) && !OddReg(ZERO, 15);
    assert Half(One(true)) == ZERO && LowBit(One(true));
    assert OddReg(Reg(1), 1) && OddReg(Reg(2), 2) && !OddReg(Reg(5), 3) && !OddReg(Reg(0xA), 4);
    assert !OddReg(Reg(0x28), 6) && !OddReg(Reg(0xA0), 8) && !OddReg(Reg(0x280), 10);
    assert !OddReg(Reg(0xA00), 12) && !OddReg(Reg(0x2800), 14) && !OddReg(Reg(0x5000), 15);
  }

  lemma OddShift(c: Reg)
    ensures OddReg(Shift(c), 16) == OddReg(c, 16)
  {
    hide Mix, Half, LowBit;
    Below16(c);
    OddBelow(Half(c), 15);
    OddMix(Half(c), Reg(0xA001), 16);
    TapIsOdd();
  }

  lemma {:induction false} OddFeed(c: Reg, bits: seq<bool>)
    ensures OddReg(Feed(c, bits), 16) == (OddReg(c, 16) != Odd(bits))
    decreases bits
  {
    hide OddReg, Shift, Mix, One;
    if bits != [] {
      var x := Mix(c, One(bits[0]));
      TapIsOdd();
      OddMix(c, One(bits[0]), 16);
      OddShift(x);
      OddFeed(Shift(x), bits[1..]);
    }
  }

  /** Messages of equal length that differ in an odd number of bits never share a CRC. */
  lemma OddDamageDetected(init: Reg, a: seq<bv8>, b: seq<bv8>)
    requires |a| == |b| && Odd(Xor(Bits(a), Bits(b)))
    ensures Crc(init, a) != Crc(init, b)
  {
    hide Feed, Mix, Bits, Crc, OddReg;
    CrcIsFeed(init, a);
    CrcIsFeed(init, b);
    FeedDifference(init, init, Bits(a), Bits(b));
    MixSame(init, init);
    MixSame(Crc(init, a), Crc(init, b));
    OddFeed(ZERO, Xor(Bits(a), Bits(b)));
    ZeroIsEven();
  }

  lemma ZeroIsEven()
    ensures !OddReg(ZERO, 16)
  {
    TapIsOdd();
  }

  // The residue: what a receiver sees over a payload and its trailer.

  function HighByte(y: bv8): Reg {
    Reg((y as bv16) << 8)
  }

  lemma ShiftsHighByte(y: bv8)
    ensures Shifts(HighByte(y), 8) == Byte(y)
  {
  }

  lemma {:induction false} ShiftsLinear(x: Reg, y: Reg, n: nat)
    ensures Shifts(Mix(x, y), n) == Mix(Shifts(x, n), Shifts(y, n))
    decreases n
  {
    if n > 0 {
      hide Shift, Mix;
      ShiftLinear(x, y);
      ShiftsLinear(Shift(x), Shift(y), n - 1);
    }
  }

  lemma {:induction false} ShiftsInjective(x: Reg, n: nat)
    ensures Shifts(x, n) == ZERO <==> x == ZERO
    decreases n
  {
    if n > 0 {
      hide Shift;
      ShiftInjective(x);
      ShiftsInjective(Shift(x), n - 1);
    }
  }

  lemma ShiftsEqual(x: Reg, y: Reg, n: nat)
    ensures Shifts(x, n) == Shifts(y, n) <==> x == y
  {
    hide Mix, Shifts;
    ShiftsLinear(x, y, n);
    ShiftsInjective(Mix(x, y), n);
    MixSame(x, y);
    MixSame(Shifts(x, n), Shifts(y, n));
  }

  lemma OwnBytes(c: Reg)
    ensures Mix(c, Byte(Low(c))) == HighByte(High(c))
  {
  }

  lemma JoinedBytes(x: bv8, y: bv8)
    ensures Low(Mix(HighByte(y), Byte(x))) == x && High(Mix(HighByte(y), Byte(x))) == y
  {
  }

  lemma MixIsHighByte(c: Reg, x: bv8, y: bv8)
    ensures Mix(c, Byte(x)) == HighByte(y) <==> x == Low(c) && y == High(c)
  {
    hide Mix, Byte, HighByte, Low, High;
    OwnBytes(c);
    if Mix(c, Byte(x)) == HighByte(y) {
      MixAssoc(c, Byte(x), Byte(x));
      MixSame(Byte(x), Byte(x));
      MixZero(c);
      JoinedBytes(x, y);
    }
  }

  /** Two closing bytes bring the register to zero exactly when they are the CRC, low byte first. */
  lemma ResidueExactly(m: seq<bv8>, x: bv8, y: bv8)
    ensures Crc(INIT, m + [x, y]) == ZERO <==> [x, y] == Trailer(m)
  {
    var c := Crc(INIT, m);
    assert (m + [x, y])[..|m| + 1] == m + [x] && (m + [x])[..|m|] == m;
    assert Crc(INIT, m + [x]) == Step(c, Byte(x));
    assert Crc(INIT, m + [x, y]) == Step(Step(c, Byte(x)), Byte(y));
    hide Mix, Shifts, Byte, HighByte, Crc, Low, High;
    var z := Mix(c, Byte(x));
    ShiftsInjective(Mix(Shifts(z, 8), Byte(y)), 8);
    MixSame(Shifts(z, 8), Byte(y));
    ShiftsHighByte(y);
    ShiftsEqual(z, HighByte(y), 8);
    MixIsHighByte(c, x, y);
  }

  // A value to compare with: the register over a single zero byte.

  lemma ShiftsOne(c: Reg, n: nat)
    requires n > 0
    ensures Shifts(c, n) == Shifts(Shift(c), n - 1)
  {
  }

  lemma ZeroByte()
    ensures Crc(Reg(0xFFFF), [0]) == Reg(0x40BF)
  {
    var c1 := Shift(Reg(0xFFFF));
    assert c1 == Reg(0xDFFE);
    var c2 := Shift(c1);
    assert c2 == Reg(0x6FFF);
    var c3 := Shift(c2);
    assert c3 == Reg(0x97FE);
    var c4 := Shift(c3);
    assert c4 == Reg(0x4BFF);
    var c5 := Shift(c4);
    assert c5 == Reg(0x85FE);
    var c6 := Shift(c5);
    assert c6 == Reg(0x42FF);
    var c7 := Shift(c6);
    assert c7 == Reg(0x817E);
    var c8 := Shift(c7);
    assert c8 == Reg(0x40BF);
    assert Mix(Reg(0xFFFF), Byte(0)) == Reg(0xFFFF);
    hide Shift, Mix;
    assert [0 as bv8][..0] == [];
    ShiftsOne(Reg(0xFFFF), 8);
    ShiftsOne(c1, 7);
    ShiftsOne(c2, 6);
    ShiftsOne(c3, 5);
    ShiftsOne(c4, 4);
    ShiftsOne(c5, 3);
    ShiftsOne(c6, 2);
    ShiftsOne(c7, 1);
  }
}
