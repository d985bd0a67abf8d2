/**
 The charger's timing search: a multiplier between 385 and 3 such that base times multiplier divides
 the total, from which quotient, duty and phase bytes of the setpoint frame follow.
 */
module ChargeProfile {
  import opened Memory

  const TOP: nat := 0x181
  const THRESH_HI: nat := 999999
  const THRESH_LO: nat := 799999

  function Factor(base: nat): nat {
    if THRESH_HI < base then 0x2EE else if THRESH_LO < base then 800 else 0x36B
  }

  function Duty(base: nat, mult: nat): nat
    requires 3 <= mult
  {
    mult * Factor(base) / 1000 - 1
  }

  /** The complementary duty byte, before truncation; its low byte must be below 128. */
  function Complement(base: nat, mult: nat): int
    requires 3 <= mult
  {
    mult - 3 - Duty(base, mult) % 256
  }

  predicate DutyFits(base: nat, mult: nat)
    requires 3 <= mult
  {
    Duty(base, mult) % 256 <= (mult - 3) % 256 && Complement(base, mult) % 256 < 128
  }

  predicate Divides(base: nat, mult: nat, total: nat)
    requires base >= 1 && mult >= 1
  {
    base * mult <= total && total % (base * mult) == 0
  }

  function Quotient(base: nat, mult: nat, total: nat): nat
    requires base >= 1 && mult >= 1
  {
    total / (base * mult)
  }

  /** What the frame's first word can say: quotient minus one in 16 bits. */
  function Word(base: nat, mult: nat, total: nat): int
    requires base >= 1 && mult >= 1
  {
    (Quotient(base, mult, total) - 1) % 0x1_0000
  }

  /** The search as the loop performs it, from `mult` down; the first oversized word gives up. */
  function Search(base: nat, total: nat, mult: nat): (m: Option<nat>)
    requires base >= 1 && mult >= 2
    ensures m.Some? ==> 3 <= m.value <= mult
    decreases mult
  {
    if mult == 2 then None
    else if Divides(base, mult, total) && Word(base, mult, total) > 0x1FF then None
    else if Divides(base, mult, total) && DutyFits(base, mult) then Some(mult)
    else Search(base, total, mult - 1)
  }

  /** The setpoint frame for multiplier `m`. */
  predicate FrameSays(f: seq<u8>, base: nat, total: nat, m: nat)
    requires base >= 1 && m >= 3
  {
    && |f| >= 5
    && f[0] + 256 * (f[1] as int) == Word(base, m, total)
    && f[2] == ((m % 256 + 4) / 5 - 1) % 256
    && f[3] == Duty(base, m) % 256
    && f[4] == Complement(base, m) % 256
  }

  datatype Verdict = Hit | Miss | GiveUp

  /** Duty, complement and phase bytes for one multiplier; they stay in the frame even on a miss. */
  method FillDuty(base: u32, mult: nat, frame: array<u8>) returns (ok: bool)
    requires frame.Length >= 5 && 3 <= mult <= TOP
    modifies frame
    ensures ok <==> DutyFits(base, mult)
    ensures ok ==> frame[2] == ((mult % 256 + 4) / 5 - 1) % 256
    ensures ok ==> frame[3] == Duty(base, mult) % 256 && frame[4] == Complement(base, mult) % 256
    ensures frame[0] == old(frame[0]) && frame[1] == old(frame[1]) && frame[5..] == old(frame[5..])
  {
    var factor := if THRESH_HI < base then 0x2EE else if THRESH_LO < base then 800 else 0x36B;
    var duty := mult * factor / 1000 - 1;
    var dutyLow: u8 := duty % 256;
    frame[3] := dutyLow;
    assert duty == Duty(base, mult);
    hide Duty, Factor;
    LowByteMinus(mult, 3);
    if dutyLow <= (mult % 256 - 3) % 256 {
      var comp: int := mult - 3 - dutyLow;
      frame[4] := comp % 256;
      if comp % 256 < 128 {
        frame[2] := ((mult % 256 + 4) / 5 - 1) % 256;
        return true;
      }
    }
    return false;
  }

  method Try(base: u32, total: u32, mult: nat, period: u32, frame: array<u8>) returns (v: Verdict)
    requires frame.Length >= 5 && 3 <= mult <= TOP && base >= 1 && period == base * mult
    modifies frame
    ensures v == if !Divides(base, mult, total) then Miss
                 else if Word(base, mult, total) > 0x1FF then GiveUp
                 else if DutyFits(base, mult) then Hit else Miss
    ensures v == Hit ==> FrameSays(frame[..], base, total, mult)
    ensures frame[5..] == old(frame[5..])
  {
    Products(base, mult, period);
    if period <= total && period * (total / period) - total == 0 {
      DividesExactly(period, total);
      var q := total / period - 1;
      frame[0], frame[1] := q % 256, q / 256 % 256;
      WordBytes(q);
      if q % 0x1_0000 > 0x1FF {
        return GiveUp;
      }
      hide DutyFits, Duty, Complement;
      var ok := FillDuty(base, mult, frame);
      return if ok then Hit else Miss;
    } else {
      NotDivided(period, total);
      return Miss;
    }
  }

  method ComputeProfile(base: u32, total: u32, frame: array<u8>) returns (found: bool)
    requires frame.Length >= 5
    requires base >= 1 && TOP * base < 0x1_0000_0000
    modifies frame
    ensures found <==> Search(base, total, TOP).Some?
    ensures found ==> FrameSays(frame[..], base, total, Search(base, total, TOP).value)
    ensures frame[5..] == old(frame[5..])
  {
    hide FrameSays, DutyFits, Word, Divides;
    var mult := TOP;
    var period: u32 := base * TOP;
    while true
      invariant 3 <= mult <= TOP && period == base * mult
      invariant Search(base, total, TOP) == Search(base, total, mult)
      invariant frame[5..] == old(frame[5..])
      decreases mult
    {
      var v := Try(base, total, mult, period, frame);
      if v.GiveUp? {
        return false;
      }
      if v.Hit? {
        return true;
      }
      NextPeriod(base, mult);
      mult := mult - 1;
      period := period - base;
      if mult == 2 {
        return false;
      }
    }
  }

  lemma NextPeriod(base: nat, mult: nat)
    requires mult >= 1
    ensures base * (mult - 1) == base * mult - base >= 0
  {
  }

  lemma Products(base: nat, mult: nat, period: nat)
    requires base >= 1 && mult >= 3 && period == base * mult
    ensures period >= 3
  {
  }

  lemma DividesExactly(d: nat, n: nat)
    requires d >= 1 && d * (n / d) == n
    ensures n % d == 0
  {
  }

  lemma NotDivided(d: nat, n: nat)
    requires d >= 1 && !(d <= n && d * (n / d) - n == 0)
    ensures !(d <= n && n % d == 0)
  {
  }

  lemma WordBytes(q: nat)
    ensures q % 256 + 256 * (q / 256 % 256) == q % 0x1_0000
  {
    var a, r := q / 0x1_0000, q % 0x1_0000;
    assert q == 0x1_0000 * a + r;
    assert q % 256 == r % 256;
    assert q / 256 == 256 * a + r / 256;
    assert (256 * a + r / 256) % 256 == r / 256;
  }

  lemma LowByteMinus(n: nat, k: nat)
    requires k <= n
    ensures (n % 256 - k) % 256 == (n - k) % 256
  {
  }

  // ---------------------------------------------------------------- what the search means

  /** A multiplier the frame format can express. */
  predicate Solves(base: nat, mult: nat, total: nat)
    requires base >= 1 && mult >= 3
  {
    Divides(base, mult, total) && Quotient(base, mult, total) <= 512 && DutyFits(base, mult)
  }

  lemma Exact(base: nat, mult: nat, total: nat)
    requires base >= 1 && mult >= 1 && Divides(base, mult, total)
    ensures base * mult * Quotient(base, mult, total) == total && Quotient(base, mult, total) >= 1
  {
  }

  lemma CancelLess(c: nat, x: int, y: int)
    requires c >= 1
    ensures c * x < c * y <==> x < y
  {
  }

  /** The smaller of two dividing multipliers has the larger quotient. */
  lemma QuotientGrows(base: nat, m: nat, n: nat, total: nat)
    requires base >= 1 && 1 <= m < n && Divides(base, m, total) && Divides(base, n, total)
    ensures Quotient(base, m, total) > Quotient(base, n, total)
  {
  }

  /** A dividing multiplier whose quotient leaves the 16-bit word and comes back small enough to pass. */
  predicate Misleads(base: nat, mult: nat, total: nat)
    requires base >= 1 && mult >= 3
  {
    && Divides(base, mult, total) && Quotient(base, mult, total) > 65536
    && Word(base, mult, total) <= 0x1FF && DutyFits(base, mult)
  }

  /** The loop goes on below this multiplier: it does not divide, or only its duty does not fit. */
  predicate Passed(base: nat, mult: nat, total: nat)
    requires base >= 1 && mult >= 3
  {
    Divides(base, mult, total) ==> Word(base, mult, total) <= 0x1FF && !DutyFits(base, mult)
  }

  predicate AllPassed(base: nat, low: nat, high: nat, total: nat)
    requires base >= 1 && low >= 3
  {
    forall n :: low <= n <= high ==> Passed(base, n, total)
  }

  /** Where the loop stops: at the first multiplier from the top that it does not pass. */
  lemma {:induction false} SearchStops(base: nat, total: nat, mult: nat, m: nat)
    requires base >= 1 && 3 <= m <= mult && AllPassed(base, m + 1, mult, total) && !Passed(base, m, total)
    ensures Search(base, total, mult) == if Word(base, m, total) > 0x1FF then None else Some(m)
    decreases mult
  {
    hide DutyFits, Divides, Word;
    if m < mult {
      assert Passed(base, mult, total);
      SearchStops(base, total, mult - 1, m);
    }
  }

  lemma {:induction false} SearchRunsOut(base: nat, total: nat, mult: nat)
    requires base >= 1 && mult >= 2 && AllPassed(base, 3, mult, total)
    ensures Search(base, total, mult) == None
    decreases mult
  {
    hide DutyFits, Divides, Word;
    if mult > 2 {
      assert Passed(base, mult, total);
      SearchRunsOut(base, total, mult - 1);
    }
  }

  /** The result is the largest solution, and there is none only if nothing solves. */
  predicate IsLargest(base: nat, total: nat, mult: nat, s: Option<nat>)
    requires base >= 1
  {
    && (s.Some? ==> 3 <= s.value <= mult && Solves(base, s.value, total))
    && forall m :: 3 <= m <= mult && Solves(base, m, total) ==> s.Some? && m <= s.value
  }

  lemma PassedDoesNotSolve(base: nat, m: nat, total: nat)
    requires base >= 1 && m >= 3 && Passed(base, m, total)
    ensures !Solves(base, m, total)
  {
  }

  lemma WordMeaning(base: nat, m: nat, total: nat)
    requires base >= 1 && m >= 1 && Divides(base, m, total)
    ensures Word(base, m, total) > 0x1FF ==> Quotient(base, m, total) > 512
    ensures Word(base, m, total) <= 0x1FF ==> Quotient(base, m, total) <= 512 || Quotient(base, m, total) > 65536
  {
  }

  /** A stop that does not mislead is right: nothing below an oversized word can solve either. */
  lemma StopIsRight(base: nat, total: nat, mult: nat, m: nat)
    requires base >= 1 && 3 <= m <= mult && AllPassed(base, m + 1, mult, total) && !Passed(base, m, total)
    ensures IsLargest(base, total, mult, Search(base, total, mult)) <==> !Misleads(base, m, total)
  {
    SearchStops(base, total, mult, m);
    WordMeaning(base, m, total);
    hide DutyFits, Divides, Quotient, Word, Search;
    forall n | m < n <= mult
      ensures !Solves(base, n, total)
    {
      PassedDoesNotSolve(base, n, total);
    }
    if Word(base, m, total) > 0x1FF {
      forall n | 3 <= n <= m
        ensures !Solves(base, n, total)
      {
        if n < m && Divides(base, n, total) {
          QuotientGrows(base, n, m, total);
        }
      }
    }
  }

  /** The largest multiplier that the loop does not pass. */
  lemma {:induction false} FirstStop(base: nat, total: nat, mult: nat) returns (m: nat)
    requires base >= 1 && mult >= 2 && !AllPassed(base, 3, mult, total)
    ensures 3 <= m <= mult && AllPassed(base, m + 1, mult, total) && !Passed(base, m, total)
    decreases mult
  {
    hide Passed;
    m := mult;
    if Passed(base, mult, total) {
      m := FirstStop(base, total, mult - 1);
    }
  }

  lemma MisleadingStops(base: nat, m: nat, total: nat)
    requires base >= 1 && m >= 3 && Misleads(base, m, total)
    ensures !Passed(base, m, total)
  {
  }

  /**
   For every base and every total, without a bound: the search finds the largest solution, or none only
   if there is none, exactly when no multiplier misleads before the loop stops above it.
   */
  lemma SearchIsRightExactly(base: nat, total: nat, mult: nat)
    requires base >= 1 && mult >= 2
    ensures IsLargest(base, total, mult, Search(base, total, mult)) <==>
              !exists m :: 3 <= m <= mult && Misleads(base, m, total) && AllPassed(base, m + 1, mult, total)
  {
    if AllPassed(base, 3, mult, total) {
      SearchRunsOut(base, total, mult);
      forall m | 3 <= m <= mult
        ensures !Solves(base, m, total) && !Misleads(base, m, total)
      {
        assert Passed(base, m, total);
      }
    } else {
      var m := FirstStop(base, total, mult);
      StopIsRight(base, total, mult, m);
      hide DutyFits, Divides, Quotient, Word, Search;
      forall n | 3 <= n <= mult && Misleads(base, n, total) && AllPassed(base, n + 1, mult, total)
        ensures n == m
      {
        MisleadingStops(base, n, total);
      }
    }
  }

  /** Totals up to 65536 * 3 * base cannot mislead. */
  lemma SmallTotals(base: nat, mult: nat, total: nat)
    requires base >= 1 && mult >= 3 && total <= 65536 * 3 * base
    ensures !Misleads(base, mult, total)
  {
    hide DutyFits, Word, Divides, Quotient;
    if Divides(base, mult, total) {
      SmallQuotient(base, mult, total);
    }
  }

  lemma SmallQuotient(base: nat, mult: nat, total: nat)
    requires base >= 1 && mult >= 3 && Divides(base, mult, total) && total <= 65536 * 3 * base
    ensures Quotient(base, mult, total) <= 65536
  {
    var q := Quotient(base, mult, total);
    Exact(base, mult, total);
    var d := base * 3;
    assert base * mult == d + base * (mult - 3);
    assert (d + base * (mult - 3)) * q == d * q + base * (mult - 3) * q;
    CancelLess(d, 65536, q);
  }

  /** So for these totals the search is right without further conditions. */
  lemma SearchIsComplete(base: nat, total: nat, mult: nat)
    requires base >= 1 && mult >= 2 && total <= 65536 * 3 * base
    ensures IsLargest(base, total, mult, Search(base, total, mult))
  {
    SearchIsRightExactly(base, total, mult);
    hide Misleads, IsLargest;
    forall m | 3 <= m <= mult
      ensures !Misleads(base, m, total)
    {
      SmallTotals(base, m, total);
    }
  }

  /**
   What the frame is worth, for every base whose top period fits in 32 bits and every total: on a hit it
   multiplies back to the total exactly when the search was right, and its bytes share out the multiplier.
   */
  lemma ProfileIsRight(base: u32, total: u32, f: seq<u8>)
    requires base >= 1 && TOP * base < 0x1_0000_0000
    ensures var s := Search(base, total, TOP);
            s.Some? && FrameSays(f, base, total, s.value) ==>
              var m := s.value;
              && (base * m * (f[0] + 256 * (f[1] as int) + 1) == total <==> IsLargest(base, total, TOP, s))
              && f[3] as int + f[4] + 3 == if m <= 258 then m else m - 256
  {
    if Search(base, total, TOP).Some? {
      var m := HitIsStop(base, total, TOP);
      StopIsRight(base, total, TOP, m);
      WordExactly(base, m, total);
      DutyBytes(base, m);
      hide Search, IsLargest, DutyFits, AllPassed, Passed;
    }
  }

  /** A hit is at the loop's stop. */
  lemma HitIsStop(base: nat, total: nat, mult: nat) returns (m: nat)
    requires base >= 1 && mult >= 2 && Search(base, total, mult).Some?
    ensures Search(base, total, mult) == Some(m) && 3 <= m <= mult && AllPassed(base, m + 1, mult, total)
    ensures !Passed(base, m, total) && Divides(base, m, total)
    ensures Word(base, m, total) <= 0x1FF && DutyFits(base, m)
  {
    if AllPassed(base, 3, mult, total) {
      SearchRunsOut(base, total, mult);
    }
    m := FirstStop(base, total, mult);
    SearchStops(base, total, mult, m);
  }

  /** Duty and complement share out the period, less three, modulo the byte. */
  lemma DutyBytes(base: nat, m: nat)
    requires 3 <= m <= TOP && DutyFits(base, m)
    ensures Duty(base, m) % 256 + Complement(base, m) % 256 + 3 == if m <= 258 then m else m - 256
  {
  }

  /**
   The condition can fail: with base 1 and this total the search accepts 385 although the quotient is
   65537, no solution at all, and the frame says 0.
   */
  lemma WordWraps()
    ensures Search(1, 25231745, TOP) == Some(385) && Quotient(1, 385, 25231745) == 65537
    ensures Word(1, 385, 25231745) == 0 && Misleads(1, 385, 25231745)
    ensures !IsLargest(1, 25231745, TOP, Search(1, 25231745, TOP))
  {
  }

  /** In general the frame multiplies back exactly when the quotient fits: no more than 65536. */
  lemma WordExactly(base: nat, mult: nat, total: nat)
    requires base >= 1 && mult >= 3 && Divides(base, mult, total)
    ensures base * mult * (Word(base, mult, total) + 1) == total <==> Quotient(base, mult, total) <= 65536
  {
    var q, w := Quotient(base, mult, total), Word(base, mult, total);
    Exact(base, mult, total);
    hide Divides, Quotient;
    CancelLess(base * mult, w + 1, q);
    CancelLess(base * mult, q, w + 1);
  }

  // ---------------------------------------------------------------- what the bytes say

  /** The duty, plus one, is 75, 80 or 87.5 percent of the multiplier, rounded down, the less the higher the base. */
  lemma DutyShare(base: nat, m: nat)
    requires 3 <= m
    ensures base > 999999 ==> 4 * (Duty(base, m) + 1) <= 3 * m < 4 * (Duty(base, m) + 2)
    ensures 799999 < base <= 999999 ==> 5 * (Duty(base, m) + 1) <= 4 * m < 5 * (Duty(base, m) + 2)
    ensures base <= 799999 ==> 8 * (Duty(base, m) + 1) <= 7 * m < 8 * (Duty(base, m) + 2)
  {
  }

  /** The phase byte, plus one, counts the fives in the multiplier's low byte, rounded up. */
  lemma PhaseByte(f: seq<u8>, base: nat, total: nat, m: nat)
    requires base >= 1 && m >= 3 && FrameSays(f, base, total, m) && m % 256 != 0
    ensures 5 * (f[2] as int) < m % 256 <= 5 * (f[2] as int + 1)
  {
  }

  /** The frame's bytes for duty and complement, and when the duty checks pass, in plain terms. */
  lemma DutyFitsExactly(base: nat, m: nat)
    requires 3 <= m <= TOP
    ensures var low := Duty(base, m) % 256; var rest := (m - 3) % 256;
            DutyFits(base, m) <==> low <= rest && rest - low < 128
  {
  }
}
