/**
 Turning a 16-bit shaft angle into an unbounded position: a coarse counter of full turns, a fine term
 in tenths of a degree, and a ring of the last 128 movements.
 */
module WrapTracker {
  import opened Memory

  const TURN: int := 0x1_0000
  const HALF: int := 0x8000
  const TENTHS: int := 3600
  const RING: nat := 128

  /** The movement a pair of raw angles is taken for; jumps over half a turn count as wraps. */
  function Movement(before: u16, now: u16): int {
    var d := now as int - before;
    if d < -HALF then d + TURN else if d > HALF then d - TURN else d
  }

  function Wraps(before: u16, now: u16): int {
    var d := now as int - before;
    if d < -HALF then 1 else if d > HALF then -1 else 0
  }

  function Fine(raw: u16): int {
    raw * TENTHS / TURN
  }

  class Tracker {
    var prev: u16
    var coarse: int
    var fine: u16
    const ring: array<int>
    var at: nat

    ghost predicate Valid()
      reads this
    {
      ring.Length == RING && at < RING
    }

    constructor ()
      ensures Valid() && prev == 0 && coarse == 0 && fine == 0 && at == 0 && fresh(ring)
    {
      prev, coarse, fine, at := 0, 0, 0, 0;
      ring := new int[RING](_ => 0);
    }

    /** One sample: wrap count, fine term, and the movement pushed into the ring. */
    method Track(v: u16)
      requires Valid()
      modifies this, ring
      ensures Valid() && prev == v && fine == Fine(v)
      ensures coarse == old(coarse) + Wraps(old(prev), v)
      ensures ring[..] == old(ring[..])[old(at) := Movement(old(prev), v)] && at == (old(at) + 1) % 128
    {
      var o := prev;
      prev := v;
      var d := v as int - o;
      if d < -HALF {
        coarse := coarse + 1;
      } else if d > HALF {
        coarse := coarse - 1;
      }
      fine := v * TENTHS / TURN;
      if d < -HALF {
        d := d + TURN;
      } else if d > HALF {
        d := d - TURN;
      }
      ring[at] := d;
      at := (at + 1) % RING;
    }

    /**
     The actuator's target: the base less the tracked position in tenths of a degree. The fine term is
     read back as a signed 16-bit value, which it always fits.
     */
    function CalcTimeOffset(base: int): (offset: int)
      reads this
      ensures fine == Fine(prev) ==> offset == base - TENTHS * (TURN * coarse + prev) / TURN
    {
      assert TENTHS * (TURN * coarse + prev) == TURN * (TENTHS * coarse) + TENTHS * prev;
      base - (coarse * TENTHS + (if fine < 0x8000 then fine as int else fine as int - TURN))
    }
  }

  // ---------------------------------------------------------------- runs

  datatype Track = Track(prev: u16, coarse: int, fine: int, pushed: seq<int>)

  function Follow(s: Track, v: u16): Track {
    Track(v, s.coarse + Wraps(s.prev, v), Fine(v), s.pushed + [Movement(s.prev, v)])
  }

  function Run(s: Track, raws: seq<u16>): Track {
    if raws == [] then s else var n := |raws| - 1; Follow(Run(s, raws[..n]), raws[n])
  }

  function Sum(ds: seq<int>): int {
    if ds == [] then 0 else var n := |ds| - 1; Sum(ds[..n]) + ds[n]
  }

  function Position(s: Track): int {
    TURN * s.coarse + s.prev
  }

  /** The pushed movements always add up to the change of the combined position. */
  lemma {:induction false} MovementsAddUp(s: Track, raws: seq<u16>)
    ensures var e := Run(s, raws);
            && s.pushed <= e.pushed
            && Sum(e.pushed) - Sum(s.pushed) == Position(e) - Position(s)
  {
    if raws != [] {
      var n := |raws| - 1;
      MovementsAddUp(s, raws[..n]);
      var m := Run(s, raws[..n]);
      var p := m.pushed + [Movement(m.prev, raws[n])];
      assert p[..|p| - 1] == m.pushed;
    }
  }

  /** Coarse and fine together are the combined position in tenths of a degree, rounded down. */
  lemma {:induction false} FineFollows(s: Track, raws: seq<u16>)
    requires s.fine == Fine(s.prev)
    ensures var e := Run(s, raws);
            && 0 <= e.fine < 3600
            && e.coarse * 3600 + e.fine == 3600 * (65536 * e.coarse + e.prev) / 65536
  {
  }

  /** The raw angle of an unbounded shaft position. */
  function Raw(p: int): u16 {
    p % TURN
  }

  /**
   The tracker sees the true movement exactly when the shaft has turned by less than half a turn, or
   by precisely half a turn in the direction in which the raw angle did not wrap.
   */
  lemma MovementIsTrue(p: int, q: int)
    ensures Movement(Raw(p), Raw(q)) == q - p <==>
              (-HALF < q - p < HALF || (q - p == HALF && Raw(p) < HALF) || (q - p == -HALF && Raw(p) >= HALF))
  {
  }

  function Raws(ps: seq<int>): (r: seq<u16>)
    ensures |r| == |ps|
  {
    seq(|ps|, i requires 0 <= i < |ps| => Raw(ps[i]))
  }

  function Before(start: int, ps: seq<int>, i: nat): int
    requires i < |ps|
  {
    if i == 0 then start else ps[i - 1]
  }

  /** While every step is under half a turn, the tracker follows the shaft over any distance. */
  lemma {:induction false} FollowsShaft(s: Track, start: int, ps: seq<int>)
    requires s.prev == Raw(start)
    requires forall i :: 0 <= i < |ps| ==> -HALF < ps[i] - Before(start, ps, i) < HALF
    ensures Position(Run(s, Raws(ps))) - Position(s) == (if ps == [] then 0 else ps[|ps| - 1] - start)
    ensures Run(s, Raws(ps)).prev == Raw(if ps == [] then start else ps[|ps| - 1])
  {
    if ps != [] {
      var n := |ps| - 1;
      assert forall i :: 0 <= i < n ==> Before(start, ps[..n], i) == Before(start, ps, i);
      FollowsShaft(s, start, ps[..n]);
      assert Raws(ps)[..n] == Raws(ps[..n]);
      MovementIsTrue(Before(start, ps, n), ps[n]);
    }
  }
}
