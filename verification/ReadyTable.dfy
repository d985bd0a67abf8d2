/**
 One level of the bridge's ready table: a circular list of sessions with an index pointer that a pick
 moves on by one. Seen from the index pointer it is a queue.
 */
module ReadyTable {
  import opened Memory

  // ---------------------------------------------------------------- one level

  /**
   A circular list with a sentinel. `at` is the list's index pointer: 0 for the sentinel, k for the
   k-th item behind it.
   */
  datatype Cycle = Cycle(items: seq<nat>, at: nat)

  const EMPTY: Cycle := Cycle([], 0)

  predicate IsCycle(r: Cycle) {
    r.at <= |r.items| && forall i, j :: 0 <= i < j < |r.items| ==> r.items[i] != r.items[j]
  }

  /** List insertion at the end: just before the index pointer. */
  function InsertEnd(r: Cycle, x: nat): Cycle
    requires r.at <= |r.items|
  {
    if r.at == 0 then Cycle(r.items + [x], 0)
    else Cycle(r.items[..r.at - 1] + [x] + r.items[r.at - 1..], r.at + 1)
  }

  function IndexOf(s: seq<nat>, x: nat): (i: nat)
    requires x in s
    ensures i < |s| && s[i] == x && x !in s[..i]
  {
    if s[0] == x then 0 else 1 + IndexOf(s[1..], x)
  }

  /** Unlinking: an index pointer at the removed item steps back to its predecessor. */
  function Remove(r: Cycle, x: nat): Cycle
    requires r.at <= |r.items|
  {
    if x !in r.items then r
    else
      var p := IndexOf(r.items, x);
      Cycle(r.items[..p] + r.items[p + 1..], if r.at > p then r.at - 1 else r.at)
  }

  /** The index pointer moves on, over the sentinel. */
  function Rotate(r: Cycle): Cycle
    requires r.items != [] && r.at <= |r.items|
  {
    r.(at := if r.at == |r.items| then 1 else r.at + 1)
  }

  function Selected(r: Cycle): nat
    requires 0 < r.at <= |r.items|
  {
    r.items[r.at - 1]
  }

  /** The order in which the sessions will be picked. */
  function Upcoming(r: Cycle): seq<nat>
    requires r.at <= |r.items|
  {
    r.items[r.at..] + r.items[..r.at]
  }

  /** A pick takes the head of the queue and sends it to the back. */
  lemma RotateIsQueueStep(r: Cycle)
    requires IsCycle(r) && r.items != []
    ensures var q := Upcoming(r);
            IsCycle(Rotate(r)) && Selected(Rotate(r)) == q[0] && Upcoming(Rotate(r)) == q[1..] + [q[0]]
  {
  }

  /** A newcomer waits for all that were waiting, but not for the running session's next turn. */
  lemma InsertIsEnqueue(r: Cycle, x: nat)
    requires IsCycle(r) && x !in r.items
    ensures var q := Upcoming(r); var n := |q|;
            && IsCycle(InsertEnd(r, x))
            && Upcoming(InsertEnd(r, x)) == if r.at == 0 then q + [x] else q[..n - 1] + [x] + q[n - 1..]
  {
    if r.at > 0 {
      var k, q := r.at, Upcoming(r);
      var items := InsertEnd(r, x).items;
      assert items[k + 1..] == r.items[k..];
      assert items[..k + 1] == r.items[..k - 1] + [x] + [r.items[k - 1]];
      assert q[|q| - 1..] == [r.items[k - 1]] && q[..|q| - 1] == r.items[k..] + r.items[..k - 1];
    }
  }

  function Without(s: seq<nat>, x: nat): seq<nat> {
    if x !in s then s else var p := IndexOf(s, x); s[..p] + s[p + 1..]
  }

  lemma IndexOfUnique(s: seq<nat>, x: nat, i: nat)
    requires i < |s| && s[i] == x && forall j :: 0 <= j < |s| && j != i ==> s[j] != x
    ensures IndexOf(s, x) == i
  {
  }

  lemma WithoutMiddle(a: seq<nat>, x: nat, b: seq<nat>)
    requires x !in a && x !in b
    ensures Without(a + [x] + b, x) == a + b
  {
    IndexOfUnique(a + [x] + b, x, |a|);
  }

  lemma TurnBehind(a: seq<nat>, x: nat, b: seq<nat>, c: seq<nat>)
    ensures var at := |a| + 1 + |b|;
            && Upcoming(Cycle(a + [x] + b + c, at)) == (c + a) + [x] + b
            && Upcoming(Cycle(a + (b + c), at - 1)) == (c + a) + b
  {
  }

  lemma TurnAhead(a: seq<nat>, b: seq<nat>, x: nat, c: seq<nat>)
    ensures Upcoming(Cycle(a + b + [x] + c, |a|)) == b + [x] + (c + a)
    ensures Upcoming(Cycle((a + b) + c, |a|)) == b + (c + a)
  {
  }

  lemma LeaveBehind(r: Cycle, x: nat, p: nat)
    requires IsCycle(r) && p < r.at && r.items[p] == x
    ensures Upcoming(Cycle(r.items[..p] + r.items[p + 1..], r.at - 1)) == Without(Upcoming(r), x)
  {
    hide Upcoming, Without;
    var a, b, c := r.items[..p], r.items[p + 1..r.at], r.items[r.at..];
    assert r.items == a + [x] + b + c && r.items[p + 1..] == b + c;
    assert x !in a && x !in b && x !in c;
    TurnBehind(a, x, b, c);
    WithoutMiddle(c + a, x, b);
  }

  lemma LeaveAhead(r: Cycle, x: nat, p: nat)
    requires IsCycle(r) && r.at <= p < |r.items| && r.items[p] == x
    ensures Upcoming(Cycle(r.items[..p] + r.items[p + 1..], r.at)) == Without(Upcoming(r), x)
  {
    hide Upcoming, Without;
    var a, b, c := r.items[..r.at], r.items[r.at..p], r.items[p + 1..];
    assert r.items == a + b + [x] + c && r.items[..p] == a + b;
    assert x !in a && x !in b && x !in c;
    TurnAhead(a, b, x, c);
    WithoutMiddle(b, x, c + a);
  }

  /** Leaving the list leaves the queue, and disturbs nobody else's place in it. */
  lemma RemoveIsDequeue(r: Cycle, x: nat)
    requires IsCycle(r)
    ensures Upcoming(Remove(r, x)) == Without(Upcoming(r), x)
  {
    hide Upcoming;
    if x !in r.items {
      NotUpcoming(r, x);
    } else if r.at > IndexOf(r.items, x) {
      LeaveBehind(r, x, IndexOf(r.items, x));
    } else {
      LeaveAhead(r, x, IndexOf(r.items, x));
    }
  }

  lemma NotUpcoming(r: Cycle, x: nat)
    requires IsCycle(r) && x !in r.items
    ensures Without(Upcoming(r), x) == Upcoming(r)
  {
  }

  function Rotations(r: Cycle, k: nat): (r': Cycle)
    requires r.items != [] && r.at <= |r.items|
    ensures r'.items == r.items && r'.at <= |r.items| && (k > 0 ==> r'.at > 0)
  {
    if k == 0 then r else Rotate(Rotations(r, k - 1))
  }

  lemma {:induction false} RotationsAt(r: Cycle, k: nat)
    requires IsCycle(r) && 1 <= k <= |r.items|
    ensures Selected(Rotations(r, k)) == Upcoming(r)[k - 1]
    ensures Rotations(r, k).at == if r.at + k <= |r.items| then r.at + k else r.at + k - |r.items|
  {
    if k > 1 {
      RotationsAt(r, k - 1);
    }
  }

  lemma QueueDistinct(r: Cycle, i: nat, j: nat)
    requires IsCycle(r) && i < |r.items| && j < |r.items| && Upcoming(r)[i] == Upcoming(r)[j]
    ensures i == j
  {
  }

  /** As many picks as there are sessions pick every session exactly once. */
  lemma RoundRobin(r: Cycle, x: nat) returns (k: nat)
    requires IsCycle(r) && x in r.items
    ensures 1 <= k <= |r.items|
    ensures forall j :: 1 <= j <= |r.items| ==> (Selected(Rotations(r, j)) == x <==> j == k)
  {
    var i :| 0 <= i < |r.items| && r.items[i] == x;
    k := if i >= r.at then i - r.at + 1 else i + |r.items| - r.at + 1;
    assert Upcoming(r)[k - 1] == x;
    forall j | 1 <= j <= |r.items|
      ensures Selected(Rotations(r, j)) == x <==> j == k
    {
      RotationsAt(r, j);
      if Upcoming(r)[j - 1] == x {
        QueueDistinct(r, j - 1, k - 1);
      }
    }
  }
}
