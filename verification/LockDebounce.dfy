/**
 The e-lock's debounce: each angle sample votes for locked (1) or unlocked (3); 500 repeated votes
 commit the state, and the eighth locked commit since the last unlocked one arms the tilt alarm.
 */
module LockDebounce {

  const LOCKED: nat := 1
  const UNLOCKED: nat := 3
  const VOTES: nat := 500
  const ARMING: nat := 8

  datatype Lock = Lock(target: nat, votes: nat, committed: nat, commits: nat, alarm: bool)

  function Side(angle: int, threshold: int): nat {
    if angle < threshold then LOCKED else UNLOCKED
  }

  function Vote(l: Lock, side: nat): Lock {
    l.(votes := if l.target == side then l.votes + 1 else 0, target := side)
  }

  function Commit(l: Lock): Lock {
    if l.votes < VOTES then l
    else
      var m := l.(committed := l.target, votes := 0);
      if m.committed != LOCKED then m.(alarm := false, commits := 0)
      else if m.commits < ARMING then
        m.(commits := m.commits + 1, alarm := m.alarm || m.commits + 1 == ARMING)
      else m
  }

  class Task {
    var target: nat
    var votes: nat
    var committed: nat
    var commits: nat
    var alarm: bool

    ghost function View(): Lock
      reads this
    {
      Lock(target, votes, committed, commits, alarm)
    }

    constructor ()
      ensures View() == Lock(0, 0, 0, 0, false)
    {
      target, votes, committed, commits, alarm := 0, 0, 0, 0, false;
    }

    /** One sample of the task's loop: vote, then commit once the votes suffice. */
    method Sample(angle: int, threshold: int)
      modifies this
      ensures View() == Commit(Vote(old(View()), Side(angle, threshold)))
    {
      var prev := target;
      if angle < threshold {
        votes := if prev == LOCKED then votes + 1 else 0;
        target := LOCKED;
      } else {
        votes := if prev == UNLOCKED then votes + 1 else 0;
        target := UNLOCKED;
      }
      if votes > 499 {
        committed := target;
        votes := 0;
        if committed == LOCKED {
          if commits < ARMING {
            commits := commits + 1;
            if commits == ARMING {
              alarm := true;
            }
          }
        } else {
          alarm := false;
          commits := 0;
        }
      }
    }
  }

  // ---------------------------------------------------------------- runs

  function Run(sides: seq<nat>): Lock {
    if sides == [] then Lock(0, 0, 0, 0, false)
    else var n := |sides| - 1; Commit(Vote(Run(sides[..n]), sides[n]))
  }

  predicate IsSides(sides: seq<nat>) {
    forall i :: 0 <= i < |sides| ==> sides[i] == LOCKED || sides[i] == UNLOCKED
  }

  /** The last `n` samples were all on one side. */
  predicate Steady(sides: seq<nat>, n: nat, side: nat) {
    n <= |sides| && forall i :: |sides| - n <= i < |sides| ==> sides[i] == side
  }

  /** The committed states of a run, oldest first. */
  function Committed(sides: seq<nat>): seq<nat> {
    if sides == [] then []
    else
      var n := |sides| - 1;
      Committed(sides[..n]) + if Vote(Run(sides[..n]), sides[n]).votes >= VOTES then [sides[n]] else []
  }

  /** Locked commits at the end of a list of commits. */
  function LockedTail(cs: seq<nat>): nat {
    if cs == [] || cs[|cs| - 1] != LOCKED then 0 else 1 + LockedTail(cs[..|cs| - 1])
  }

  lemma {:induction false} VotesAreSteady(sides: seq<nat>)
    requires IsSides(sides)
    ensures var l := Run(sides);
            && l.votes < VOTES && (sides != [] ==> l.target == sides[|sides| - 1])
            && Steady(sides, l.votes, l.target)
  {
    if sides != [] {
      var n := |sides| - 1;
      VotesAreSteady(sides[..n]);
      var l := Run(sides[..n]);
      assert Steady(sides[..n], l.votes, l.target);
      if l.target == sides[n] {
        assert Steady(sides, l.votes + 1, sides[n]);
      }
    }
  }

  /** A commit comes with its sample and at least 499 before it all on the committed side. */
  lemma CommitNeedsVotes(sides: seq<nat>, side: nat)
    requires IsSides(sides + [side]) && Committed(sides + [side]) != Committed(sides)
    ensures Steady(sides + [side], 500, side) && Run(sides + [side]).committed == side
  {
    assert (sides + [side])[..|sides|] == sides;
    assert IsSides(sides) by {
      assert forall i :: 0 <= i < |sides| ==> (sides + [side])[i] == sides[i];
    }
    VotesAreSteady(sides);
    assert Committed(sides) + [] == Committed(sides);
  }

  function Same(side: nat, n: nat): (s: seq<nat>)
    ensures |s| == n
  {
    seq(n, _ => side)
  }

  lemma {:induction false} VotesMount(sides: seq<nat>, side: nat, n: nat)
    requires IsSides(sides) && (side == LOCKED || side == UNLOCKED) && 1 <= n <= VOTES + 1
    ensures var l := Run(sides + Same(side, n)); l.target == side && (l.votes >= n - 1 || l.committed == side)
    ensures n == VOTES + 1 ==> Run(sides + Same(side, n)).committed == side
  {
    var all := sides + Same(side, n);
    assert all[..|all| - 1] == sides + Same(side, n - 1);
    if n > 1 {
      VotesMount(sides, side, n - 1);
    } else {
      assert sides + Same(side, 0) == sides;
      VotesAreSteady(sides);
    }
  }

  /** Conversely, whatever came before, 501 samples on one side always commit it. */
  lemma SteadyCommits(sides: seq<nat>, side: nat)
    requires IsSides(sides) && (side == LOCKED || side == UNLOCKED)
    ensures Run(sides + Same(side, 501)).committed == side
  {
    VotesMount(sides, side, VOTES + 1);
  }

  /** The alarm is armed exactly from the eighth locked commit in a row, and only while locked. */
  lemma {:induction false} AlarmCountsCommits(sides: seq<nat>)
    requires IsSides(sides)
    ensures var l := Run(sides); var cs := Committed(sides); var k := LockedTail(cs);
            && l.commits == (if k < 8 then k else 8)
            && l.committed == (if cs == [] then 0 else cs[|cs| - 1])
            && (l.alarm <==> k >= 8) && (l.alarm ==> l.committed == 1)
  {
    if sides != [] {
      var n := |sides| - 1;
      AlarmCountsCommits(sides[..n]);
      var cs := Committed(sides[..n]);
      assert (cs + [sides[n]])[..|cs|] == cs;
      assert cs + [] == cs;
    }
  }

  /** The votes that a run of angles casts. */
  function SidesOf(angles: seq<int>, threshold: int): (s: seq<nat>)
    ensures |s| == |angles|
  {
    seq(|angles|, i requires 0 <= i < |angles| => Side(angles[i], threshold))
  }

  /** 501 angles below the threshold lock, 501 others unlock, whatever came before. */
  lemma AnglesCommit(before: seq<int>, angles: seq<int>, threshold: int)
    requires |angles| == 501
    ensures (forall k :: 0 <= k < 501 ==> angles[k] < threshold) ==>
              Run(SidesOf(before + angles, threshold)).committed == 1
    ensures (forall k :: 0 <= k < 501 ==> angles[k] >= threshold) ==>
              Run(SidesOf(before + angles, threshold)).committed == 3
  {
    hide Run;
    if forall k :: 0 <= k < 501 ==> angles[k] < threshold {
      SteadyCommits(SidesOf(before, threshold), 1);
      assert SidesOf(before + angles, threshold) == SidesOf(before, threshold) + Same(1, 501);
    }
    if forall k :: 0 <= k < 501 ==> angles[k] >= threshold {
      SteadyCommits(SidesOf(before, threshold), 3);
      assert SidesOf(before + angles, threshold) == SidesOf(before, threshold) + Same(3, 501);
    }
  }
}
