/** What a circular buffer holds: a window of cells that may wrap past the end. */
module Ring {

  function Wrap(i: nat, capacity: nat): (j: nat)
    requires i < 2 * capacity
    ensures j < capacity
  {
    if i < capacity then i else i - capacity
  }

  /** The `n` cells from `at` on. */
  function Window<T>(buf: seq<T>, at: nat, n: nat): (w: seq<T>)
    requires at < |buf| && n <= |buf|
    ensures |w| == n && forall i :: 0 <= i < n ==> w[i] == buf[Wrap(at + i, |buf|)]
  {
    seq(n, i requires 0 <= i < n => buf[Wrap(at + i, |buf|)])
  }

  lemma WindowPush<T>(buf: seq<T>, at: nat, n: nat, x: T)
    requires at < |buf| && n < |buf|
    ensures Window(buf[Wrap(at + n, |buf|) := x], at, n + 1) == Window(buf, at, n) + [x]
  {
  }

  lemma WindowDrop<T>(buf: seq<T>, at: nat, n: nat, k: nat)
    requires at < |buf| && k <= n <= |buf|
    ensures Window(buf, Wrap(at + k, |buf|), n - k) == Window(buf, at, n)[k..]
  {
  }

  /** A window laid out in two parts: up to the end of the buffer, then from its start. */
  lemma WindowParts<T>(buf: seq<T>, at: nat, n: nat)
    requires at < |buf| && n <= |buf|
    ensures Window(buf, at, n)
              == if at + n <= |buf| then buf[at..at + n] else buf[at..] + buf[..at + n - |buf|]
  {
  }

  /** The first `n` cells of a window, in two parts where it wraps, and the window that is left. */
  lemma WindowSplit<T>(buf: seq<T>, at: nat, used: nat, n: nat, first: nat)
    requires at < |buf| && n <= used <= |buf| && first == if n < |buf| - at then n else |buf| - at
    ensures Window(buf, at, used)[..n]
              == if first < n then buf[at..at + first] + buf[..n - first] else buf[at..at + first]
    ensures Window(buf, Wrap(at + n, |buf|), used - n) == Window(buf, at, used)[n..]
  {
    WindowTake(buf, at, used, n);
    WindowParts(buf, at, n);
    WindowDrop(buf, at, used, n);
    hide Window;
    if at + n == |buf| {
      assert buf[at..] == buf[at..at + n];
    }
  }

  lemma WindowTake<T>(buf: seq<T>, at: nat, n: nat, k: nat)
    requires at < |buf| && k <= n <= |buf|
    ensures Window(buf, at, n)[..k] == Window(buf, at, k)
  {
  }

  /** The buffer after a block has been laid over it from `p` on, wrapping at the end. */
  function Overwritten<T>(buf: seq<T>, p: nat, src: seq<T>): (b: seq<T>)
    requires p < |buf| && |src| <= |buf|
    ensures |b| == |buf|
  {
    if p + |src| <= |buf| then buf[..p] + src + buf[p + |src|..]
    else src[|buf| - p..] + buf[p + |src| - |buf|..p] + src[..|buf| - p]
  }

  /** The block in two parts: up to the end of the buffer, then from its start. */
  lemma OverwrittenParts<T>(buf: seq<T>, p: nat, src: seq<T>, first: nat)
    requires p < |buf| && |src| <= |buf|
    requires first == if |src| < |buf| - p then |src| else |buf| - p
    ensures var mid := buf[..p] + src[..first] + buf[p + first..];
            Overwritten(buf, p, src) == if first < |src| then src[first..] + mid[|src| - first..] else mid
  {
  }

  /** A block laid over the free cells behind a window extends the window by that block. */
  lemma WindowAppend<T>(buf: seq<T>, at: nat, n: nat, src: seq<T>)
    requires at < |buf| && n < |buf| && n + |src| <= |buf|
    ensures Window(Overwritten(buf, Wrap(at + n, |buf|), src), at, n + |src|) == Window(buf, at, n) + src
  {
  }
}
