/**
 Sixteen software timers driven by one tick. Each has an armed bit (handed out), an active bit
 (registered), a countdown and a handler. Handlers run inside the tick and may register timers.
 */
module SoftTimer {
  import opened Memory

  const CHANNELS: nat := 16

  /** What code can ask of the timers; a null handler is 0. */
  datatype Request = Allocate | Register(channel: u16, period: u32, handler: u32)

  /** `given` lists the channels handed out and `fired` the handlers run, both oldest first. */
  datatype Timers = Timers(armed: seq<bool>, active: seq<bool>, countdown: seq<u32>, handler: seq<u32>,
                           given: seq<nat>, fired: seq<nat>)

  predicate IsTimers(t: Timers) {
    |t.armed| == |t.active| == |t.countdown| == |t.handler| == CHANNELS
  }

  /** The lowest channel from `k` on that has not been handed out, or 16. */
  function FreeFrom(armed: seq<bool>, k: nat): (c: nat)
    requires |armed| == CHANNELS && k <= CHANNELS
    ensures k <= c <= CHANNELS && (c < CHANNELS ==> !armed[c]) && forall j :: k <= j < c ==> armed[j]
    decreases CHANNELS - k
  {
    if k < CHANNELS && armed[k] then FreeFrom(armed, k + 1) else k
  }

  function Serve(t: Timers, r: Request): (t': Timers)
    requires IsTimers(t)
    ensures IsTimers(t')
  {
    match r
    case Allocate =>
      var c := FreeFrom(t.armed, 0);
      if c == CHANNELS then t
      else t.(armed := t.armed[c := true], countdown := t.countdown[c := 0], handler := t.handler[c := 0],
              given := t.given + [c])
    case Register(c, period, h) =>
      if c >= CHANNELS then t
      else t.(countdown := t.countdown[c := period], handler := t.handler[c := h], active := t.active[c := true])
  }

  function ServeAll(t: Timers, rs: seq<Request>): (t': Timers)
    requires IsTimers(t)
    ensures IsTimers(t')
  {
    if rs == [] then t else var n := |rs| - 1; Serve(ServeAll(t, rs[..n]), rs[n])
  }

  /** What each channel's handler does if it runs in this tick. */
  type Calls = c: seq<seq<Request>> | |c| == CHANNELS
    witness [[], [], [], [], [], [], [], [], [], [], [], [], [], [], [], []]

  /** The tick's turn at one channel. */
  function Visit(t: Timers, c: nat, calls: Calls): (t': Timers)
    requires IsTimers(t) && c < CHANNELS
    ensures IsTimers(t')
  {
    if !t.active[c] || t.countdown[c] == 0 then t
    else
      var d := t.(countdown := t.countdown[c := t.countdown[c] - 1]);
      if d.countdown[c] != 0 || d.handler[c] == 0 then d
      else ServeAll(d.(fired := d.fired + [c]), calls[c])
  }

  function TickUpTo(t: Timers, n: nat, calls: Calls): (t': Timers)
    requires IsTimers(t) && n <= CHANNELS
    ensures IsTimers(t')
  {
    if n == 0 then t else Visit(TickUpTo(t, n - 1, calls), n - 1, calls)
  }

  function Tick(t: Timers, calls: Calls): (t': Timers)
    requires IsTimers(t)
    ensures IsTimers(t')
  {
    TickUpTo(t, CHANNELS, calls)
  }

  class Wheel {
    const armed: array<bool>
    const active: array<bool>
    const countdown: array<u32>
    const handler: array<u32>
    ghost var given: seq<nat>
    ghost var fired: seq<nat>

    ghost predicate Valid()
      reads this, armed, active, countdown, handler
    {
      IsTimers(View()) && armed != active && countdown != handler
    }

    ghost function View(): Timers
      reads this, armed, active, countdown, handler
    {
      Timers(armed[..], active[..], countdown[..], handler[..], given, fired)
    }

    constructor ()
      ensures Valid() && given == [] && fired == []
      ensures forall c :: 0 <= c < CHANNELS ==> !armed[c] && !active[c] && countdown[c] == 0 && handler[c] == 0
    {
      armed := new bool[CHANNELS](_ => false);
      active := new bool[CHANNELS](_ => false);
      countdown := new u32[CHANNELS](_ => 0);
      handler := new u32[CHANNELS](_ => 0);
      given, fired := [], [];
    }

    /** Hands out a channel and clears it; 16 means that none is left. */
    method ChannelClear() returns (c: u16)
      requires Valid()
      modifies this`given, armed, countdown, handler
      ensures Valid() && View() == Serve(old(View()), Allocate)
      ensures c == FreeFrom(old(armed[..]), 0)
    {
      c := 0;
      while c < CHANNELS
        invariant c <= CHANNELS && FreeFrom(armed[..], 0) == FreeFrom(armed[..], c)
        invariant View() == old(View())
      {
        if !armed[c] {
          armed[c], countdown[c], handler[c] := true, 0, 0;
          given := given + [c];
          assert armed[..] == old(armed[..])[c := true];
          assert countdown[..] == old(countdown[..])[c := 0] && handler[..] == old(handler[..])[c := 0];
          return c;
        }
        c := c + 1;
      }
    }

    method ChannelRegister(c: u16, period: u32, h: u32) returns (ok: bool)
      requires Valid()
      modifies active, countdown, handler
      ensures Valid() && View() == Serve(old(View()), Register(c, period, h))
      ensures ok <==> c < CHANNELS
    {
      if c >= CHANNELS {
        return false;
      }
      countdown[c], handler[c], active[c] := period, h, true;
      assert active[..] == old(active[..])[c := true];
      assert countdown[..] == old(countdown[..])[c := period] && handler[..] == old(handler[..])[c := h];
      return true;
    }

    /** A handler, seen from outside: the requests it makes, one after the other. */
    method RunHandler(rs: seq<Request>)
      requires Valid()
      modifies this`given, armed, active, countdown, handler
      ensures Valid() && View() == ServeAll(old(View()), rs)
    {
      ghost var t := View();
      assert rs[..0] == [];
      for k := 0 to |rs|
        invariant Valid() && View() == ServeAll(t, rs[..k])
        invariant fired == old(fired)
      {
        assert rs[..k + 1][..k] == rs[..k];
        match rs[k] {
          case Allocate =>
            var c := ChannelClear();
          case Register(c, period, h) =>
            var ok := ChannelRegister(c, period, h);
        }
      }
      assert rs[..|rs|] == rs;
    }

    method VisitChannel(i: nat, calls: Calls)
      requires Valid() && i < CHANNELS
      modifies this, armed, active, countdown, handler
      ensures Valid() && View() == Visit(old(View()), i, calls)
    {
      if !active[i] || countdown[i] == 0 {
        return;
      }
      countdown[i] := countdown[i] - 1;
      assert countdown[..] == old(countdown[..])[i := countdown[i]];
      if countdown[i] != 0 || handler[i] == 0 {
        return;
      }
      fired := fired + [i];
      RunHandler(calls[i]);
    }

    method TickDispatch(calls: Calls)
      requires Valid()
      modifies this, armed, active, countdown, handler
      ensures Valid() && View() == Tick(old(View()), calls)
    {
      hide Visit;
      for i := 0 to CHANNELS
        invariant Valid() && View() == TickUpTo(old(View()), i, calls)
      {
        VisitChannel(i, calls);
      }
    }
  }

  // ---------------------------------------------------------------- one timer among the others

  predicate Spares(r: Request, c: nat) {
    r.Register? ==> r.channel != c
  }

  predicate AllSpare(rs: seq<Request>, c: nat) {
    forall k :: 0 <= k < |rs| ==> Spares(rs[k], c)
  }

  predicate CallsSpare(calls: Calls, c: nat) {
    forall k :: 0 <= k < CHANNELS ==> AllSpare(calls[k], c)
  }

  /** Registered and handed out, with `n` ticks to go and a handler. */
  predicate Pending(t: Timers, c: nat, n: nat) {
    IsTimers(t) && c < CHANNELS && t.armed[c] && t.active[c] && t.countdown[c] == n && t.handler[c] != 0
  }

  function Fires(t: Timers, c: nat): nat {
    multiset(t.fired)[c]
  }

  lemma {:induction false} OthersSpare(t: Timers, rs: seq<Request>, c: nat, n: nat)
    requires Pending(t, c, n) && AllSpare(rs, c)
    ensures Pending(ServeAll(t, rs), c, n) && ServeAll(t, rs).fired == t.fired
  {
    if rs != [] {
      var k := |rs| - 1;
      OthersSpare(t, rs[..k], c, n);
      assert Spares(rs[k], c);
    }
  }

  /** Another channel's turn leaves this one as it is; its own turn takes one off. */
  lemma VisitOther(t: Timers, i: nat, calls: Calls, c: nat, n: nat)
    requires Pending(t, c, n) && i < CHANNELS && i != c && CallsSpare(calls, c)
    ensures Pending(Visit(t, i, calls), c, n) && Fires(Visit(t, i, calls), c) == Fires(t, c)
  {
    if t.active[i] && t.countdown[i] != 0 {
      var d := t.(countdown := t.countdown[i := t.countdown[i] - 1]);
      OthersSpare(d.(fired := d.fired + [i]), calls[i], c, n);
    }
  }

  lemma VisitSelf(t: Timers, calls: Calls, c: nat, n: nat)
    requires Pending(t, c, n) && CallsSpare(calls, c)
    ensures Pending(Visit(t, c, calls), c, if n == 0 then 0 else n - 1)
    ensures Fires(Visit(t, c, calls), c) == Fires(t, c) + if n == 1 then 1 else 0
  {
    if n == 1 {
      var d := t.(countdown := t.countdown[c := 0]);
      OthersSpare(d.(fired := d.fired + [c]), calls[c], c, 0);
    }
  }

  lemma {:induction false} TickPartly(t: Timers, k: nat, calls: Calls, c: nat, n: nat)
    requires Pending(t, c, n) && k <= CHANNELS && CallsSpare(calls, c)
    ensures var left := if k <= c || n == 0 then n else n - 1;
            Pending(TickUpTo(t, k, calls), c, left)
    ensures Fires(TickUpTo(t, k, calls), c) == Fires(t, c) + if k > c && n == 1 then 1 else 0
  {
    if k > 0 {
      hide Visit;
      TickPartly(t, k - 1, calls, c, n);
      var s := TickUpTo(t, k - 1, calls);
      if k - 1 == c {
        VisitSelf(s, calls, c, n);
      } else {
        VisitOther(s, k - 1, calls, c, if k - 1 <= c || n == 0 then n else n - 1);
      }
    }
  }

  // ---------------------------------------------------------------- runs

  datatype Act = Ask(r: Request) | TickNow(calls: Calls)

  function Apply(t: Timers, a: Act): (t': Timers)
    requires IsTimers(t)
    ensures IsTimers(t')
  {
    match a
    case Ask(r) => Serve(t, r)
    case TickNow(calls) => Tick(t, calls)
  }

  function Run(t: Timers, acts: seq<Act>): (t': Timers)
    requires IsTimers(t)
    ensures IsTimers(t')
  {
    if acts == [] then t else var n := |acts| - 1; Apply(Run(t, acts[..n]), acts[n])
  }

  function Ticks(acts: seq<Act>): nat {
    if acts == [] then 0 else var n := |acts| - 1; Ticks(acts[..n]) + if acts[n].TickNow? then 1 else 0
  }

  predicate ActSpares(a: Act, c: nat) {
    match a
    case Ask(r) => Spares(r, c)
    case TickNow(calls) => CallsSpare(calls, c)
  }

  /**
   A timer registered with period p on a channel that was handed out, and not registered again, has
   fired never before the p-th tick and once from then on, whatever everyone else does meanwhile.
   */
  lemma {:induction false} FiresOnce(t: Timers, acts: seq<Act>, c: nat, p: nat)
    requires Pending(t, c, p) && p > 0
    requires forall k :: 0 <= k < |acts| ==> ActSpares(acts[k], c)
    ensures var e := Run(t, acts); var n := Ticks(acts);
            && Pending(e, c, if n < p then p - n else 0)
            && Fires(e, c) == Fires(t, c) + if n < p then 0 else 1
  {
    if acts != [] {
      var k := |acts| - 1;
      FiresOnce(t, acts[..k], c, p);
      var s, n := Run(t, acts[..k]), Ticks(acts[..k]);
      var left := if n < p then p - n else 0;
      assert ActSpares(acts[k], c);
      match acts[k]
      case Ask(r) =>
        assert [r][..0] == [];
        assert ServeAll(s, [r]) == Serve(s, r);
        OthersSpare(s, [r], c, left);
      case TickNow(calls) =>
        hide TickUpTo;
        TickPartly(s, CHANNELS, calls, c, left);
    }
  }

  /** Registration on a channel that was handed out is what starts such a timer. */
  lemma RegisterStarts(t: Timers, c: u16, p: u32, h: u32)
    requires IsTimers(t) && h != 0
    ensures if c < CHANNELS && t.armed[c] then Pending(Serve(t, Register(c, p, h)), c, p)
            else c >= CHANNELS ==> Serve(t, Register(c, p, h)) == t
  {
  }

  // ---------------------------------------------------------------- handing out channels

  /** Channels handed out are armed, and each was handed out once. */
  predicate GivenOnce(t: Timers) {
    && IsTimers(t)
    && (forall i :: 0 <= i < |t.given| ==> t.given[i] < CHANNELS && t.armed[t.given[i]])
    && (forall i, j :: 0 <= i < j < |t.given| ==> t.given[i] != t.given[j])
  }

  lemma ServeGivesOnce(t: Timers, r: Request)
    requires GivenOnce(t)
    ensures GivenOnce(Serve(t, r)) && t.given <= Serve(t, r).given
  {
  }

  lemma {:induction false} ServeAllGivesOnce(t: Timers, rs: seq<Request>)
    requires GivenOnce(t)
    ensures GivenOnce(ServeAll(t, rs))
  {
    if rs != [] {
      hide Serve;
      ServeAllGivesOnce(t, rs[..|rs| - 1]);
      ServeGivesOnce(ServeAll(t, rs[..|rs| - 1]), rs[|rs| - 1]);
    }
  }

  lemma VisitGivesOnce(t: Timers, c: nat, calls: Calls)
    requires GivenOnce(t) && c < CHANNELS
    ensures GivenOnce(Visit(t, c, calls))
  {
    if t.active[c] && t.countdown[c] != 0 {
      var d := t.(countdown := t.countdown[c := t.countdown[c] - 1]);
      ServeAllGivesOnce(d.(fired := d.fired + [c]), calls[c]);
    }
  }

  lemma {:induction false} TickGivesOnce(t: Timers, n: nat, calls: Calls)
    requires GivenOnce(t) && n <= CHANNELS
    ensures GivenOnce(TickUpTo(t, n, calls))
  {
    hide Visit;
    if n > 0 {
      TickGivesOnce(t, n - 1, calls);
      VisitGivesOnce(TickUpTo(t, n - 1, calls), n - 1, calls);
    }
  }

  /** In no run is a channel handed out twice, in handlers or outside. */
  lemma {:induction false} NeverGivenTwice(t: Timers, acts: seq<Act>)
    requires GivenOnce(t)
    ensures GivenOnce(Run(t, acts))
  {
    if acts != [] {
      hide TickUpTo, Serve;
      var n := |acts| - 1;
      NeverGivenTwice(t, acts[..n]);
      match acts[n]
      case Ask(r) => ServeGivesOnce(Run(t, acts[..n]), r);
      case TickNow(calls) => TickGivesOnce(Run(t, acts[..n]), CHANNELS, calls);
    }
  }

  /** An allocation takes the lowest free channel and clears its countdown and handler, and nothing else. */
  lemma AllocationClears(t: Timers, c: nat)
    requires IsTimers(t) && c < 16 && !t.armed[c] && forall j :: 0 <= j < c ==> t.armed[j]
    ensures var a := Serve(t, Allocate);
            && a.armed == t.armed[c := true] && a.active == t.active && a.fired == t.fired
            && a.countdown == t.countdown[c := 0] && a.handler == t.handler[c := 0] && a.given == t.given + [c]
  {
  }

  /** Allocation fails exactly when every channel is out; its result is then refused by registration. */
  lemma ExhaustedExactly(t: Timers, p: u32, h: u32)
    requires IsTimers(t)
    ensures FreeFrom(t.armed, 0) == 16 <==> forall c :: 0 <= c < 16 ==> t.armed[c]
    ensures FreeFrom(t.armed, 0) == 16 ==>
              Serve(t, Allocate) == t && Serve(t, Register(16, p, h)) == t
  {
  }

  // ---------------------------------------------------------------- the order within a tick

  predicate Ascending(fired: seq<nat>) {
    forall i, j :: 0 <= i < j < |fired| ==> fired[i] < fired[j]
  }

  lemma {:induction false} RequestsFireNothing(t: Timers, rs: seq<Request>)
    requires IsTimers(t)
    ensures ServeAll(t, rs).fired == t.fired
  {
    if rs != [] {
      RequestsFireNothing(t, rs[..|rs| - 1]);
    }
  }

  lemma VisitFires(t: Timers, c: nat, calls: Calls)
    requires IsTimers(t) && c < CHANNELS
    ensures Visit(t, c, calls).fired
              == t.fired + if t.active[c] && t.countdown[c] == 1 && t.handler[c] != 0 then [c] else []
  {
    var d := t.(countdown := t.countdown[c := if t.countdown[c] > 0 then t.countdown[c] - 1 else 0]);
    RequestsFireNothing(d.(fired := d.fired + [c]), calls[c]);
    assert t.fired + [] == t.fired;
  }

  /** One tick runs its handlers in the order of their channels, each at most once. */
  lemma {:induction false} TickAscends(t: Timers, n: nat, calls: Calls)
    requires IsTimers(t) && n <= CHANNELS
    ensures var f := TickUpTo(t, n, calls).fired;
            && t.fired <= f && Ascending(f[|t.fired|..])
            && forall k :: |t.fired| <= k < |f| ==> f[k] < n
  {
    if n > 0 {
      hide Visit;
      TickAscends(t, n - 1, calls);
      VisitFires(TickUpTo(t, n - 1, calls), n - 1, calls);
    }
  }
}
