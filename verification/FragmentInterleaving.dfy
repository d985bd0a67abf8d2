/**
 Whole runs of the reassembler. Each id alone has an obvious meaning: append fragments until the
 entry's length is reached, then hand the message over. The theorems say when three shared slots
 keep that meaning for every id, however the streams are interleaved.
 */
module FragmentInterleaving {
  import opened Memory
  import opened FragmentTransport

  // ---------------------------------------------------------------- one id on its own

  datatype Partial = Idle | Mid(got: seq<u8>)

  function Bytes(p: Partial): seq<u8> {
    if p.Mid? then p.got else []
  }

  function Next(e: Entry, p: Partial, data: seq<u8>): Partial {
    var g := Bytes(p) + data;
    if |g| > SLOT_BYTES || |g| >= e.need then Idle else Mid(g)
  }

  /** Where a stream of fragments leaves an id that was at `p`. */
  function Progress(e: Entry, p: Partial, datas: seq<seq<u8>>): Partial {
    if datas == [] then p
    else var n := |datas| - 1; Next(e, Progress(e, p, datas[..n]), datas[n])
  }

  predicate Fits(e: Entry, p: Partial, datas: seq<seq<u8>>) {
    datas == [] ||
    var n := |datas| - 1;
    Fits(e, p, datas[..n]) && |Bytes(Progress(e, p, datas[..n])) + datas[n]| <= SLOT_BYTES
  }

  /** The messages a stream of fragments completes. */
  function Messages(e: Entry, p: Partial, datas: seq<seq<u8>>): seq<seq<u8>> {
    if datas == [] then []
    else
      var n := |datas| - 1;
      var g := Bytes(Progress(e, p, datas[..n])) + datas[n];
      Messages(e, p, datas[..n]) + if e.need <= |g| <= SLOT_BYTES then [g] else []
  }

  lemma OneMore(e: Entry, p: Partial, a: seq<seq<u8>>, data: seq<u8>)
    ensures var q := Progress(e, p, a); var g := Bytes(q) + data;
            && Progress(e, p, a + [data]) == Next(e, q, data)
            && (Fits(e, p, a + [data]) <==> Fits(e, p, a) && |g| <= SLOT_BYTES)
            && Messages(e, p, a + [data]) == Messages(e, p, a) + if e.need <= |g| <= SLOT_BYTES then [g] else []
  {
  }

  lemma {:induction false} Append(e: Entry, p: Partial, a: seq<seq<u8>>, b: seq<seq<u8>>)
    ensures Progress(e, p, a + b) == Progress(e, Progress(e, p, a), b)
    ensures Messages(e, p, a + b) == Messages(e, p, a) + Messages(e, Progress(e, p, a), b)
    ensures Fits(e, p, a + b) <==> Fits(e, p, a) && Fits(e, Progress(e, p, a), b)
  {
    if b == [] {
      assert a + b == a;
    } else {
      hide Progress, Messages, Fits;
      var n := |b| - 1;
      assert b == b[..n] + [b[n]] && a + b == (a + b[..n]) + [b[n]];
      Append(e, p, a, b[..n]);
      OneMore(e, p, a + b[..n], b[n]);
      var q := Progress(e, p, a);
      OneMore(e, q, b[..n], b[n]);
      var g := Bytes(Progress(e, q, b[..n])) + b[n];
      Assoc(Messages(e, p, a), Messages(e, q, b[..n]), if e.need <= |g| <= SLOT_BYTES then [g] else []);
    }
  }

  /** A single fragment, which may complete the message or leave it short. */
  lemma OneFragment(e: Entry, p: Partial, data: seq<u8>)
    requires |Bytes(p) + data| <= e.need <= SLOT_BYTES
    ensures var g := Bytes(p) + data; var done := |g| == e.need;
            && Progress(e, p, [data]) == (if done then Idle else Mid(g)) && Fits(e, p, [data])
            && Messages(e, p, [data]) == if done then [g] else []
  {
  }

  /** The chunks of the rest of a message complete it exactly when the entry's length is reached. */
  lemma {:induction false} ChunksComplete(e: Entry, p: Partial, m: seq<u8>)
    requires |Bytes(p)| + |m| == e.need <= SLOT_BYTES
    ensures Progress(e, p, Chunks(m)) == Idle && Fits(e, p, Chunks(m))
    ensures Messages(e, p, Chunks(m)) == [Bytes(p) + m]
    decreases |m|
  {
    hide Progress, Messages, Fits;
    if |m| <= CHUNK_MAX {
      OneFragment(e, p, m);
    } else {
      var first, rest := m[..CHUNK_MAX], m[CHUNK_MAX..];
      OneFragment(e, p, first);
      ChunksComplete(e, Mid(Bytes(p) + first), rest);
      assert Chunks(m) == [first] + Chunks(rest);
      Append(e, p, [first], Chunks(rest));
      assert first + rest == m;
      Assoc(Bytes(p), first, rest);
    }
  }

  lemma {:induction false} ChunkedStream(e: Entry, ms: seq<seq<u8>>)
    requires e.need <= SLOT_BYTES && forall m :: m in ms ==> |m| == e.need
    ensures Progress(e, Idle, AllChunks(ms)) == Idle && Fits(e, Idle, AllChunks(ms))
    ensures Messages(e, Idle, AllChunks(ms)) == ms
  {
    if ms != [] {
      ChunksComplete(e, Idle, ms[0]);
      assert [] + ms[0] == ms[0] && ms == [ms[0]] + ms[1..];
      ChunkedStream(e, ms[1..]);
      Append(e, Idle, Chunks(ms[0]), AllChunks(ms[1..]));
    }
  }

  // ---------------------------------------------------------------- all ids on three slots

  datatype Ran = Ran(slots: Slots, events: seq<Event>)

  /** The dispatcher's state and log after `frames`, from empty slots. */
  function Run(subs: map<Uuid, Entry>, frames: seq<Frame>): Ran {
    if frames == [] then Ran(NO_SLOTS, [])
    else
      var n := |frames| - 1;
      var before := Run(subs, frames[..n]);
      var o := Write(subs, before.slots, frames[n]);
      Ran(o.slots, before.events + o.events)
  }

  predicate IsFragmented(subs: map<Uuid, Entry>, id: Uuid) {
    id in subs && subs[id].kind == 2
  }

  function At(subs: map<Uuid, Entry>, frames: seq<Frame>, id: Uuid): Partial
    requires id in subs
  {
    Progress(subs[id], Idle, Stream(frames, id))
  }

  /** The ids that are in the middle of a message after `frames`. */
  function MidIds(subs: map<Uuid, Entry>, frames: seq<Frame>): set<Uuid> {
    set id | id in subs && IsFragmented(subs, id) && At(subs, frames, id).Mid?
  }

  /** A fragment finds room: at most three ids are mid-message, its own included. */
  predicate RoomFor(subs: map<Uuid, Entry>, frames: seq<Frame>, id: Uuid) {
    IsFragmented(subs, id) ==> |MidIds(subs, frames) + {id}| <= 3
  }

  predicate NeverCrowded(subs: map<Uuid, Entry>, frames: seq<Frame>) {
    forall n :: 0 <= n < |frames| ==> RoomFor(subs, frames[..n], Id(frames[n]))
  }

  /** What the slots hold for `id`. */
  function Look(s: Slots, id: Uuid): Partial {
    var t := s[Target(s, id)];
    if Holds(t, id) then Mid(t.got) else Idle
  }

  predicate Distinct(s: Slots) {
    forall i, j :: 0 <= i < j < SLOTS && s[i].Open? && s[j].Open? ==> s[i].id != s[j].id
  }

  /** The slots hold precisely what the streams say is mid-message, one slot an id. */
  ghost predicate Mirrors(subs: map<Uuid, Entry>, frames: seq<Frame>, s: Slots) {
    && Distinct(s)
    && (forall i :: 0 <= i < SLOTS && s[i].Open? ==> IsFragmented(subs, s[i].id))
    && (forall id :: IsFragmented(subs, id) ==> Look(s, id) == At(subs, frames, id))
  }

  lemma LookUpdate(s: Slots, id: Uuid, p: Partial)
    requires Distinct(s) && !Evicts(s, id)
    ensures var s' := s[Target(s, id) := if p.Mid? then Open(id, p.got) else Free];
            && Distinct(s') && Look(s', id) == p
            && forall j :: j != id ==> Look(s', j) == Look(s, j)
  {
    var t := Target(s, id);
    assert Holds(s[t], id) || s[t].Free?;
  }

  function Owners(s: Slots): set<Uuid> {
    set i | 0 <= i < SLOTS && s[i].Open? :: s[i].id
  }

  lemma OwnersAreMid(subs: map<Uuid, Entry>, frames: seq<Frame>, s: Slots)
    requires Mirrors(subs, frames, s)
    ensures MidIds(subs, frames) == Owners(s)
  {
  }

  lemma EvictsOnlyWhenFull(s: Slots, id: Uuid)
    requires Distinct(s)
    ensures Evicts(s, id) <==> |Owners(s) + {id}| > SLOTS
  {
    var all := Owners(s) + {id};
    if Evicts(s, id) {
      FourDistinct(s[0].id, s[1].id, s[2].id, id, all);
    } else {
      var a := if s[0].Open? then s[0].id else id;
      var b := if s[1].Open? then s[1].id else id;
      var c := if s[2].Open? then s[2].id else id;
      assert a == id || b == id || c == id;
      AtMostThree(all, if a == id then b else a, if a == id || b == id then c else b, id);
    }
  }

  lemma EvictionIsCrowding(subs: map<Uuid, Entry>, frames: seq<Frame>, s: Slots, id: Uuid)
    requires Mirrors(subs, frames, s) && IsFragmented(subs, id)
    ensures Evicts(s, id) <==> !RoomFor(subs, frames, id)
  {
    OwnersAreMid(subs, frames, s);
    EvictsOnlyWhenFull(s, id);
  }

  lemma FourDistinct<T>(a: T, b: T, c: T, d: T, s: set<T>)
    requires a != b && a != c && b != c && d != a && d != b && d != c && {a, b, c, d} <= s
    ensures |s| > 3
  {
    assert s == {a} + ({b} + ({c} + ({d} + (s - {a, b, c, d}))));
  }

  lemma AtMostThree<T>(s: set<T>, a: T, b: T, c: T)
    requires forall x :: x in s ==> x == a || x == b || x == c
    ensures |s| <= 3
  {
    var t := s - {a};
    assert |s| <= |t| + 1;
    var u := t - {b};
    assert |t| <= |u| + 1;
    assert u <= {c};
    assert u == {} || u == {c};
  }

  lemma StreamSnoc(frames: seq<Frame>, req: Frame, id: Uuid)
    ensures Stream(frames + [req], id) == Stream(frames, id) + if Id(req) == id then [Payload(req)] else []
  {
  }

  /** One more frame moves its own id along and nobody else. */
  lemma OneMoreFrame(subs: map<Uuid, Entry>, frames: seq<Frame>, req: Frame, id: Uuid)
    requires id in subs
    ensures var p := At(subs, frames, id);
            At(subs, frames + [req], id) == if Id(req) == id then Next(subs[id], p, Payload(req)) else p
  {
    var stream, data := Stream(frames, id), Payload(req);
    StreamSnoc(frames, req, id);
    if Id(req) == id {
      assert (stream + [data])[..|stream|] == stream;
    } else {
      assert stream + [] == stream;
    }
  }

  lemma AssembledSlot(s: Slots, id: Uuid, e: Entry, data: seq<u8>, p: Partial)
    requires Gathered(s, id) == Bytes(p)
    ensures var q := Next(e, p, data);
            Assemble(s, id, e, data).slots == s[Target(s, id) := if q.Mid? then Open(id, q.got) else Free]
  {
  }

  /** Slots that moved only `req`'s id, and moved it as the stream says, mirror the longer run. */
  lemma MovedMirrors(subs: map<Uuid, Entry>, frames: seq<Frame>, s: Slots, req: Frame, i: nat, t: Slot)
    requires Mirrors(subs, frames, s) && IsFragmented(subs, Id(req)) && i < SLOTS
    requires Distinct(s[i := t]) && (t.Open? ==> t.id == Id(req))
    requires Look(s[i := t], Id(req)) == Next(subs[Id(req)], At(subs, frames, Id(req)), Payload(req))
    requires forall j :: j != Id(req) ==> Look(s[i := t], j) == Look(s, j)
    ensures Mirrors(subs, frames + [req], s[i := t])
  {
    hide Look, Next, At, Distinct;
    forall j | IsFragmented(subs, j)
      ensures Look(s[i := t], j) == At(subs, frames + [req], j)
    {
      OneMoreFrame(subs, frames, req, j);
    }
  }

  lemma LookGathers(s: Slots, id: Uuid)
    ensures Gathered(s, id) == Bytes(Look(s, id))
  {
  }

  lemma FragmentMirrors(subs: map<Uuid, Entry>, frames: seq<Frame>, s: Slots, req: Frame)
    requires Mirrors(subs, frames, s) && IsFragmented(subs, Id(req)) && RoomFor(subs, frames, Id(req))
    ensures var id := Id(req);
            && !Evicts(s, id) && Gathered(s, id) == Bytes(At(subs, frames, id))
            && Mirrors(subs, frames + [req], Assemble(s, id, subs[id], Payload(req)).slots)
  {
    hide Assemble, Target, Evicts, Gathered, Next, RoomFor, Look, At, Distinct, Bytes;
    var id := Id(req);
    var p := Next(subs[id], At(subs, frames, id), Payload(req));
    EvictionIsCrowding(subs, frames, s, id);
    LookGathers(s, id);
    LookUpdate(s, id, p);
    AssembledSlot(s, id, subs[id], Payload(req), At(subs, frames, id));
    MovedMirrors(subs, frames, s, req, Target(s, id), if p.Mid? then Open(id, p.got) else Free);
  }

  lemma OtherMirrors(subs: map<Uuid, Entry>, frames: seq<Frame>, s: Slots, req: Frame)
    requires Mirrors(subs, frames, s) && !IsFragmented(subs, Id(req))
    ensures Mirrors(subs, frames + [req], s)
  {
    forall j | IsFragmented(subs, j)
      ensures At(subs, frames + [req], j) == At(subs, frames, j)
    {
      OneMoreFrame(subs, frames, req, j);
    }
  }

  // ---------------------------------------------------------------- the theorems

  /** The messages handed to the handler of `id`, in order. */
  function Calls(events: seq<Event>, id: Uuid): seq<seq<u8>> {
    if events == [] then []
    else
      var n := |events| - 1;
      Calls(events[..n], id) + if events[n].Called? && events[n].id == id then [events[n].data] else []
  }

  lemma {:induction false} CallsAppend(a: seq<Event>, b: seq<Event>, id: Uuid)
    ensures Calls(a + b, id) == Calls(a, id) + Calls(b, id)
  {
    if b == [] {
      assert a + b == a;
    } else {
      var n := |b| - 1;
      assert (a + b)[..|a + b| - 1] == a + b[..n];
      CallsAppend(a, b[..n], id);
    }
  }

  lemma CallsOne(x: Event, id: Uuid)
    ensures Calls([x], id) == if x.Called? && x.id == id then [x.data] else []
  {
  }

  lemma AckedCalls(own: seq<Event>, acked: Uuid, id: Uuid)
    ensures Calls(own + [Acked(acked)], id) == Calls(own, id)
  {
    CallsAppend(own, [Acked(acked)], id);
    CallsOne(Acked(acked), id);
  }

  /** A fragment's own share of the log, without the acknowledgement. */
  function Own(e: Entry, id: Uuid, g: seq<u8>): seq<Event> {
    if |g| > SLOT_BYTES then [Overflowed] else if |g| >= e.need && e.hasHandler then [Called(id, g)] else []
  }

  lemma FragmentLog(subs: map<Uuid, Entry>, s: Slots, req: Frame, p: Partial)
    requires IsFragmented(subs, Id(req)) && !Evicts(s, Id(req)) && Gathered(s, Id(req)) == Bytes(p)
    ensures var id, g := Id(req), Bytes(p) + Payload(req);
            Write(subs, s, req).events == Own(subs[id], id, g) + if |g| > SLOT_BYTES then [] else [Acked(id)]
  {
    var id, g := Id(req), Bytes(p) + Payload(req);
    assert Assemble(s, id, subs[id], Payload(req)).events == Own(subs[id], id, g);
  }

  lemma OwnCalls(e: Entry, id: Uuid, g: seq<u8>, j: Uuid)
    ensures Calls(Own(e, id, g), j) == if j == id && Own(e, id, g) == [Called(id, g)] then [g] else []
  {
    CallsOne(Overflowed, j);
    CallsOne(Called(id, g), j);
  }

  /** What a fragment logs: its message if it completes one, and no other id's. */
  lemma FragmentEvents(subs: map<Uuid, Entry>, s: Slots, req: Frame, p: Partial)
    requires IsFragmented(subs, Id(req)) && !Evicts(s, Id(req)) && Gathered(s, Id(req)) == Bytes(p)
    ensures var id := Id(req); var e := subs[id]; var g := Bytes(p) + Payload(req);
            var events := Write(subs, s, req).events;
            && Evicted !in events && (Overflowed in events <==> |g| > SLOT_BYTES)
            && (e.hasHandler ==> Calls(events, id) == if e.need <= |g| <= SLOT_BYTES then [g] else [])
            && forall j :: j != id ==> Calls(events, j) == []
  {
    hide Write, Gathered, Evicts, Calls;
    FragmentLog(subs, s, req, p);
    var id, e, g := Id(req), subs[Id(req)], Bytes(p) + Payload(req);
    var events := Write(subs, s, req).events;
    assert Own(e, id, g) + [] == Own(e, id, g);
    forall j
      ensures Calls(events, j) == if j == id && Own(e, id, g) == [Called(id, g)] then [g] else []
    {
      OwnCalls(e, id, g, j);
      AckedCalls(Own(e, id, g), id, j);
    }
  }

  lemma OtherEvents(subs: map<Uuid, Entry>, s: Slots, req: Frame)
    requires !IsFragmented(subs, Id(req))
    ensures var o := Write(subs, s, req);
            && o.slots == s && Evicted !in o.events && Overflowed !in o.events
            && forall j :: IsFragmented(subs, j) ==> Calls(o.events, j) == []
  {
    var events := Write(subs, s, req).events;
    forall j | IsFragmented(subs, j)
      ensures Calls(events, j) == []
    {
      assert forall k :: 0 <= k < |events| && events[k].Called? ==> events[k].id == Id(req);
      NoCalls(events, j);
    }
  }

  lemma NoCalls(events: seq<Event>, id: Uuid)
    requires forall k :: 0 <= k < |events| && events[k].Called? ==> events[k].id != id
    ensures Calls(events, id) == []
  {
  }

  /** What one id sees of a run: its own stream, as if it had the reassembler to itself. */
  ghost predicate Served(subs: map<Uuid, Entry>, frames: seq<Frame>, events: seq<Event>, id: Uuid) {
    IsFragmented(subs, id) && subs[id].hasHandler ==>
      Calls(events, id) == Messages(subs[id], Idle, Stream(frames, id))
  }

  lemma ServedNext(subs: map<Uuid, Entry>, frames: seq<Frame>, req: Frame, before: Ran, id: Uuid)
    requires Mirrors(subs, frames, before.slots) && RoomFor(subs, frames, Id(req))
    requires Served(subs, frames, before.events, id)
    ensures Served(subs, frames + [req], before.events + Write(subs, before.slots, req).events, id)
  {
    if IsFragmented(subs, id) && subs[id].hasHandler {
      var added := Write(subs, before.slots, req).events;
      CallsAppend(before.events, added, id);
      StreamSnoc(frames, req, id);
      if IsFragmented(subs, Id(req)) {
        FragmentMirrors(subs, frames, before.slots, req);
        FragmentEvents(subs, before.slots, req, At(subs, frames, Id(req)));
      } else {
        OtherEvents(subs, before.slots, req);
      }
      if Id(req) == id {
        OneMore(subs[id], Idle, Stream(frames, id), Payload(req));
      } else {
        assert Stream(frames, id) + [] == Stream(frames, id);
      }
    }
  }

  lemma UncrowdedMore(subs: map<Uuid, Entry>, frames: seq<Frame>)
    requires frames != []
    ensures var n := |frames| - 1;
            NeverCrowded(subs, frames) <==>
              (NeverCrowded(subs, frames[..n]) && RoomFor(subs, frames[..n], Id(frames[n])))
  {
    var n := |frames| - 1;
    hide RoomFor;
    forall k | 0 <= k < n
      ensures frames[..n][..k] == frames[..k] && frames[..n][k] == frames[k]
    {
    }
  }

  /** While no fragment is crowded out, slots mirror the streams and every id is served. */
  lemma {:induction false} UncrowdedRun(subs: map<Uuid, Entry>, frames: seq<Frame>)
    requires NeverCrowded(subs, frames)
    ensures Mirrors(subs, frames, Run(subs, frames).slots)
    ensures forall id :: Served(subs, frames, Run(subs, frames).events, id)
    ensures Evicted !in Run(subs, frames).events
  {
    if frames != [] {
      var n := |frames| - 1;
      var prefix, req := frames[..n], frames[n];
      assert frames == prefix + [req];
      UncrowdedMore(subs, frames);
      UncrowdedRun(subs, prefix);
      var before := Run(subs, prefix);
      forall id
        ensures Served(subs, frames, Run(subs, frames).events, id)
      {
        ServedNext(subs, prefix, req, before, id);
      }
      if IsFragmented(subs, Id(req)) {
        FragmentMirrors(subs, prefix, before.slots, req);
        FragmentEvents(subs, before.slots, req, At(subs, prefix, Id(req)));
      } else {
        OtherMirrors(subs, prefix, before.slots, req);
        OtherEvents(subs, before.slots, req);
      }
    }
  }

  lemma {:induction false} EventsGrow(subs: map<Uuid, Entry>, frames: seq<Frame>, n: nat)
    requires n <= |frames|
    ensures forall x :: x in Run(subs, frames[..n]).events ==> x in Run(subs, frames).events
  {
    if n == |frames| {
      assert frames[..n] == frames;
    } else {
      var m := |frames| - 1;
      assert frames[..m][..n] == frames[..n];
      EventsGrow(subs, frames[..m], n);
    }
  }

  lemma CrowdedWrite(subs: map<Uuid, Entry>, frames: seq<Frame>, n: nat)
    requires n < |frames| && IsFragmented(subs, Id(frames[n]))
    requires Evicts(Run(subs, frames[..n]).slots, Id(frames[n]))
    ensures Evicted in Run(subs, frames[..n + 1]).events
  {
    var s, req := Run(subs, frames[..n]).slots, frames[n];
    assert frames[..n + 1][..n] == frames[..n];
    assert Assemble(s, Id(req), subs[Id(req)], Payload(req)).events[0] == Evicted;
    assert Write(subs, s, req).events[0] == Evicted;
  }

  /** A busy slot is taken away exactly when some fragment makes a fourth id mid-message. */
  lemma EvictionExactly(subs: map<Uuid, Entry>, frames: seq<Frame>)
    ensures Evicted in Run(subs, frames).events <==> !NeverCrowded(subs, frames)
  {
    if NeverCrowded(subs, frames) {
      UncrowdedRun(subs, frames);
    } else {
      var n := FirstCrowded(subs, frames);
      UncrowdedRun(subs, frames[..n]);
      EvictionIsCrowding(subs, frames[..n], Run(subs, frames[..n]).slots, Id(frames[n]));
      CrowdedWrite(subs, frames, n);
      EventsGrow(subs, frames, n + 1);
    }
  }

  lemma {:induction false} FirstCrowded(subs: map<Uuid, Entry>, frames: seq<Frame>) returns (n: nat)
    requires !NeverCrowded(subs, frames)
    ensures n < |frames| && NeverCrowded(subs, frames[..n]) && !RoomFor(subs, frames[..n], Id(frames[n]))
  {
    var m := |frames| - 1;
    var prefix := frames[..m];
    if NeverCrowded(subs, prefix) {
      n := m;
      UncrowdedMore(subs, frames);
    } else {
      n := FirstCrowded(subs, prefix);
      assert prefix[..n] == frames[..n];
    }
  }

  /** The frames of one message, as the chunker writes them, carry that message's chunks. */
  lemma {:induction false} ChunkerStream(frames: seq<Frame>, id: Uuid, flags: u8, mode: u8, chunks: seq<seq<u8>>)
    requires |frames| == |chunks|
    requires forall k :: 0 <= k < |frames| ==> IsNthFrame(frames[k], id, flags, mode, k, chunks[k])
    ensures Stream(frames, id) == chunks
  {
    if frames != [] {
      var n := |frames| - 1;
      ChunkerStream(frames[..n], id, flags, mode, chunks[..n]);
      StreamSnoc(frames[..n], frames[n], id);
      assert frames == frames[..n] + [frames[n]] && chunks == chunks[..n] + [chunks[n]];
    }
  }

  /**
   However the streams of any number of ids are interleaved: if no fragment makes a fourth id
   mid-message, each id whose stream is a cut of messages of its entry's length gets exactly those
   messages, in order; if its stream stops part way, exactly a prefix of them.
   */
  lemma Interleaved(subs: map<Uuid, Entry>, frames: seq<Frame>, id: Uuid, sent: seq<seq<u8>>)
    requires NeverCrowded(subs, frames)
    requires IsFragmented(subs, id) && subs[id].hasHandler && subs[id].need <= SLOT_BYTES
    requires forall m :: m in sent ==> |m| == subs[id].need
    requires Stream(frames, id) <= AllChunks(sent)
    ensures Calls(Run(subs, frames).events, id) <= sent
    ensures Stream(frames, id) == AllChunks(sent) ==> Calls(Run(subs, frames).events, id) == sent
    ensures Fits(subs[id], Idle, Stream(frames, id))
  {
    hide Progress, Messages, Fits, Run, Chunks, AllChunks, Stream, Calls, NeverCrowded;
    UncrowdedRun(subs, frames);
    assert Served(subs, frames, Run(subs, frames).events, id);
    var e, some, all := subs[id], Stream(frames, id), AllChunks(sent);
    ChunkedStream(e, sent);
    var rest := all[|some|..];
    assert all == some + rest;
    Append(e, Idle, some, rest);
  }

  // ---------------------------------------------------------------- from chunker to handler

  /** The frames of a run that are addressed to `id`, in order. */
  function Addressed(frames: seq<Frame>, id: Uuid): seq<Frame> {
    if frames == [] then []
    else
      var n := |frames| - 1;
      Addressed(frames[..n], id) + if Id(frames[n]) == id then [frames[n]] else []
  }

  /** The frames that the chunker writes for one message. */
  predicate IsTransmission(w: seq<Frame>, id: Uuid, mode: u8, m: seq<u8>) {
    |w| == |Chunks(m)| && forall k :: 0 <= k < |w| ==> IsNthFrame(w[k], id, FirstFlags(mode), mode, k, Chunks(m)[k])
  }

  function Joined(wires: seq<seq<Frame>>): seq<Frame> {
    if wires == [] then [] else wires[0] + Joined(wires[1..])
  }

  lemma {:induction false} StreamAppend(a: seq<Frame>, b: seq<Frame>, id: Uuid)
    ensures Stream(a + b, id) == Stream(a, id) + Stream(b, id)
  {
    if b == [] {
      assert a + b == a;
    } else {
      var n := |b| - 1;
      assert a + b == (a + b[..n]) + [b[n]] && b == b[..n] + [b[n]];
      StreamAppend(a, b[..n], id);
      StreamSnoc(a + b[..n], b[n], id);
      StreamSnoc(b[..n], b[n], id);
    }
  }

  lemma {:induction false} StreamOfAddressed(frames: seq<Frame>, id: Uuid)
    ensures Stream(Addressed(frames, id), id) == Stream(frames, id)
  {
    if frames != [] {
      var n := |frames| - 1;
      StreamOfAddressed(frames[..n], id);
      if Id(frames[n]) == id {
        StreamSnoc(Addressed(frames[..n], id), frames[n], id);
      } else {
        assert Addressed(frames[..n], id) + [] == Addressed(frames[..n], id);
        assert Stream(frames[..n], id) + [] == Stream(frames[..n], id);
      }
    }
  }

  lemma {:induction false} JoinedStream(wires: seq<seq<Frame>>, id: Uuid, mode: u8, sent: seq<seq<u8>>)
    requires |wires| == |sent|
    requires forall i :: 0 <= i < |sent| ==> IsTransmission(wires[i], id, mode, sent[i])
    ensures Stream(Joined(wires), id) == AllChunks(sent)
  {
    if sent == [] {
      assert Stream([], id) == [];
    } else {
      assert IsTransmission(wires[0], id, mode, sent[0]);
      hide Chunks, IsNthFrame;
      ChunkerStream(wires[0], id, FirstFlags(mode), mode, Chunks(sent[0]));
      JoinedStream(wires[1..], id, mode, sent[1..]);
      StreamAppend(wires[0], Joined(wires[1..]), id);
    }
  }

  /**
   End to end, for every id at once: if what arrives for an id is what its chunker wrote for a list of
   messages of its entry's length, among any other traffic, its handler is called once per message, in
   order, with exactly those bytes; if the last messages are still on their way, with the earlier ones.
   */
  lemma Delivered(subs: map<Uuid, Entry>, frames: seq<Frame>, id: Uuid, mode: u8, sent: seq<seq<u8>>,
                  wires: seq<seq<Frame>>)
    requires NeverCrowded(subs, frames)
    requires IsFragmented(subs, id) && subs[id].hasHandler && subs[id].need <= SLOT_BYTES
    requires |wires| == |sent| && forall i :: 0 <= i < |sent| ==> |sent[i]| == subs[id].need
    requires forall i :: 0 <= i < |sent| ==> IsTransmission(wires[i], id, mode, sent[i])
    requires Addressed(frames, id) <= Joined(wires)
    ensures Calls(Run(subs, frames).events, id) <= sent
    ensures Addressed(frames, id) == Joined(wires) ==> Calls(Run(subs, frames).events, id) == sent
    ensures Evicted !in Run(subs, frames).events
  {
    hide IsTransmission, Run, Calls, Stream, AllChunks, Addressed, Joined, NeverCrowded;
    var some, all := Addressed(frames, id), Joined(wires);
    JoinedStream(wires, id, mode, sent);
    StreamOfAddressed(frames, id);
    assert all == some + all[|some|..];
    StreamAppend(some, all[|some|..], id);
    Interleaved(subs, frames, id, sent);
    EvictionExactly(subs, frames);
  }

  /** And nothing overflows: the diagnostic is logged exactly when some stream outgrows its slot. */
  lemma {:induction false} OverflowExactly(subs: map<Uuid, Entry>, frames: seq<Frame>)
    requires NeverCrowded(subs, frames)
    ensures Overflowed in Run(subs, frames).events <==>
              (exists id :: IsFragmented(subs, id) && !Fits(subs[id], Idle, Stream(frames, id)))
  {
    if frames != [] {
      var n := |frames| - 1;
      var prefix, req := frames[..n], frames[n];
      assert frames == prefix + [req];
      UncrowdedMore(subs, frames);
      OverflowExactly(subs, prefix);
      UncrowdedRun(subs, prefix);
      var s, me := Run(subs, prefix).slots, Id(req);
      forall id | IsFragmented(subs, id)
        ensures Fits(subs[id], Idle, Stream(frames, id)) <==>
                  Fits(subs[id], Idle, Stream(prefix, id))
                  && (id == me ==> |Bytes(At(subs, prefix, id)) + Payload(req)| <= SLOT_BYTES)
      {
        StreamSnoc(prefix, req, id);
        if id == me {
          OneMore(subs[id], Idle, Stream(prefix, id), Payload(req));
        } else {
          assert Stream(prefix, id) + [] == Stream(prefix, id);
        }
      }
      if IsFragmented(subs, me) {
        FragmentMirrors(subs, prefix, s, req);
        FragmentEvents(subs, s, req, At(subs, prefix, me));
      } else {
        OtherEvents(subs, s, req);
      }
    }
  }
}
