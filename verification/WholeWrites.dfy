/**
 Attribute writes that travel in one frame, plain writes and notifications, beside the fragmented ones;
 and which frames of either kind are acknowledged.
 */
module WholeWrites {
  import opened Memory
  import opened FragmentTransport
  import opened FragmentInterleaving

  /** Plain writes and notifications: no fragments, and so no slots. */
  predicate IsWhole(subs: map<Uuid, Entry>, id: Uuid) {
    id in subs && subs[id].kind <= 1
  }

  /** What one write does for an id that is not fragmented, and the acknowledgement behind it. */
  function WholeAction(e: Entry, id: Uuid, req: Frame): seq<Event> {
    if e.kind == 0 then (if e.hasHandler then [Called(id, req[5..5 + req[4]])] else [])
    else if e.hasQueue then [Queued(id)] else []
  }

  function AckOf(id: Uuid, req: Frame): seq<Event> {
    if req[3] / 16 % 4 != 0 then [Acked(id)] else []
  }

  predicate About(x: Event, id: Uuid) {
    (x.Called? || x.Queued? || x.Acked?) && x.id == id
  }

  lemma WholeWrite(subs: map<Uuid, Entry>, s: Slots, req: Frame)
    requires IsWhole(subs, Id(req))
    ensures Write(subs, s, req).events == WholeAction(subs[Id(req)], Id(req), req) + AckOf(Id(req), req)
  {
  }

  lemma AssembleLogsOwn(s: Slots, id: Uuid, e: Entry, data: seq<u8>, j: Uuid)
    requires j != id
    ensures forall x :: x in Assemble(s, id, e, data).events ==> !About(x, j)
  {
  }

  lemma WriteLogsOwn(subs: map<Uuid, Entry>, s: Slots, req: Frame, j: Uuid)
    requires j != Id(req)
    ensures forall x :: x in Write(subs, s, req).events ==> !About(x, j)
  {
    if Id(req) in subs {
      AssembleLogsOwn(s, Id(req), subs[Id(req)], Payload(req), j);
    }
    hide Assemble;
  }

  /** The frames to an id whose flags ask for an acknowledgement. */
  function Flagged(frames: seq<Frame>, id: Uuid): nat {
    if frames == [] then 0
    else
      var n := |frames| - 1;
      Flagged(frames[..n], id) + if Id(frames[n]) == id && frames[n][3] / 16 % 4 != 0 then 1 else 0
  }

  lemma FlaggedSnoc(frames: seq<Frame>, req: Frame, id: Uuid)
    ensures Flagged(frames + [req], id) == Flagged(frames, id) + if Id(req) == id then |AckOf(id, req)| else 0
  {
    assert (frames + [req])[..|frames|] == frames;
  }

  function Times(events: seq<Event>, x: Event): nat {
    multiset(events)[x]
  }

  lemma TimesAppend(a: seq<Event>, b: seq<Event>, x: Event)
    ensures Times(a + b, x) == Times(a, x) + Times(b, x)
  {
  }

  lemma TimesAbsent(events: seq<Event>, x: Event)
    requires x !in events
    ensures Times(events, x) == 0
  {
  }

  /** The handler is called with each payload, the queue signalled for each frame, the flagged ones acknowledged. */
  predicate WholeServed(e: Entry, id: Uuid, frames: seq<Frame>, events: seq<Event>) {
    && Calls(events, id) == (if e.kind == 0 && e.hasHandler then Stream(frames, id) else [])
    && Times(events, Queued(id)) == (if e.kind == 1 && e.hasQueue then |Stream(frames, id)| else 0)
    && Times(events, Acked(id)) == Flagged(frames, id)
  }

  lemma NoneAbout(added: seq<Event>, id: Uuid)
    requires forall x :: x in added ==> !About(x, id)
    ensures Calls(added, id) == [] && Times(added, Queued(id)) == 0 && Times(added, Acked(id)) == 0
  {
    forall k | 0 <= k < |added|
      ensures !About(added[k], id)
    {
      assert added[k] in added;
    }
    NoCalls(added, id);
    assert !About(Queued(id), id) || Queued(id) !in added;
    TimesAbsent(added, Queued(id));
    TimesAbsent(added, Acked(id));
  }

  lemma TimesOne(x: Event, y: Event)
    ensures Times([x], y) == if x == y then 1 else 0
  {
  }

  lemma ActionCalls(e: Entry, id: Uuid, req: Frame)
    requires e.kind <= 1
    ensures Calls(WholeAction(e, id, req), id) == if e.kind == 0 && e.hasHandler then [Payload(req)] else []
  {
    CallsOne(Called(id, Payload(req)), id);
    CallsOne(Queued(id), id);
  }

  lemma ActionTimes(e: Entry, id: Uuid, req: Frame, x: Event)
    requires e.kind <= 1
    ensures Times(WholeAction(e, id, req), x) ==
              if x == (if e.kind == 0 then Called(id, Payload(req)) else Queued(id))
                 && (if e.kind == 0 then e.hasHandler else e.hasQueue) then 1 else 0
  {
    TimesOne(Called(id, Payload(req)), x);
    TimesOne(Queued(id), x);
    TimesAbsent([], x);
    hide Times;
  }

  lemma AckTimes(id: Uuid, req: Frame, x: Event)
    ensures Times(AckOf(id, req), x) == if x == Acked(id) then |AckOf(id, req)| else 0
  {
    TimesOne(Acked(id), x);
    TimesAbsent([], x);
    hide Times;
  }

  lemma ActionAckCalls(e: Entry, id: Uuid, req: Frame)
    requires e.kind <= 1
    ensures Calls(WholeAction(e, id, req) + AckOf(id, req), id) == Calls(WholeAction(e, id, req), id)
  {
    var action, ack := WholeAction(e, id, req), AckOf(id, req);
    if ack == [] {
      assert action + ack == action;
    } else {
      assert ack == [Acked(id)];
      AckedCalls(action, id, id);
    }
  }

  lemma ActionEvents(e: Entry, id: Uuid, req: Frame)
    requires e.kind <= 1
    ensures var added := WholeAction(e, id, req) + AckOf(id, req);
            && Calls(added, id) == (if e.kind == 0 && e.hasHandler then [Payload(req)] else [])
            && Times(added, Queued(id)) == (if e.kind == 1 && e.hasQueue then 1 else 0)
            && Times(added, Acked(id)) == |AckOf(id, req)|
  {
    hide Calls, Times, WholeAction, AckOf, Payload;
    var action, ack := WholeAction(e, id, req), AckOf(id, req);
    ActionCalls(e, id, req);
    ActionAckCalls(e, id, req);
    TimesAppend(action, ack, Queued(id));
    TimesAppend(action, ack, Acked(id));
    ActionTimes(e, id, req, Queued(id));
    ActionTimes(e, id, req, Acked(id));
    AckTimes(id, req, Queued(id));
    AckTimes(id, req, Acked(id));
  }

  lemma UnrelatedEvents(e: Entry, id: Uuid, frames: seq<Frame>, req: Frame, events: seq<Event>, added: seq<Event>)
    requires WholeServed(e, id, frames, events) && Id(req) != id && forall x :: x in added ==> !About(x, id)
    ensures WholeServed(e, id, frames + [req], events + added)
  {
    hide Calls, Stream, Times, Flagged;
    NoneAbout(added, id);
    CallsAppend(events, added, id);
    TimesAppend(events, added, Queued(id));
    TimesAppend(events, added, Acked(id));
    StreamSnoc(frames, req, id);
    FlaggedSnoc(frames, req, id);
    assert Calls(events, id) + [] == Calls(events, id) && Stream(frames, id) + [] == Stream(frames, id);
  }

  lemma OwnEvents(e: Entry, id: Uuid, frames: seq<Frame>, req: Frame, events: seq<Event>)
    requires e.kind <= 1 && WholeServed(e, id, frames, events) && Id(req) == id
    ensures WholeServed(e, id, frames + [req], events + (WholeAction(e, id, req) + AckOf(id, req)))
  {
    hide Calls, Stream, Times, Flagged, WholeAction, AckOf;
    var added := WholeAction(e, id, req) + AckOf(id, req);
    ActionEvents(e, id, req);
    CallsAppend(events, added, id);
    TimesAppend(events, added, Queued(id));
    TimesAppend(events, added, Acked(id));
    StreamSnoc(frames, req, id);
    FlaggedSnoc(frames, req, id);
    assert Calls(events, id) + [] == Calls(events, id);
  }

  lemma RunEvents(subs: map<Uuid, Entry>, frames: seq<Frame>)
    requires frames != []
    ensures var n := |frames| - 1; var before := Run(subs, frames[..n]);
            Run(subs, frames).events == before.events + Write(subs, before.slots, frames[n]).events
  {
  }

  lemma NothingServed(subs: map<Uuid, Entry>, id: Uuid)
    requires id in subs
    ensures WholeServed(subs[id], id, [], Run(subs, []).events)
  {
    TimesAbsent([], Queued(id));
    TimesAbsent([], Acked(id));
    hide Times;
    assert Run(subs, []).events == [] && Stream([], id) == [];
  }

  /**
   Over any run: a plain id's handler is called once for each of its frames, with that frame's payload; a
   notification's queue is signalled once for each; and exactly the flagged ones are acknowledged.
   */
  lemma {:induction false} WholeWritesServed(subs: map<Uuid, Entry>, frames: seq<Frame>, id: Uuid)
    requires IsWhole(subs, id)
    ensures WholeServed(subs[id], id, frames, Run(subs, frames).events)
  {
    hide Run, Write, WholeServed, WholeAction, AckOf, About;
    if frames != [] {
      var n := |frames| - 1;
      var before, req := Run(subs, frames[..n]), frames[n];
      WholeWritesServed(subs, frames[..n], id);
      RunEvents(subs, frames);
      assert frames == frames[..n] + [req];
      if Id(req) == id {
        WholeWrite(subs, before.slots, req);
        OwnEvents(subs[id], id, frames[..n], req, before.events);
      } else {
        WriteLogsOwn(subs, before.slots, req, id);
        UnrelatedEvents(subs[id], id, frames[..n], req, before.events, Write(subs, before.slots, req).events);
      }
    } else {
      NothingServed(subs, id);
    }
  }

  /** A fragment is acknowledged exactly if it does not overflow its slot; nothing else is but once. */
  lemma FragmentAcked(subs: map<Uuid, Entry>, s: Slots, req: Frame)
    requires IsFragmented(subs, Id(req))
    ensures var o := Write(subs, s, req);
            && (Acked(Id(req)) in o.events <==> |Gathered(s, Id(req)) + Payload(req)| <= 64)
            && (o.ok <==> |Gathered(s, Id(req)) + Payload(req)| <= 64)
  {
  }

  /** Unknown ids and types are refused without a trace. */
  lemma StrangersRefused(subs: map<Uuid, Entry>, s: Slots, req: Frame)
    requires !IsFragmented(subs, Id(req)) && !IsWhole(subs, Id(req))
    ensures Write(subs, s, req) == Outcome(s, [], false)
  {
  }

  /** The chunker's flags ask for an acknowledgement in modes 0 and 1, in every frame, and never in mode 2. */
  lemma TransmissionFlags(f: seq<u8>, id: Uuid, mode: u8, k: nat, chunk: seq<u8>)
    requires mode <= 2 && IsNthFrame(f, id, FirstFlags(mode), mode, k, chunk)
    ensures f[3] / 16 % 4 != 0 <==> mode != 2
    ensures |f| == 13 && f[3] == if mode == 2 then k % 16 else 16 + k % 8
  {
  }
}
