/**
 One socket, many calls (harness/internal/acp/wsclient.go, the demux; the wait
 of SendPrompt in harness/internal/acp/session.go): the client's mutex sections
 and the machine of the reader and the calling threads. A channel is named by
 what it was made for: a response channel by its request, a sink by its number.
 */
module Demux {
  import opened Wrappers

  type Note = string
  type Reply = string

  /** A frame from the wire: a notification, a response with a numeric id, or
      anything else (an agent's request, a string id, no id). */
  datatype Frame = Notification(note: Note) | Response(id: int, reply: Reply) | Other

  const SINK_CAP := 256

  datatype Client = Client(
    pending: set<int>,
    sinks: set<nat>,
    nextSubID: nat,
    responses: map<int, seq<Reply>>,
    buffers: map<nat, seq<Note>>)

  const NEW_CLIENT := Client({}, {}, 0, map[], map[])

  /** The buffers after the named sinks were offered the notification. */
  function Given(buffers: map<nat, seq<Note>>, to: set<nat>, n: Note): map<nat, seq<Note>> {
    map k | k in buffers :: if k in to && |buffers[k]| < SINK_CAP then buffers[k] + [n] else buffers[k]
  }

  function FullAmong(buffers: map<nat, seq<Note>>, to: set<nat>): set<nat> {
    set k | k in buffers && k in to && |buffers[k]| >= SINK_CAP
  }

  lemma OneGiven(buffers: map<nat, seq<Note>>, to: set<nat>, k: nat, n: Note)
    requires k in to && k in buffers
    ensures |buffers[k]| < SINK_CAP ==>
              var later := buffers[k := buffers[k] + [n]];
              Given(later, to - {k}, n) == Given(buffers, to, n) && FullAmong(later, to - {k}) == FullAmong(buffers, to)
    ensures |buffers[k]| >= SINK_CAP ==>
              Given(buffers, to - {k}, n) == Given(buffers, to, n)
              && FullAmong(buffers, to) == FullAmong(buffers, to - {k}) + {k}
  {
  }

  function FannedOut(c: Client, n: Note): Client { c.(buffers := Given(c.buffers, c.sinks, n)) }

  function FullSinks(c: Client): set<nat> { FullAmong(c.buffers, c.sinks) }

  class WSClient {
    var pending: set<int>
    var notifSinks: set<nat>
    var nextSubID: nat
    var responses: map<int, seq<Reply>>
    var buffers: map<nat, seq<Note>>

    function State(): Client
      reads this
    {
      Client(pending, notifSinks, nextSubID, responses, buffers)
    }

    constructor ()
      ensures State() == NEW_CLIENT
    {
      pending, notifSinks, nextSubID, responses, buffers := {}, {}, 0, map[], map[];
    }

    /** A full sink misses the notification; every other one gets it. */
    method FanOutNotification(n: Note) returns (full: set<nat>)
      requires notifSinks <= buffers.Keys
      modifies this`buffers
      ensures State() == FannedOut(old(State()), n) && full == FullSinks(old(State()))
    {
      var left := notifSinks;
      full := {};
      while left != {}
        invariant left <= notifSinks <= buffers.Keys
        invariant Given(buffers, left, n) == Given(old(buffers), notifSinks, n)
        invariant full + FullAmong(buffers, left) == FullAmong(old(buffers), notifSinks)
        decreases |left|
      {
        var k :| k in left;
        OneGiven(buffers, left, k, n);
        if |buffers[k]| < SINK_CAP {
          buffers := buffers[k := buffers[k] + [n]];
        } else {
          full := full + {k};
        }
        left := left - {k};
      }
      assert Given(buffers, {}, n) == buffers;
    }

    /** routeResponse's critical section: the first response to an id claims it. */
    method Claim(id: int) returns (ok: bool)
      modifies this`pending
      ensures State() == old(State()).(pending := old(pending) - {id}) && ok == (id in old(pending))
    {
      ok := id in pending;
      if ok {
        pending := pending - {id};
      }
    }

    method RegisterPending(id: int)
      modifies this
      ensures State() == old(State()).(pending := old(pending) + {id}, responses := old(responses)[id := []])
    {
      responses := responses[id := []];
      pending := pending + {id};
    }

    method UnregisterPending(id: int)
      modifies this
      ensures State() == old(State()).(pending := old(pending) - {id})
    {
      pending := pending - {id};
    }

    method AddNotifSink() returns (id: nat)
      modifies this
      ensures id == old(nextSubID) + 1
      ensures State() == old(State()).(nextSubID := id, sinks := old(notifSinks) + {id}, buffers := old(buffers)[id := []])
    {
      nextSubID := nextSubID + 1;
      id := nextSubID;
      buffers := buffers[id := []];
      notifSinks := notifSinks + {id};
    }

    method RemoveNotifSink(id: nat)
      modifies this
      ensures State() == old(State()).(sinks := old(notifSinks) - {id})
    {
      notifSinks := notifSinks - {id};
    }
  }

  // ----- The machine -----

  datatype Outcome = Answered(reply: Reply) | Lost | Cancelled | SendFailed

  /** Where a calling thread is: registered; with a sink; in its wait; draining
      its sink, with the reply or after losing the connection; ended. */
  datatype Stage = Reserved | Watching | Waiting | Draining(reply: Reply) | DrainingLost | Ended(outcome: Outcome)

  /** A call: how much of the wire had been read when it registered its id and
      when it registered its sink, what it has folded, and, once it has ended,
      how much had been read then and whether its sink had missed anything. */
  datatype Call = Call(
    from: nat,
    sink: Option<nat>,
    sinkFrom: nat,
    folded: seq<Note>,
    stage: Stage,
    endedAt: nat,
    whole: bool)

  /** wire: the frames read. hand: a claimed response the reader has yet to send.
      owner: whose each sink is. overflowed: the sinks that missed a notification. */
  datatype System = System(
    client: Client,
    wire: seq<Frame>,
    hand: Option<(int, Reply)>,
    done: bool,
    calls: map<int, Call>,
    owner: map<nat, int>,
    overflowed: set<nat>)

  const START := System(NEW_CLIENT, [], None, false, map[], map[], {})

  datatype Step =
    | Read(frame: Frame)
    | Deliver
    | Close
    | Register(id: int)
    | AddSink(id: int)
    | Send(id: int, ok: bool)
    | Fold(id: int)
    | TakeReply(id: int)
    | NoticeDone(id: int)
    | EndDrain(id: int)
    | Cancel(id: int)
    | RemoveSink(id: int)
    | Unregister(id: int)

  predicate At(s: System, id: int, stage: Stage) { id in s.calls && s.calls[id].stage == stage }

  predicate HasSink(s: System, id: int) {
    id in s.calls && s.calls[id].sink.Some? && s.calls[id].sink.value in s.client.buffers
  }

  function Buffer(s: System, id: int): seq<Note> {
    if HasSink(s, id) then s.client.buffers[s.calls[id].sink.value] else []
  }

  function Replies(s: System, id: int): seq<Reply> {
    if id in s.client.responses then s.client.responses[id] else []
  }

  predicate IsDraining(s: System, id: int) {
    id in s.calls && (s.calls[id].stage.Draining? || s.calls[id].stage.DrainingLost?)
  }

  predicate Enabled(s: System, step: Step) {
    match step
    case Read(_) => !s.done && s.hand.None?
    case Deliver => s.hand.Some? && s.hand.value.0 in s.client.responses && |Replies(s, s.hand.value.0)| < 1
    case Close => !s.done && s.hand.None?
    case Register(id) => id !in s.calls
    case AddSink(id) => At(s, id, Reserved)
    case Send(id, _) => At(s, id, Watching)
    case Fold(id) => (At(s, id, Waiting) || IsDraining(s, id)) && Buffer(s, id) != []
    case TakeReply(id) => At(s, id, Waiting) && Replies(s, id) != []
    case NoticeDone(id) => At(s, id, Waiting) && s.done && Replies(s, id) == []
    case EndDrain(id) => IsDraining(s, id) && Buffer(s, id) == []
    case Cancel(id) => At(s, id, Waiting)
    case RemoveSink(id) => id in s.calls && s.calls[id].stage.Ended? && s.calls[id].sink.Some?
    case Unregister(id) => id in s.calls && s.calls[id].stage.Ended?
  }

  function With(s: System, id: int, c: Call): System { s.(calls := s.calls[id := c]) }

  function Finished(s: System, c: Call, outcome: Outcome): Call {
    c.(stage := Ended(outcome), endedAt := |s.wire|, whole := c.sink.Some? && c.sink.value !in s.overflowed)
  }

  function ReadOne(s: System, frame: Frame): System {
    var read := s.(wire := s.wire + [frame]);
    match frame
    case Notification(n) =>
      read.(client := FannedOut(s.client, n), overflowed := s.overflowed + FullSinks(s.client))
    case Response(id, reply) =>
      if id in s.client.pending then
        read.(client := s.client.(pending := s.client.pending - {id}), hand := Some((id, reply)))
      else read
    case Other => read
  }

  function Apply(s: System, step: Step): System
    requires Enabled(s, step)
  {
    match step
    case Read(frame) => ReadOne(s, frame)
    case Deliver =>
      var id := s.hand.value.0;
      s.(client := s.client.(responses := s.client.responses[id := Replies(s, id) + [s.hand.value.1]]), hand := None)
    case Close => s.(done := true)
    case Register(id) =>
      s.(client := s.client.(pending := s.client.pending + {id}, responses := s.client.responses[id := []]),
         calls := s.calls[id := Call(|s.wire|, None, 0, [], Reserved, 0, false)])
    case AddSink(id) =>
      var k := s.client.nextSubID + 1;
      s.(client := s.client.(nextSubID := k, sinks := s.client.sinks + {k}, buffers := s.client.buffers[k := []]),
         calls := s.calls[id := s.calls[id].(sink := Some(k), sinkFrom := |s.wire|, stage := Watching)],
         owner := s.owner[k := id])
    case Send(id, ok) =>
      With(s, id, if ok then s.calls[id].(stage := Waiting) else Finished(s, s.calls[id], SendFailed))
    case Fold(id) =>
      var c, buffer := s.calls[id], Buffer(s, id);
      With(s, id, c.(folded := c.folded + [buffer[0]])).(
        client := s.client.(buffers := s.client.buffers[c.sink.value := buffer[1..]]))
    case TakeReply(id) =>
      var replies := Replies(s, id);
      With(s, id, s.calls[id].(stage := Draining(replies[0]))).(
        client := s.client.(responses := s.client.responses[id := replies[1..]]))
    case NoticeDone(id) => With(s, id, s.calls[id].(stage := DrainingLost))
    case EndDrain(id) =>
      var c := s.calls[id];
      With(s, id, Finished(s, c, if c.stage.Draining? then Answered(c.stage.reply) else Lost))
    case Cancel(id) => With(s, id, Finished(s, s.calls[id], Cancelled))
    case RemoveSink(id) => s.(client := s.client.(sinks := s.client.sinks - {s.calls[id].sink.value}))
    case Unregister(id) => s.(client := s.client.(pending := s.client.pending - {id}))
  }

  ghost predicate Runs(s: System, steps: seq<Step>)
    decreases |steps|
  {
    steps == [] || (Enabled(s, steps[0]) && Runs(Apply(s, steps[0]), steps[1..]))
  }

  function Exec(s: System, steps: seq<Step>): System
    requires Runs(s, steps)
    decreases |steps|
  {
    if steps == [] then s else Exec(Apply(s, steps[0]), steps[1..])
  }

  // ----- What the wire said -----

  function Notes(frames: seq<Frame>): seq<Note> {
    if frames == [] then []
    else
      var f := frames[|frames| - 1];
      Notes(frames[..|frames| - 1]) + if f.Notification? then [f.note] else []
  }

  /** The first response to an id. */
  function FirstReply(frames: seq<Frame>, id: int): Option<Reply> {
    if frames == [] then None
    else
      var f := frames[|frames| - 1];
      var before := FirstReply(frames[..|frames| - 1], id);
      if before.Some? then before
      else if f.Response? && f.id == id then Some(f.reply) else None
  }

  lemma OneMoreFrame(wire: seq<Frame>, k: nat, f: Frame, id: int)
    requires k <= |wire|
    ensures Notes((wire + [f])[k..]) == Notes(wire[k..]) + if f.Notification? then [f.note] else []
    ensures FirstReply((wire + [f])[k..], id) ==
            if FirstReply(wire[k..], id).Some? then FirstReply(wire[k..], id)
            else if f.Response? && f.id == id then Some(f.reply) else None
  {
    assert (wire + [f])[k..] == wire[k..] + [f];
    assert (wire[k..] + [f])[..|wire[k..]|] == wire[k..];
  }

  // ----- The invariant, call by call -----

  /** All that the machine holds about one call. */
  datatype View = View(
    call: Option<Call>,
    pending: bool,
    replies: Option<seq<Reply>>,
    inHand: Option<Reply>,
    buffer: Option<seq<Note>>,
    listening: bool,
    overflowed: bool)

  function SinkOf(s: System, id: int): Option<nat> {
    if id in s.calls then s.calls[id].sink else None
  }

  function ViewOf(s: System, id: int): View {
    var k := SinkOf(s, id);
    View(
      if id in s.calls then Some(s.calls[id]) else None,
      id in s.client.pending,
      if id in s.client.responses then Some(s.client.responses[id]) else None,
      if s.hand.Some? && s.hand.value.0 == id then Some(s.hand.value.1) else None,
      if k.Some? && k.value in s.client.buffers then Some(s.client.buffers[k.value]) else None,
      k.Some? && k.value in s.client.sinks,
      k.Some? && k.value in s.overflowed)
  }

  /** A reply is in one place: with the reader, in the channel, or taken. */
  predicate ReplyFits(id: int, v: View, wire: seq<Frame>)
    requires v.call.Some? && v.call.value.from <= |wire|
  {
    var c := v.call.value;
    var reply := FirstReply(wire[c.from..], id);
    && v.replies.Some?
    && (v.pending ==> reply.None?)
    && (reply.None? ==> v.replies.value == [] && v.inHand.None?)
    && (v.inHand.Some? ==> v.inHand == reply && v.replies.value == [])
    && (v.replies.value == [] || (reply.Some? && v.replies.value == [reply.value]))
    && (c.stage.Reserved? || c.stage.Watching? || c.stage.Waiting? ==>
          if reply.Some? then v.inHand.Some? || v.replies.value != [] else v.pending)
    && (c.stage.Draining? ==> reply == Some(c.stage.reply) && v.inHand.None? && v.replies.value == [])
  }

  /** What the sink was given is what is folded and what is buffered. */
  predicate SinkFits(v: View, wire: seq<Frame>)
    requires v.call.Some?
  {
    var c := v.call.value;
    && (c.stage.Reserved? <==> c.sink.None?)
    && (c.sink.None? ==> c.folded == [])
    && (c.sink.Some? ==> v.buffer.Some? && c.sinkFrom <= |wire|)
    && (c.sink.Some? && !c.stage.Ended? ==>
          && v.listening
          && (!v.overflowed ==> c.folded + v.buffer.value == Notes(wire[c.sinkFrom..])))
  }

  /** What an ended call returns, against what had been read when it ended. */
  predicate EndFits(id: int, c: Call, wire: seq<Frame>, done: bool)
    requires c.from <= |wire|
  {
    c.stage.Ended? ==>
      && c.from <= c.endedAt <= |wire|
      && (c.stage.outcome.Answered? ==> FirstReply(wire[c.from..c.endedAt], id) == Some(c.stage.outcome.reply))
      && (c.stage.outcome.Lost? ==> done && c.endedAt == |wire| && FirstReply(wire[c.from..], id) == None)
      && ((c.stage.outcome.Answered? || c.stage.outcome.Lost?) && c.whole ==>
            c.sinkFrom <= c.endedAt && c.folded == Notes(wire[c.sinkFrom..c.endedAt]))
  }

  predicate Fits(id: int, v: View, wire: seq<Frame>, done: bool) {
    && (v.call.None? ==> !v.pending && v.inHand.None?)
    && (v.call.Some? ==>
          && v.call.value.from <= |wire|
          && ReplyFits(id, v, wire) && SinkFits(v, wire) && EndFits(id, v.call.value, wire, done)
          && (v.call.value.stage.DrainingLost? ==> done && FirstReply(wire[v.call.value.from..], id) == None))
  }

  ghost predicate Inv(s: System) {
    && (forall id :: Fits(id, ViewOf(s, id), s.wire, s.done))
    && (forall id | id in s.calls && s.calls[id].sink.Some? ::
          s.calls[id].sink.value in s.owner && s.owner[s.calls[id].sink.value] == id)
    && (forall k | k in s.owner :: k <= s.client.nextSubID)
    && (forall k | k in s.overflowed || k in s.client.sinks :: k in s.owner)
    && (s.done ==> s.hand.None?)
  }

  // ----- Every step keeps the invariant -----

  /** A step of one call, or a delivery to it, is checked on that call. */
  lemma OneCallMoves(s: System, later: System, id: int)
    requires Inv(s) && later.wire == s.wire && later.done == s.done
    requires forall other | other != id :: ViewOf(later, other) == ViewOf(s, other)
    requires Fits(id, ViewOf(later, id), s.wire, s.done)
    requires later.owner == s.owner && later.client.nextSubID == s.client.nextSubID && later.overflowed == s.overflowed
    requires later.client.sinks <= s.client.sinks
    requires forall other :: SinkOf(later, other) == SinkOf(s, other)
    requires later.done ==> later.hand.None?
    ensures Inv(later)
  {
    forall other
      ensures Fits(other, ViewOf(later, other), later.wire, later.done)
    {
      assert Fits(other, ViewOf(s, other), s.wire, s.done);
    }
    forall other | other in later.calls && later.calls[other].sink.Some?
      ensures later.calls[other].sink.value in later.owner && later.owner[later.calls[other].sink.value] == other
    {
      assert SinkOf(s, other) == SinkOf(later, other);
    }
  }

  lemma NoteFits(id: int, v: View, later: View, wire: seq<Frame>, n: Note, done: bool)
    requires Fits(id, v, wire, done) && !done && v.call.Some?
    requires later.call == v.call && later.pending == v.pending && later.replies == v.replies
    requires later.inHand == v.inHand && later.listening == v.listening
    requires later.buffer.Some? <==> v.buffer.Some?
    requires v.buffer.Some? && v.listening && !later.overflowed ==>
               !v.overflowed && later.buffer.value == v.buffer.value + [n]
    ensures Fits(id, later, wire + [Notification(n)], done)
  {
    var c := v.call.value;
    OneMoreFrame(wire, c.from, Notification(n), id);
    if c.sink.Some? {
      OneMoreFrame(wire, c.sinkFrom, Notification(n), id);
      if v.buffer.Some? && v.listening && !later.overflowed {
        assert c.folded + (v.buffer.value + [n]) == c.folded + v.buffer.value + [n];
      }
    }
    EndStays(id, c, wire, Notification(n), done);
  }

  lemma EndStays(id: int, c: Call, wire: seq<Frame>, f: Frame, done: bool)
    requires c.from <= |wire| && !done && EndFits(id, c, wire, done)
    ensures EndFits(id, c, wire + [f], done)
  {
    if c.stage.Ended? {
      assert (wire + [f])[c.from..c.endedAt] == wire[c.from..c.endedAt];
      if c.sinkFrom <= c.endedAt {
        assert (wire + [f])[c.sinkFrom..c.endedAt] == wire[c.sinkFrom..c.endedAt];
      }
    }
  }

  /** A frame that is no notification and no response to this call's pending id. */
  lemma PassingFrameFits(id: int, v: View, wire: seq<Frame>, f: Frame, done: bool)
    requires Fits(id, v, wire, done) && !done
    requires !f.Notification? && !(f.Response? && f.id == id && v.pending)
    ensures Fits(id, v, wire + [f], done)
  {
    if v.call.Some? {
      var c := v.call.value;
      OneMoreFrame(wire, c.from, f, id);
      if c.sink.Some? {
        OneMoreFrame(wire, c.sinkFrom, f, id);
      }
      EndStays(id, c, wire, f, done);
    }
  }

  lemma NoteKeepsInv(s: System, n: Note)
    requires Inv(s) && Enabled(s, Read(Notification(n)))
    ensures Inv(Apply(s, Read(Notification(n))))
  {
    var later := Apply(s, Read(Notification(n)));
    forall id
      ensures Fits(id, ViewOf(later, id), later.wire, later.done)
    {
      assert Fits(id, ViewOf(s, id), s.wire, s.done);
      if id in s.calls {
        NoteFits(id, ViewOf(s, id), ViewOf(later, id), s.wire, n, s.done);
      }
    }
  }

  /** The reader takes a response to a pending id in hand. */
  lemma ClaimFits(id: int, v: View, wire: seq<Frame>, reply: Reply, done: bool)
    requires Fits(id, v, wire, done) && !done && v.pending
    ensures Fits(id, v.(pending := false, inHand := Some(reply)), wire + [Response(id, reply)], done)
  {
    var c := v.call.value;
    OneMoreFrame(wire, c.from, Response(id, reply), id);
    if c.sink.Some? {
      OneMoreFrame(wire, c.sinkFrom, Response(id, reply), id);
    }
    EndStays(id, c, wire, Response(id, reply), done);
  }

  lemma OtherFrameKeepsInv(s: System, f: Frame)
    requires Inv(s) && Enabled(s, Read(f)) && !f.Notification?
    ensures Inv(Apply(s, Read(f)))
  {
    var later := Apply(s, Read(f));
    forall id
      ensures Fits(id, ViewOf(later, id), later.wire, later.done)
    {
      assert Fits(id, ViewOf(s, id), s.wire, s.done);
      if f.Response? && f.id == id && id in s.client.pending {
        ClaimFits(id, ViewOf(s, id), s.wire, f.reply, s.done);
      } else {
        PassingFrameFits(id, ViewOf(s, id), s.wire, f, s.done);
        assert ViewOf(later, id) == ViewOf(s, id);
      }
    }
  }

  lemma DeliverKeepsInv(s: System)
    requires Inv(s) && Enabled(s, Deliver)
    ensures Inv(Apply(s, Deliver))
  {
    var id := s.hand.value.0;
    assert Fits(id, ViewOf(s, id), s.wire, s.done);
    OneCallMoves(s, Apply(s, Deliver), id);
  }

  lemma CloseKeepsInv(s: System)
    requires Inv(s) && Enabled(s, Close)
    ensures Inv(Apply(s, Close))
  {
    var later := Apply(s, Close);
    forall id
      ensures Fits(id, ViewOf(later, id), later.wire, later.done)
    {
      assert Fits(id, ViewOf(s, id), s.wire, s.done);
      assert ViewOf(later, id) == ViewOf(s, id);
    }
  }

  lemma RegisterKeepsInv(s: System, id: int)
    requires Inv(s) && Enabled(s, Register(id))
    ensures Inv(Apply(s, Register(id)))
  {
    var later := Apply(s, Register(id));
    assert Fits(id, ViewOf(s, id), s.wire, s.done);
    assert s.wire[|s.wire|..] == [];
    OneCallMoves(s, later, id);
  }

  lemma AddSinkFits(s: System, id: int)
    requires Inv(s) && Enabled(s, AddSink(id))
    ensures Fits(id, ViewOf(Apply(s, AddSink(id)), id), s.wire, s.done)
  {
    assert Fits(id, ViewOf(s, id), s.wire, s.done);
    assert s.wire[|s.wire|..] == [] && [] + [] == s.calls[id].folded + [];
  }

  /** A new sink is nobody else's. */
  lemma AddSinkKeepsInv(s: System, id: int)
    requires Inv(s) && Enabled(s, AddSink(id))
    ensures Inv(Apply(s, AddSink(id)))
  {
    var later := Apply(s, AddSink(id));
    AddSinkFits(s, id);
    forall other | other != id
      ensures Fits(other, ViewOf(later, other), later.wire, later.done)
    {
      assert Fits(other, ViewOf(s, other), s.wire, s.done);
      AddSinkSpares(s, id, other);
    }
  }

  lemma AddSinkSpares(s: System, id: int, other: int)
    requires Inv(s) && Enabled(s, AddSink(id)) && other != id
    ensures ViewOf(Apply(s, AddSink(id)), other) == ViewOf(s, other)
  {
    assert s.client.nextSubID + 1 !in s.owner;
    assert SinkOf(s, other) != Some(s.client.nextSubID + 1);
  }

  lemma SendKeepsInv(s: System, id: int, ok: bool)
    requires Inv(s) && Enabled(s, Send(id, ok))
    ensures Inv(Apply(s, Send(id, ok)))
  {
    assert Fits(id, ViewOf(s, id), s.wire, s.done);
    OneCallMoves(s, Apply(s, Send(id, ok)), id);
  }

  lemma SinksAreOwn(s: System, id: int, other: int)
    requires Inv(s) && id != other && SinkOf(s, id).Some?
    ensures SinkOf(s, other) != SinkOf(s, id)
  {
  }

  lemma FoldKeepsInv(s: System, id: int)
    requires Inv(s) && Enabled(s, Fold(id))
    ensures Inv(Apply(s, Fold(id)))
  {
    var later := Apply(s, Fold(id));
    assert Fits(id, ViewOf(s, id), s.wire, s.done);
    forall other | other != id
      ensures ViewOf(later, other) == ViewOf(s, other)
    {
      SinksAreOwn(s, id, other);
    }
    var buffer := Buffer(s, id);
    assert s.calls[id].folded + [buffer[0]] + buffer[1..] == s.calls[id].folded + buffer;
    OneCallMoves(s, later, id);
  }

  lemma TakeReplyKeepsInv(s: System, id: int)
    requires Inv(s) && Enabled(s, TakeReply(id))
    ensures Inv(Apply(s, TakeReply(id)))
  {
    assert Fits(id, ViewOf(s, id), s.wire, s.done);
    OneCallMoves(s, Apply(s, TakeReply(id)), id);
  }

  /** Only a call whose reply never came notices the end of the connection. */
  lemma NoticeDoneKeepsInv(s: System, id: int)
    requires Inv(s) && Enabled(s, NoticeDone(id))
    ensures Inv(Apply(s, NoticeDone(id)))
  {
    assert Fits(id, ViewOf(s, id), s.wire, s.done);
    OneCallMoves(s, Apply(s, NoticeDone(id)), id);
  }

  lemma EndDrainFits(s: System, id: int)
    requires Inv(s) && Enabled(s, EndDrain(id))
    ensures Fits(id, ViewOf(Apply(s, EndDrain(id)), id), s.wire, s.done)
  {
    var c := s.calls[id];
    assert Fits(id, ViewOf(s, id), s.wire, s.done);
    assert s.wire[c.from..|s.wire|] == s.wire[c.from..];
    assert c.sinkFrom <= |s.wire| ==> s.wire[c.sinkFrom..|s.wire|] == s.wire[c.sinkFrom..];
    assert c.folded + [] == c.folded;
  }

  lemma EndDrainKeepsInv(s: System, id: int)
    requires Inv(s) && Enabled(s, EndDrain(id))
    ensures Inv(Apply(s, EndDrain(id)))
  {
    EndDrainFits(s, id);
    OneCallMoves(s, Apply(s, EndDrain(id)), id);
  }

  lemma CancelKeepsInv(s: System, id: int)
    requires Inv(s) && Enabled(s, Cancel(id))
    ensures Inv(Apply(s, Cancel(id)))
  {
    assert Fits(id, ViewOf(s, id), s.wire, s.done);
    OneCallMoves(s, Apply(s, Cancel(id)), id);
  }

  lemma RemoveSinkKeepsInv(s: System, id: int)
    requires Inv(s) && Enabled(s, RemoveSink(id))
    ensures Inv(Apply(s, RemoveSink(id)))
  {
    var later := Apply(s, RemoveSink(id));
    assert Fits(id, ViewOf(s, id), s.wire, s.done);
    forall other | other != id
      ensures ViewOf(later, other) == ViewOf(s, other)
    {
      SinksAreOwn(s, id, other);
    }
    OneCallMoves(s, later, id);
  }

  lemma UnregisterKeepsInv(s: System, id: int)
    requires Inv(s) && Enabled(s, Unregister(id))
    ensures Inv(Apply(s, Unregister(id)))
  {
    assert Fits(id, ViewOf(s, id), s.wire, s.done);
    OneCallMoves(s, Apply(s, Unregister(id)), id);
  }

  lemma StepKeepsInv(s: System, step: Step)
    requires Inv(s) && Enabled(s, step)
    ensures Inv(Apply(s, step))
  {
    match step
    case Read(frame) =>
      if frame.Notification? {
        NoteKeepsInv(s, frame.note);
      } else {
        OtherFrameKeepsInv(s, frame);
      }
    case Deliver => DeliverKeepsInv(s);
    case Close => CloseKeepsInv(s);
    case Register(id) => RegisterKeepsInv(s, id);
    case AddSink(id) => AddSinkKeepsInv(s, id);
    case Send(id, ok) => SendKeepsInv(s, id, ok);
    case Fold(id) => FoldKeepsInv(s, id);
    case TakeReply(id) => TakeReplyKeepsInv(s, id);
    case NoticeDone(id) => NoticeDoneKeepsInv(s, id);
    case EndDrain(id) => EndDrainKeepsInv(s, id);
    case Cancel(id) => CancelKeepsInv(s, id);
    case RemoveSink(id) => RemoveSinkKeepsInv(s, id);
    case Unregister(id) => UnregisterKeepsInv(s, id);
  }

  lemma {:induction false} EveryRunKeepsInv(s: System, steps: seq<Step>)
    requires Inv(s) && Runs(s, steps)
    ensures Inv(Exec(s, steps))
    decreases |steps|
  {
    if steps == [] {
    } else {
      StepKeepsInv(s, steps[0]);
      EveryRunKeepsInv(Apply(s, steps[0]), steps[1..]);
    }
  }

  // ----- What a call returns -----

  /** Under every schedule: a call that is answered returns the first response to
      its own id since it registered, and, unless its sink overflowed, it has
      folded exactly the notifications read from the registration of its sink to
      some point after that response, in wire order. */
  lemma AnswersAreWhole(steps: seq<Step>, id: int)
    requires Runs(START, steps)
    ensures var s := Exec(START, steps);
            id in s.calls && s.calls[id].stage.Ended? && s.calls[id].stage.outcome.Answered? ==>
              var c := s.calls[id];
              && c.from <= c.endedAt <= |s.wire|
              && FirstReply(s.wire[c.from..c.endedAt], id) == Some(c.stage.outcome.reply)
              && (c.whole ==> c.sinkFrom <= c.endedAt && c.folded == Notes(s.wire[c.sinkFrom..c.endedAt]))
  {
    EveryRunKeepsInv(START, steps);
    var s := Exec(START, steps);
    assert Fits(id, ViewOf(s, id), s.wire, s.done);
  }

  /** A call reports the connection lost only when it is, and no response to its
      id was ever read: one that arrived just before the end is returned. And it
      has then folded everything that was read. */
  lemma LostMeansNeverAnswered(steps: seq<Step>, id: int)
    requires Runs(START, steps)
    ensures var s := Exec(START, steps);
            At(s, id, Ended(Lost)) ==>
              var c := s.calls[id];
              && s.done && c.from <= |s.wire| && FirstReply(s.wire[c.from..], id) == None
              && (c.whole ==> c.sinkFrom <= |s.wire| && c.folded == Notes(s.wire[c.sinkFrom..]))
  {
    EveryRunKeepsInv(START, steps);
    var s := Exec(START, steps);
    assert Fits(id, ViewOf(s, id), s.wire, s.done);
    if At(s, id, Ended(Lost)) && s.calls[id].whole {
      assert s.wire[s.calls[id].sinkFrom..|s.wire|] == s.wire[s.calls[id].sinkFrom..];
    }
  }

  /** A sink misses a notification, and is marked for it, exactly when it is offered one
      while it holds 256; every other listening sink gets it, and nothing else is
      ever put in a sink. */
  lemma MissesExactlyWhenFull(s: System, step: Step, k: nat)
    requires Inv(s) && Enabled(s, step) && k in s.client.buffers
    ensures var later := Apply(s, step);
            && (k in later.overflowed <==>
                  || k in s.overflowed
                  || (step.Read? && step.frame.Notification? && k in s.client.sinks && |s.client.buffers[k]| >= 256))
            && (step.Read? && step.frame.Notification? && k in s.client.sinks && |s.client.buffers[k]| < 256 ==>
                  k in later.client.buffers && later.client.buffers[k] == s.client.buffers[k] + [step.frame.note])
            && (k in later.client.buffers && |later.client.buffers[k]| > |s.client.buffers[k]| ==>
                  step.Read? && step.frame.Notification?)
  {
  }

  /** Once a call has ended, its deferred calls leave nothing of it with the client. */
  lemma EndedCallsAreForgotten(s: System, id: int)
    ensures Enabled(s, RemoveSink(id)) ==>
              Apply(s, RemoveSink(id)).client == s.client.(sinks := s.client.sinks - {s.calls[id].sink.value})
    ensures Enabled(s, Unregister(id)) ==> Apply(s, Unregister(id)).client == s.client.(pending := s.client.pending - {id})
  {
  }

  /** A call is marked whole exactly when it had a sink and that had missed nothing. */
  lemma WholeExactlyWhenNothingMissed(s: System, step: Step, id: int)
    requires Inv(s) && Enabled(s, step) && id in s.calls && !s.calls[id].stage.Ended?
    requires id in Apply(s, step).calls && Apply(s, step).calls[id].stage.Ended?
    ensures Apply(s, step).calls[id].whole <==>
            s.calls[id].sink.Some? && s.calls[id].sink.value !in s.overflowed
  {
  }

  /** The reply to the call has been read. */
  predicate Heard(s: System, id: int) {
    id in s.calls && s.calls[id].from <= |s.wire| && FirstReply(s.wire[s.calls[id].from..], id).Some?
  }

  lemma ReaderIsFree(s: System)
    requires Inv(s) && s.hand.Some?
    ensures Enabled(s, Deliver)
  {
    assert Fits(s.hand.value.0, ViewOf(s, s.hand.value.0), s.wire, s.done);
  }

  lemma WaiterIsFree(s: System, id: int)
    requires Inv(s) && At(s, id, Waiting) && s.hand.None? && (s.done || Heard(s, id))
    ensures Enabled(s, TakeReply(id)) || Enabled(s, NoticeDone(id))
  {
    assert Fits(id, ViewOf(s, id), s.wire, s.done);
  }

  /** The reader never blocks on a response channel, and a call whose reply has
      been read, or whose connection has ended, is never left waiting. */
  lemma NobodyIsStuck(steps: seq<Step>)
    requires Runs(START, steps)
    ensures var s := Exec(START, steps);
            && (s.hand.Some? ==> Enabled(s, Deliver))
            && (forall id | At(s, id, Waiting) && s.hand.None? && (s.done || Heard(s, id)) ::
                  Enabled(s, TakeReply(id)) || Enabled(s, NoticeDone(id)))
            && (forall id | IsDraining(s, id) :: Enabled(s, Fold(id)) || Enabled(s, EndDrain(id)))
  {
    EveryRunKeepsInv(START, steps);
    var s := Exec(START, steps);
    if s.hand.Some? {
      ReaderIsFree(s);
    }
    forall id | At(s, id, Waiting) && s.hand.None? && (s.done || Heard(s, id))
      ensures Enabled(s, TakeReply(id)) || Enabled(s, NoticeDone(id))
    {
      WaiterIsFree(s, id);
    }
  }

  /** A draining call ends by folding what its sink holds. */
  lemma DrainEnds(s: System, id: int) returns (rest: seq<Step>)
    requires IsDraining(s, id)
    ensures Runs(s, rest)
    ensures At(Exec(s, rest), id, Ended(if s.calls[id].stage.Draining? then Answered(s.calls[id].stage.reply) else Lost))
    decreases |Buffer(s, id)|
  {
    var step := if Buffer(s, id) == [] then EndDrain(id) else Fold(id);
    var more: seq<Step> := [];
    if step.Fold? {
      more := DrainEnds(Apply(s, step), id);
    }
    rest := [step] + more;
    assert rest[1..] == more;
  }

  /** From wherever any run has left a waiting call whose reply has been read and
      handed on, steps of its own return it that reply. */
  lemma HeardCallsEndAnswered(steps: seq<Step>, id: int) returns (rest: seq<Step>)
    requires Runs(START, steps)
    requires var s := Exec(START, steps); At(s, id, Waiting) && s.hand.None? && Heard(s, id)
    ensures var s := Exec(START, steps);
            && Runs(s, rest)
            && At(Exec(s, rest), id, Ended(Answered(FirstReply(s.wire[s.calls[id].from..], id).value)))
  {
    EveryRunKeepsInv(START, steps);
    var s := Exec(START, steps);
    assert Fits(id, ViewOf(s, id), s.wire, s.done);
    var more := DrainEnds(Apply(s, TakeReply(id)), id);
    rest := [TakeReply(id)] + more;
    assert rest[1..] == more;
  }
}
