/**
 Asks forwarded to viewers (harness/internal/tee/tee.go, forwardAsk and
 resolveAsk): the server's mutex sections, and the machine of asking threads,
 answering threads, timers, viewers and Stop that interleaves them.
 */
module TeeAsks {
  import opened Wrappers

  datatype Kind = Permission | Elicitation

  /** kperm-<n> or kask-<n>. */
  datatype AskId = AskId(kind: Kind, n: nat)

  type Viewer = nat
  type Answer = string

  /** A channel of capacity one is made for each ask, and named after it. */
  datatype Channel = Channel(ask: AskId)

  /** What the server's mutex guards, with the channels its asks wait on. */
  datatype Tee = Tee(
    viewers: set<Viewer>,
    perms: map<AskId, Channel>,
    pendingAsks: map<AskId, string>,
    stopped: bool,
    done: bool,
    responsive: bool,
    permSeq: nat,
    channels: map<Channel, seq<Answer>>)

  const NEW_TEE := Tee({}, map[], map[], false, false, false, 0, map[])

  function Forwarded(t: Tee, kind: Kind, frame: string): Tee {
    var id := AskId(kind, t.permSeq + 1);
    var counted := t.(permSeq := t.permSeq + 1);
    if t.stopped || t.viewers == {} || !t.responsive then counted
    else counted.(perms := t.perms[id := Channel(id)], pendingAsks := t.pendingAsks[id := frame],
                  channels := t.channels[Channel(id) := []])
  }

  function Claimed(t: Tee, id: AskId, answer: Option<Answer>): Tee {
    var heard := t.(responsive := true);
    if answer.None? || id !in t.perms then heard
    else heard.(perms := t.perms - {id}, pendingAsks := t.pendingAsks - {id})
  }

  function Cleaned(t: Tee, id: AskId): Tee {
    t.(perms := t.perms - {id}, pendingAsks := t.pendingAsks - {id})
  }

  function Attached(t: Tee, v: Viewer): Tee {
    if t.stopped then t else t.(viewers := t.viewers + {v}, responsive := true)
  }

  class Server {
    var viewers: set<Viewer>
    var perms: map<AskId, Channel>
    var pendingAsks: map<AskId, string>
    var stopped: bool
    var done: bool
    var responsive: bool
    var permSeq: nat
    var channels: map<Channel, seq<Answer>>

    function State(): Tee
      reads this
    {
      Tee(viewers, perms, pendingAsks, stopped, done, responsive, permSeq, channels)
    }

    constructor ()
      ensures State() == NEW_TEE
    {
      viewers, perms, pendingAsks := {}, map[], map[];
      stopped, done, responsive := false, false, false;
      permSeq, channels := 0, map[];
    }

    /** forwardAsk up to the end of its critical section. */
    method Register(kind: Kind, frame: string) returns (id: AskId, offered: bool)
      modifies this
      ensures State() == Forwarded(old(State()), kind, frame)
      ensures id == AskId(kind, permSeq)
      ensures offered <==> old(!stopped && viewers != {} && responsive)
    {
      permSeq := permSeq + 1;
      id := AskId(kind, permSeq);
      var ch := Channel(id);
      if stopped || viewers == {} {
        return id, false;
      }
      if !responsive {
        return id, false;
      }
      channels := channels[ch := []];
      perms := perms[id := ch];
      pendingAsks := pendingAsks[id := frame];
      return id, true;
    }

    /** resolveAsk up to the end of its critical section. */
    method TakeAnswer(id: AskId, answer: Option<Answer>) returns (ch: Option<Channel>)
      modifies this
      ensures State() == Claimed(old(State()), id, answer)
      ensures ch == if answer.Some? && id in old(perms) then Some(old(perms)[id]) else None
    {
      ch := None;
      responsive := true;
      if answer.None? {
        return;
      }
      if id in perms {
        ch := Some(perms[id]);
        perms := perms - {id};
        pendingAsks := pendingAsks - {id};
      }
    }

    method CleanUp(id: AskId)
      modifies this
      ensures State() == Cleaned(old(State()), id)
    {
      perms := perms - {id};
      pendingAsks := pendingAsks - {id};
    }

    method AddViewer(v: Viewer) returns (ok: bool)
      modifies this
      ensures State() == Attached(old(State()), v)
      ensures ok <==> !old(stopped)
    {
      if stopped {
        return false;
      }
      viewers := viewers + {v};
      responsive := true;
      return true;
    }

    method RemoveViewer(v: Viewer)
      modifies this
      ensures State() == old(State()).(viewers := old(viewers) - {v})
    {
      viewers := viewers - {v};
    }

    method Stop() returns (views: set<Viewer>)
      modifies this
      ensures State() == old(State()).(done := true, stopped := true)
      ensures views == old(viewers)
    {
      done := true;
      stopped := true;
      views := viewers;
    }
  }

  // ----- The machine -----

  datatype Outcome = Answered(answer: Answer) | TimedOut | ShutDown

  /** An asking thread: parked on its select; past it, with the deferred
      cleanup still to run; returned. closed: nothing is left to tell viewers. */
  datatype Asker = Parked | Woken(outcome: Outcome, closed: bool) | Returned(outcome: Outcome)

  /** An answering thread past its critical section, before and after its send. */
  datatype Answerer = Holding(ask: AskId, channel: Channel, answer: Answer) | Sent(ask: AskId, answer: Answer)

  /** The viewer result the server accepted for an ask, and the thread that brought it. */
  datatype Acceptance = Acceptance(thread: nat, answer: Answer)

  /** A resolution frame broadcast to viewers. */
  datatype Frame = Frame(ask: AskId, body: Option<Answer>)

  datatype System = System(
    tee: Tee,
    askers: map<AskId, Asker>,
    answerers: map<nat, Answerer>,
    accepted: map<AskId, Acceptance>,
    frames: multiset<Frame>)

  const START := System(NEW_TEE, map[], map[], map[], multiset{})

  datatype Step =
    | Ask(kind: Kind, frame: string)
    | TakeAnswer(thread: nat, id: AskId, answer: Option<Answer>)
    | SendAnswer(thread: nat)
    | BroadcastAnswer(thread: nat)
    | Receive(id: AskId)
    | Expire(id: AskId)
    | NoticeDone(id: AskId)
    | BroadcastCancel(id: AskId)
    | CleanUp(id: AskId)
    | Attach(viewer: Viewer)
    | Detach(viewer: Viewer)
    | SignOfLife
    | CloseDone
    | MarkStopped

  predicate IsParked(s: System, id: AskId) { id in s.askers && s.askers[id] == Parked }

  function Queue(s: System, ch: Channel): seq<Answer> {
    if ch in s.tee.channels then s.tee.channels[ch] else []
  }

  /** A step is taken only when its thread is there to take it; a send needs room. */
  predicate Enabled(s: System, step: Step) {
    match step
    case TakeAnswer(thread, _, _) => thread !in s.answerers
    case SendAnswer(thread) =>
      && thread in s.answerers && s.answerers[thread].Holding?
      && s.answerers[thread].channel in s.tee.channels && |Queue(s, s.answerers[thread].channel)| < 1
    case BroadcastAnswer(thread) => thread in s.answerers && s.answerers[thread].Sent?
    case Receive(id) => IsParked(s, id) && Queue(s, Channel(id)) != []
    case Expire(id) => IsParked(s, id)
    case NoticeDone(id) => IsParked(s, id) && s.tee.done
    case BroadcastCancel(id) => id in s.askers && s.askers[id].Woken? && !s.askers[id].closed
    case CleanUp(id) => id in s.askers && s.askers[id].Woken? && s.askers[id].closed
    case MarkStopped => s.tee.done
    case _ => true
  }

  function Apply(s: System, step: Step): System
    requires Enabled(s, step)
  {
    match step
    case Ask(kind, frame) =>
      var later := Forwarded(s.tee, kind, frame);
      var id := AskId(kind, later.permSeq);
      if id in later.perms then s.(tee := later, askers := s.askers[id := Parked]) else s.(tee := later)
    case TakeAnswer(thread, id, answer) =>
      var later := Claimed(s.tee, id, answer);
      if answer.Some? && id in s.tee.perms then
        s.(tee := later, answerers := s.answerers[thread := Holding(id, s.tee.perms[id], answer.value)],
           accepted := s.accepted[id := Acceptance(thread, answer.value)])
      else s.(tee := later)
    case SendAnswer(thread) =>
      var h := s.answerers[thread];
      s.(tee := s.tee.(channels := s.tee.channels[h.channel := Queue(s, h.channel) + [h.answer]]),
         answerers := s.answerers[thread := Sent(h.ask, h.answer)])
    case BroadcastAnswer(thread) =>
      var h := s.answerers[thread];
      s.(frames := s.frames + multiset{Frame(h.ask, Some(h.answer))}, answerers := s.answerers - {thread})
    case Receive(id) =>
      var queue := Queue(s, Channel(id));
      s.(tee := s.tee.(channels := s.tee.channels[Channel(id) := queue[1..]]),
         askers := s.askers[id := Woken(Answered(queue[0]), true)])
    case Expire(id) =>
      s.(tee := s.tee.(responsive := false), askers := s.askers[id := Woken(TimedOut, false)])
    case NoticeDone(id) => s.(askers := s.askers[id := Woken(ShutDown, false)])
    case BroadcastCancel(id) =>
      s.(frames := s.frames + multiset{Frame(id, None)}, askers := s.askers[id := s.askers[id].(closed := true)])
    case CleanUp(id) =>
      s.(tee := Cleaned(s.tee, id), askers := s.askers[id := Returned(s.askers[id].outcome)])
    case Attach(viewer) => s.(tee := Attached(s.tee, viewer))
    case Detach(viewer) => s.(tee := s.tee.(viewers := s.tee.viewers - {viewer}))
    case SignOfLife => s.(tee := s.tee.(responsive := true))
    case CloseDone => s.(tee := s.tee.(done := true))
    case MarkStopped => s.(tee := s.tee.(stopped := true))
  }

  ghost predicate Runs(s: System, steps: seq<Step>)
    decreases |steps|
  {
    steps == [] || (Enabled(s, steps[0]) && Runs(Apply(s, steps[0]), steps[1..]))
  }

  function Exec(s: System, steps: seq<Step>): System
    requires Runs(s, steps)
    decreases |steps|
  {
    if steps == [] then s else Exec(Apply(s, steps[0]), steps[1..])
  }

  // ----- The invariant: what one ask looks like, and that it fits -----

  /** All that the machine holds about one ask. */
  datatype View = View(
    asker: Option<Asker>,
    perm: Option<Channel>,
    pending: bool,
    queue: Option<seq<Answer>>,
    accepted: Option<Answer>,
    answerer: Option<Answerer>)

  /** The thread still busy with the answer it brought to this ask. */
  function Bringer(s: System, id: AskId): Option<Answerer> {
    if id !in s.accepted || s.accepted[id].thread !in s.answerers then None
    else
      var h := s.answerers[s.accepted[id].thread];
      if h.ask == id then Some(h) else None
  }

  function ViewOf(s: System, id: AskId): View {
    View(
      if id in s.askers then Some(s.askers[id]) else None,
      if id in s.tee.perms then Some(s.tee.perms[id]) else None,
      id in s.tee.pendingAsks,
      if Channel(id) in s.tee.channels then Some(s.tee.channels[Channel(id)]) else None,
      if id in s.accepted then Some(s.accepted[id].answer) else None,
      Bringer(s, id))
  }

  predicate Got(v: View) { v.asker.Some? && !v.asker.value.Parked? && v.asker.value.outcome.Answered? }

  predicate GaveUp(v: View) { v.asker.Some? && !v.asker.value.Parked? && !v.asker.value.outcome.Answered? }

  /** An ask is offered until it is taken or cleaned up; an accepted answer is in
      one place: with its thread, in the ask's channel, or delivered. */
  predicate Fits(id: AskId, v: View) {
    && (v.perm.Some? <==> v.pending)
    && (v.asker.Some? <==> v.queue.Some?)
    && (v.perm.Some? ==>
          v.asker.Some? && !v.asker.value.Returned? && v.perm.value == Channel(id) && v.accepted.None?)
    && (v.asker.Some? && v.perm.None? && !v.asker.value.Returned? ==> v.accepted.Some?)
    && (v.accepted.Some? ==> v.asker.Some?)
    && (v.asker.Some? ==> v.queue.value == [] || (v.accepted.Some? && v.queue.value == [v.accepted.value]))
    && (Got(v) ==> v.accepted == Some(v.asker.value.outcome.answer) && v.queue.value == []
                   && (v.asker.value.Woken? ==> v.asker.value.closed))
    && (v.answerer.Some? ==> v.accepted == Some(v.answerer.value.answer) && v.answerer.value.ask == id)
    && (v.answerer.Some? && v.answerer.value.Holding? ==>
          v.answerer.value.channel == Channel(id) && v.queue.value == [] && !Got(v))
  }

  /** How many times a frame has been broadcast: an accepted answer's once, when
      its thread is done; a cancellation's once, when its asker gave up and said so. */
  function Count(v: View, body: Option<Answer>): nat {
    match body
    case Some(_) => if v.accepted == body && v.answerer.None? then 1 else 0
    case None => if GaveUp(v) && (v.asker.value.Woken? ==> v.asker.value.closed) then 1 else 0
  }

  ghost predicate Inv(s: System) {
    && (forall id :: Fits(id, ViewOf(s, id)))
    && (forall id | id in s.askers :: id.n <= s.tee.permSeq)
    && (forall t | t in s.answerers ::
          s.answerers[t].ask in s.accepted && s.accepted[s.answerers[t].ask].thread == t)
    && (forall f :: s.frames[f] == Count(ViewOf(s, f.ask), f.body))
  }

  // ----- Every step keeps the invariant -----

  /** A step that changes the view of at most one ask is checked on that ask. */
  lemma OneViewMoves(s: System, later: System, id: AskId)
    requires Inv(s)
    requires s.tee.permSeq <= later.tee.permSeq
    requires forall other | other != id :: ViewOf(later, other) == ViewOf(s, other)
    requires Fits(id, ViewOf(later, id))
    requires id in later.askers ==> id.n <= later.tee.permSeq
    requires forall t | t in later.answerers ::
               later.answerers[t].ask in later.accepted && later.accepted[later.answerers[t].ask].thread == t
    requires forall f: Frame | f.ask != id :: later.frames[f] == s.frames[f]
    requires forall body :: later.frames[Frame(id, body)] == Count(ViewOf(later, id), body)
    ensures Inv(later)
  {
    forall other
      ensures Fits(other, ViewOf(later, other))
    {
      assert Fits(other, ViewOf(s, other));
    }
    forall other | other in later.askers
      ensures other.n <= later.tee.permSeq
    {
      if other != id {
        assert ViewOf(later, other).asker.Some? && ViewOf(s, other).asker.Some?;
      }
    }
    forall f: Frame
      ensures later.frames[f] == Count(ViewOf(later, f.ask), f.body)
    {
      if f.ask == id {
        assert f == Frame(id, f.body);
      }
    }
  }

  lemma OfferedKeepsInv(s: System, kind: Kind, frame: string)
    requires Inv(s)
    requires !(s.tee.stopped || s.tee.viewers == {} || !s.tee.responsive)
    ensures Inv(Apply(s, Ask(kind, frame)))
  {
    var later := Apply(s, Ask(kind, frame));
    var id := AskId(kind, s.tee.permSeq + 1);
    assert id !in s.askers;
    assert Fits(id, ViewOf(s, id));
    assert ViewOf(later, id) == View(Some(Parked), Some(Channel(id)), true, Some([]), None, None);
    forall other | other != id
      ensures ViewOf(later, other) == ViewOf(s, other)
    {
      assert Bringer(later, other) == Bringer(s, other);
    }
    forall body
      ensures later.frames[Frame(id, body)] == Count(ViewOf(later, id), body)
    {
      assert s.frames[Frame(id, body)] == Count(ViewOf(s, id), body);
    }
    OneViewMoves(s, later, id);
  }

  /** Viewers come and go, the server stops, an ask is declined, an answer comes
      to nothing: no ask is touched. */
  lemma SameAsksKeepInv(s: System, tee: Tee)
    requires Inv(s)
    requires tee.perms == s.tee.perms && tee.pendingAsks == s.tee.pendingAsks
    requires tee.channels == s.tee.channels && s.tee.permSeq <= tee.permSeq
    ensures Inv(s.(tee := tee))
  {
    var later := s.(tee := tee);
    assert forall id :: ViewOf(later, id) == ViewOf(s, id);
    forall id
      ensures Fits(id, ViewOf(later, id))
    {
      assert Fits(id, ViewOf(s, id));
    }
  }

  lemma AskKeepsInv(s: System, kind: Kind, frame: string)
    requires Inv(s)
    ensures Inv(Apply(s, Ask(kind, frame)))
  {
    if s.tee.stopped || s.tee.viewers == {} || !s.tee.responsive {
      var id := AskId(kind, s.tee.permSeq + 1);
      assert Fits(id, ViewOf(s, id));
      SameAsksKeepInv(s, Forwarded(s.tee, kind, frame));
    } else {
      OfferedKeepsInv(s, kind, frame);
    }
  }

  lemma AcceptedKeepsInv(s: System, thread: nat, id: AskId, a: Answer)
    requires Inv(s) && Enabled(s, TakeAnswer(thread, id, Some(a))) && id in s.tee.perms
    ensures Inv(Apply(s, TakeAnswer(thread, id, Some(a))))
  {
    var later := Apply(s, TakeAnswer(thread, id, Some(a)));
    assert Fits(id, ViewOf(s, id));
    assert Bringer(later, id) == Some(Holding(id, Channel(id), a));
    assert Fits(id, ViewOf(later, id));
    forall other | other != id
      ensures ViewOf(later, other) == ViewOf(s, other)
    {
      assert Bringer(later, other) == Bringer(s, other);
    }
    forall t | t in later.answerers
      ensures later.answerers[t].ask in later.accepted && later.accepted[later.answerers[t].ask].thread == t
    {
      assert t != thread ==> later.answerers[t] == s.answerers[t] && s.answerers[t].ask != id;
    }
    forall body
      ensures later.frames[Frame(id, body)] == Count(ViewOf(later, id), body)
    {
      assert s.frames[Frame(id, body)] == Count(ViewOf(s, id), body);
    }
    OneViewMoves(s, later, id);
  }

  lemma TakeAnswerKeepsInv(s: System, thread: nat, id: AskId, answer: Option<Answer>)
    requires Inv(s) && Enabled(s, TakeAnswer(thread, id, answer))
    ensures Inv(Apply(s, TakeAnswer(thread, id, answer)))
  {
    if answer.Some? && id in s.tee.perms {
      AcceptedKeepsInv(s, thread, id, answer.value);
    } else {
      SameAsksKeepInv(s, Claimed(s.tee, id, answer));
    }
  }

  lemma SendAnswerKeepsInv(s: System, thread: nat)
    requires Inv(s) && Enabled(s, SendAnswer(thread))
    ensures Inv(Apply(s, SendAnswer(thread)))
  {
    var later := Apply(s, SendAnswer(thread));
    var id := s.answerers[thread].ask;
    assert Fits(id, ViewOf(s, id));
    assert Bringer(s, id) == Some(s.answerers[thread]);
    forall body
      ensures later.frames[Frame(id, body)] == Count(ViewOf(later, id), body)
    {
      assert s.frames[Frame(id, body)] == Count(ViewOf(s, id), body);
    }
    OneViewMoves(s, later, id);
  }

  lemma BroadcastAnswerKeepsInv(s: System, thread: nat)
    requires Inv(s) && Enabled(s, BroadcastAnswer(thread))
    ensures Inv(Apply(s, BroadcastAnswer(thread)))
  {
    var later := Apply(s, BroadcastAnswer(thread));
    var id := s.answerers[thread].ask;
    assert Fits(id, ViewOf(s, id));
    assert Bringer(s, id) == Some(s.answerers[thread]);
    forall body
      ensures later.frames[Frame(id, body)] == Count(ViewOf(later, id), body)
    {
      assert s.frames[Frame(id, body)] == Count(ViewOf(s, id), body);
    }
    OneViewMoves(s, later, id);
  }

  lemma ReceiveKeepsInv(s: System, id: AskId)
    requires Inv(s) && Enabled(s, Receive(id))
    ensures Inv(Apply(s, Receive(id)))
  {
    var later := Apply(s, Receive(id));
    assert Fits(id, ViewOf(s, id));
    assert Bringer(later, id) == Bringer(s, id);
    forall body
      ensures later.frames[Frame(id, body)] == Count(ViewOf(later, id), body)
    {
      assert s.frames[Frame(id, body)] == Count(ViewOf(s, id), body);
    }
    OneViewMoves(s, later, id);
  }

  /** The timer or the shutdown wakes an asker. */
  lemma WakingKeepsInv(s: System, id: AskId, outcome: Outcome, responsive: bool)
    requires Inv(s) && IsParked(s, id) && !outcome.Answered?
    ensures Inv(s.(tee := s.tee.(responsive := responsive), askers := s.askers[id := Woken(outcome, false)]))
  {
    var later := s.(tee := s.tee.(responsive := responsive), askers := s.askers[id := Woken(outcome, false)]);
    assert Fits(id, ViewOf(s, id));
    assert Bringer(later, id) == Bringer(s, id);
    forall body
      ensures later.frames[Frame(id, body)] == Count(ViewOf(later, id), body)
    {
      assert s.frames[Frame(id, body)] == Count(ViewOf(s, id), body);
    }
    OneViewMoves(s, later, id);
  }

  lemma BroadcastCancelKeepsInv(s: System, id: AskId)
    requires Inv(s) && Enabled(s, BroadcastCancel(id))
    ensures Inv(Apply(s, BroadcastCancel(id)))
  {
    var later := Apply(s, BroadcastCancel(id));
    assert Fits(id, ViewOf(s, id));
    assert Bringer(later, id) == Bringer(s, id);
    forall body
      ensures later.frames[Frame(id, body)] == Count(ViewOf(later, id), body)
    {
      assert s.frames[Frame(id, body)] == Count(ViewOf(s, id), body);
    }
    OneViewMoves(s, later, id);
  }

  lemma CleanUpKeepsInv(s: System, id: AskId)
    requires Inv(s) && Enabled(s, CleanUp(id))
    ensures Inv(Apply(s, CleanUp(id)))
  {
    var later := Apply(s, CleanUp(id));
    assert Fits(id, ViewOf(s, id));
    assert Bringer(later, id) == Bringer(s, id);
    forall body
      ensures later.frames[Frame(id, body)] == Count(ViewOf(later, id), body)
    {
      assert s.frames[Frame(id, body)] == Count(ViewOf(s, id), body);
    }
    OneViewMoves(s, later, id);
  }

  lemma StepKeepsInv(s: System, step: Step)
    requires Inv(s) && Enabled(s, step)
    ensures Inv(Apply(s, step))
  {
    match step
    case Ask(kind, frame) => AskKeepsInv(s, kind, frame);
    case TakeAnswer(thread, id, answer) => TakeAnswerKeepsInv(s, thread, id, answer);
    case SendAnswer(thread) => SendAnswerKeepsInv(s, thread);
    case BroadcastAnswer(thread) => BroadcastAnswerKeepsInv(s, thread);
    case Receive(id) => ReceiveKeepsInv(s, id);
    case Expire(id) => WakingKeepsInv(s, id, TimedOut, false);
    case NoticeDone(id) => WakingKeepsInv(s, id, ShutDown, s.tee.responsive);
    case BroadcastCancel(id) => BroadcastCancelKeepsInv(s, id);
    case CleanUp(id) => CleanUpKeepsInv(s, id);
    case Attach(viewer) => SameAsksKeepInv(s, Attached(s.tee, viewer));
    case Detach(viewer) => SameAsksKeepInv(s, s.tee.(viewers := s.tee.viewers - {viewer}));
    case SignOfLife => SameAsksKeepInv(s, s.tee.(responsive := true));
    case CloseDone => SameAsksKeepInv(s, s.tee.(done := true));
    case MarkStopped => SameAsksKeepInv(s, s.tee.(stopped := true));
  }

  lemma {:induction false} EveryRunKeepsInv(s: System, steps: seq<Step>)
    requires Inv(s) && Runs(s, steps)
    ensures Inv(Exec(s, steps))
    decreases |steps|
  {
    if steps == [] {
    } else {
      StepKeepsInv(s, steps[0]);
      EveryRunKeepsInv(Apply(s, steps[0]), steps[1..]);
    }
  }

  lemma StartFits()
    ensures Inv(START)
  {
    forall id
      ensures Fits(id, ViewOf(START, id))
    {
    }
  }

  // ----- What follows, in every reachable state -----

  /** The two maps list the same asks whenever the mutex is free; a thread that
      has taken an answer can always send it at once; and an ask answered to its
      asker was answered with the one result the server accepted. */
  lemma AsksAreAnsweredOnce(steps: seq<Step>)
    requires Runs(START, steps)
    ensures var s := Exec(START, steps);
            && s.tee.perms.Keys == s.tee.pendingAsks.Keys
            && (forall t | t in s.answerers && s.answerers[t].Holding? :: Enabled(s, SendAnswer(t)))
            && (forall id | Got(ViewOf(s, id)) ::
                  id in s.accepted && s.askers[id].outcome.answer == s.accepted[id].answer)
  {
    StartFits();
    EveryRunKeepsInv(START, steps);
    var s := Exec(START, steps);
    forall id
      ensures id in s.tee.perms <==> id in s.tee.pendingAsks
      ensures Got(ViewOf(s, id)) ==> id in s.accepted && s.askers[id].outcome.answer == s.accepted[id].answer
    {
      assert Fits(id, ViewOf(s, id));
    }
    forall t | t in s.answerers && s.answerers[t].Holding?
      ensures Enabled(s, SendAnswer(t))
    {
      var id := s.answerers[t].ask;
      assert Fits(id, ViewOf(s, id)) && Bringer(s, id) == Some(s.answerers[t]);
    }
  }

  // ----- What each step does to the asks that are open -----

  /** An ask is offered, and its thread parks, exactly when a responsive viewer is
      attached to a server not stopped; it is then open, under a number of its own,
      with the frame it is shown as and an empty channel. */
  lemma AsksAreOfferedExactlyWhen(s: System, kind: Kind, frame: string)
    requires Inv(s)
    ensures var later, id := Apply(s, Ask(kind, frame)), AskId(kind, s.tee.permSeq + 1);
            && later.tee.permSeq == s.tee.permSeq + 1
            && if !s.tee.stopped && s.tee.viewers != {} && s.tee.responsive then
                 && later.askers == s.askers[id := Parked]
                 && later.tee.perms == s.tee.perms[id := Channel(id)]
                 && later.tee.pendingAsks == s.tee.pendingAsks[id := frame]
                 && later.tee.channels == s.tee.channels[Channel(id) := []]
               else later == s.(tee := s.tee.(permSeq := s.tee.permSeq + 1))
    ensures AskId(kind, s.tee.permSeq + 1) !in s.askers
  {
    var id := AskId(kind, s.tee.permSeq + 1);
    assert id !in s.askers;
    assert Fits(id, ViewOf(s, id));
    assert id !in s.tee.perms;
  }

  /** An open ask is closed exactly by a result for it or by its thread's cleanup, and
      until then it keeps the frame a viewer who comes late is shown. */
  lemma AsksCloseExactlyWhen(s: System, step: Step, id: AskId)
    requires Inv(s) && Enabled(s, step) && id in s.tee.pendingAsks
    ensures var later := Apply(s, step);
            && (id !in later.tee.pendingAsks <==>
                  (step.TakeAnswer? && step.id == id && step.answer.Some?) || (step.CleanUp? && step.id == id))
            && (id in later.tee.pendingAsks ==> later.tee.pendingAsks[id] == s.tee.pendingAsks[id])
  {
    assert Fits(id, ViewOf(s, id));
    StepCloses(s, step, id);
  }

  lemma StepCloses(s: System, step: Step, id: AskId)
    requires Enabled(s, step) && id in s.tee.pendingAsks && id in s.tee.perms && id.n <= s.tee.permSeq
    ensures var later := Apply(s, step);
            && (id !in later.tee.pendingAsks <==>
                  (step.TakeAnswer? && step.id == id && step.answer.Some?) || (step.CleanUp? && step.id == id))
            && (id in later.tee.pendingAsks ==> later.tee.pendingAsks[id] == s.tee.pendingAsks[id])
  {
    match step
    case Ask(kind, frame) => assert AskId(kind, s.tee.permSeq + 1) != id;
    case TakeAnswer(_, ask, answer) => assert Apply(s, step).tee == Claimed(s.tee, ask, answer);
    case CleanUp(ask) => assert Apply(s, step).tee == Cleaned(s.tee, ask);
    case _ => assert Apply(s, step).tee.pendingAsks == s.tee.pendingAsks;
  }

  /** Viewers count as gone after a timeout until there is a sign of one: a new viewer,
      an answer to any ask, even a late or refused one, or another sign of life. */
  lemma ResponsiveExactlyUntil(s: System, step: Step)
    requires Enabled(s, step)
    ensures Apply(s, step).tee.responsive <==>
            || (step.Attach? && !s.tee.stopped) || step.TakeAnswer? || step.SignOfLife?
            || (s.tee.responsive && !step.Expire?)
  {
  }

  /** An accepted result is never replaced; an outcome, once given, is final. */
  ghost predicate Stands(s: System, later: System, id: AskId) {
    && (id in s.accepted ==> id in later.accepted && later.accepted[id] == s.accepted[id])
    && (id in s.askers && !s.askers[id].Parked? ==>
          id in later.askers && !later.askers[id].Parked? && later.askers[id].outcome == s.askers[id].outcome)
  }

  lemma AskingStands(s: System, kind: Kind, frame: string, id: AskId)
    requires Inv(s)
    ensures Stands(s, Apply(s, Ask(kind, frame)), id)
  {
    assert id == AskId(kind, s.tee.permSeq + 1) ==> id !in s.askers;
  }

  lemma TakingStands(s: System, thread: nat, ask: AskId, answer: Option<Answer>, id: AskId)
    requires Inv(s) && Enabled(s, TakeAnswer(thread, ask, answer))
    ensures Stands(s, Apply(s, TakeAnswer(thread, ask, answer)), id)
  {
    assert Fits(ask, ViewOf(s, ask));
  }

  lemma OneStepStands(s: System, step: Step, id: AskId)
    requires Inv(s) && Enabled(s, step)
    ensures Stands(s, Apply(s, step), id)
  {
    match step
    case Ask(kind, frame) => AskingStands(s, kind, frame, id);
    case TakeAnswer(thread, ask, answer) => TakingStands(s, thread, ask, answer, id);
    case _ =>
  }

  lemma {:induction false} FirstAnswerAndOutcomeStand(s: System, steps: seq<Step>, id: AskId)
    requires Inv(s) && Runs(s, steps)
    ensures Stands(s, Exec(s, steps), id)
    decreases |steps|
  {
    if steps == [] {
    } else {
      StepKeepsInv(s, steps[0]);
      OneStepStands(s, steps[0], id);
      FirstAnswerAndOutcomeStand(Apply(s, steps[0]), steps[1..], id);
    }
  }

  /** Nothing of an ask is left waiting. */
  predicate Quiet(s: System, id: AskId) {
    id in s.askers && s.askers[id].Returned? && Bringer(s, id).None?
  }

  /** A finished ask is closed on every viewer: by a cancellation exactly when
      its asker gave up, by the accepted result exactly when there is one, each
      once, and by nothing else. So by one frame or, when an answer was accepted
      after the asker gave up, by two. */
  lemma ResolutionFrames(steps: seq<Step>, id: AskId)
    requires Runs(START, steps) && Quiet(Exec(START, steps), id)
    ensures var s := Exec(START, steps);
            && s.frames[Frame(id, None)] == (if s.askers[id].outcome.Answered? then 0 else 1)
            && (forall a :: s.frames[Frame(id, Some(a))] ==
                  if id in s.accepted && s.accepted[id].answer == a then 1 else 0)
            && (s.askers[id].outcome.Answered? ==> id in s.accepted)
  {
    StartFits();
    EveryRunKeepsInv(START, steps);
    var s := Exec(START, steps);
    assert Fits(id, ViewOf(s, id));
    assert s.frames[Frame(id, None)] == Count(ViewOf(s, id), None);
    forall a
      ensures s.frames[Frame(id, Some(a))] == if id in s.accepted && s.accepted[id].answer == a then 1 else 0
    {
      assert s.frames[Frame(id, Some(a))] == Count(ViewOf(s, id), Some(a));
    }
  }

  /** One step in front of a run. */
  lemma Prepend(s: System, step: Step, steps: seq<Step>)
    requires Enabled(s, step) && Runs(Apply(s, step), steps)
    ensures Runs(s, [step] + steps) && Exec(s, [step] + steps) == Exec(Apply(s, step), steps)
  {
    assert ([step] + steps)[1..] == steps;
  }

  const LATE := AskId(Elicitation, 1)

  /** A viewer attached and asked. */
  lemma Asking()
    ensures Enabled(START, Attach(0)) && Enabled(Apply(START, Attach(0)), Ask(Elicitation, "?"))
    ensures var s := Apply(Apply(START, Attach(0)), Ask(Elicitation, "?"));
            && LATE in s.tee.perms && s.tee.perms[LATE] == Channel(LATE) && IsParked(s, LATE)
            && Channel(LATE) in s.tee.channels && Queue(s, Channel(LATE)) == []
            && s.answerers == map[] && s.accepted == map[] && s.frames == multiset{}
  {
  }

  /** From there: the timer fires, an answer is accepted, both tell viewers. */
  lemma Racing(s: System, a: Answer) returns (steps: seq<Step>)
    requires LATE in s.tee.perms && s.tee.perms[LATE] == Channel(LATE) && IsParked(s, LATE)
    requires Channel(LATE) in s.tee.channels && Queue(s, Channel(LATE)) == []
    requires s.answerers == map[] && s.accepted == map[] && s.frames == multiset{}
    ensures Runs(s, steps)
    ensures var end := Exec(s, steps);
            && Quiet(end, LATE)
            && end.frames[Frame(LATE, None)] == 1 && end.frames[Frame(LATE, Some(a))] == 1
  {
    var s1 := Apply(s, Expire(LATE));
    var s2 := Apply(s1, TakeAnswer(7, LATE, Some(a)));
    assert s2.answerers == map[7 := Holding(LATE, Channel(LATE), a)];
    var s3 := Apply(s2, SendAnswer(7));
    steps := Telling(s3, a);
    Prepend(s2, SendAnswer(7), steps);
    steps := [SendAnswer(7)] + steps;
    Prepend(s1, TakeAnswer(7, LATE, Some(a)), steps);
    steps := [TakeAnswer(7, LATE, Some(a))] + steps;
    Prepend(s, Expire(LATE), steps);
    steps := [Expire(LATE)] + steps;
  }

  lemma Telling(s: System, a: Answer) returns (steps: seq<Step>)
    requires LATE in s.askers && s.askers[LATE] == Woken(TimedOut, false)
    requires s.answerers == map[7 := Sent(LATE, a)] && s.frames == multiset{}
    ensures Runs(s, steps)
    ensures var end := Exec(s, steps);
            && Quiet(end, LATE)
            && end.frames[Frame(LATE, None)] == 1 && end.frames[Frame(LATE, Some(a))] == 1
  {
    var s1 := Apply(s, BroadcastAnswer(7));
    var s2 := Apply(s1, BroadcastCancel(LATE));
    var s3 := Apply(s2, CleanUp(LATE));
    assert s3.answerers == map[];
    assert Runs(s3, []) && Exec(s3, []) == s3;
    Prepend(s2, CleanUp(LATE), []);
    steps := [CleanUp(LATE)] + [];
    Prepend(s1, BroadcastCancel(LATE), steps);
    steps := [BroadcastCancel(LATE)] + steps;
    Prepend(s, BroadcastAnswer(7), steps);
    steps := [BroadcastAnswer(7)] + steps;
  }

  /** The race behind a second frame does happen: the timer wins, and an answer
      is accepted before the asker cleans up. */
  lemma AnswerAfterTheTimer(a: Answer)
    ensures exists steps: seq<Step> ::
              && Runs(START, steps) && Quiet(Exec(START, steps), LATE)
              && Exec(START, steps).frames[Frame(LATE, None)] == 1
              && Exec(START, steps).frames[Frame(LATE, Some(a))] == 1
  {
    Asking();
    var s1 := Apply(START, Attach(0));
    var s2 := Apply(s1, Ask(Elicitation, "?"));
    var rest := Racing(s2, a);
    Prepend(s1, Ask(Elicitation, "?"), rest);
    Prepend(START, Attach(0), [Ask(Elicitation, "?")] + rest);
    assert Runs(START, [Attach(0)] + ([Ask(Elicitation, "?")] + rest));
  }

  lemma StoppedParksNobody(s: System, step: Step, id: AskId)
    requires Inv(s) && s.tee.stopped && Enabled(s, step) && IsParked(Apply(s, step), id)
    ensures IsParked(s, id)
  {
    if step.Ask? {
      var ask := AskId(step.kind, s.tee.permSeq + 1);
      assert Fits(ask, ViewOf(s, ask));
      assert ask !in s.tee.perms;
    }
  }

  /** Stop lets every parked asker go: it may leave at once, and nothing parks
      after the server is marked stopped. */
  lemma StopReleasesEveryAsk(s: System)
    requires Inv(s) && s.tee.done
    ensures forall id | IsParked(s, id) :: Enabled(s, NoticeDone(id))
    ensures s.tee.stopped ==>
              forall step, id | Enabled(s, step) && IsParked(Apply(s, step), id) :: IsParked(s, id)
  {
    if s.tee.stopped {
      forall step, id | Enabled(s, step) && IsParked(Apply(s, step), id)
        ensures IsParked(s, id)
      {
        StoppedParksNobody(s, step, id);
      }
    }
  }
}
