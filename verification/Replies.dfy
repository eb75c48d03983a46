/**
 Answering what the agent asks (harness/internal/acp/session.go,
 answerAgentRequest and answerElicitation; harness/internal/acp/wsclient.go,
 dispatchAgentRequest): each request on its own thread, each answered once.
 A reply is counted when it is attempted.
 */
module Replies {
  import opened Wrappers

  datatype Choice = Choice(optionId: string, kind: string)

  datatype Method = Permission | Elicitation | Unsupported

  /** options: None when the parameters do not parse. */
  datatype Request = Request(id: string, method_: Method, options: Option<seq<Choice>>)

  /** What becomes of forwarding an ask to viewers. */
  datatype Forward = NoForwarder | AnsweredBy(answer: string) | TimedOut | NoViewers | Panics

  datatype Body = Verbatim(answer: string) | Selected(optionId: string) | Declined | ActionCancel | MethodNotFound | InternalError

  /** What a request's thread does that others can see. */
  datatype Event = Latched | Replied(id: string, body: Body) | TurnCancelled

  // ----- What is answered -----

  /** The first one-shot rejection offered. */
  function FirstReject(options: seq<Choice>): Option<string> {
    if options == [] then None
    else if options[0].kind == "reject_once" then Some(options[0].optionId)
    else FirstReject(options[1..])
  }

  lemma {:induction false} FirstRejectIsFirst(options: seq<Choice>)
    ensures FirstReject(options).None? <==> forall o | o in options :: o.kind != "reject_once"
    ensures FirstReject(options).Some? ==>
              exists i :: && 0 <= i < |options| && options[i].kind == "reject_once"
                          && FirstReject(options) == Some(options[i].optionId)
                          && forall j | 0 <= j < i :: options[j].kind != "reject_once"
  {
    if options == [] {
    } else if options[0].kind == "reject_once" {
      assert options[0] in options;
    } else {
      FirstRejectIsFirst(options[1..]);
      if FirstReject(options).Some? {
        var i :| && 0 <= i < |options[1..]| && options[1..][i].kind == "reject_once"
                 && FirstReject(options[1..]) == Some(options[1..][i].optionId)
                 && forall j | 0 <= j < i :: options[1..][j].kind != "reject_once";
        assert options[i + 1].kind == "reject_once";
        assert forall j | 0 < j < i + 1 :: options[j] == options[1..][j - 1];
      }
    }
  }

  predicate Asks(r: Request) { r.method_.Elicitation? || (r.method_.Permission? && r.options.Some?) }

  /** handled: a handler for agent requests has been registered. */
  function Answer(r: Request, f: Forward, handled: bool): Body {
    if !handled then MethodNotFound
    else if Asks(r) && f.Panics? then InternalError
    else if Asks(r) && f.AnsweredBy? then Verbatim(f.answer)
    else
      match r.method_
      case Elicitation => ActionCancel
      case Unsupported => MethodNotFound
      case Permission =>
        if r.options.None? || FirstReject(r.options.value).None? then Declined
        else Selected(FirstReject(r.options.value).value)
  }

  /** A question that nobody answered and that is cancelled for it. */
  predicate Unanswered(r: Request, f: Forward, handled: bool) {
    handled && r.method_.Elicitation? && !f.AnsweredBy? && !f.Panics?
  }

  /** All that the thread of a request does, in order. */
  function Script(r: Request, f: Forward, handled: bool, inSession: bool): seq<Event> {
    if Unanswered(r, f, handled) then
      [Latched, Replied(r.id, ActionCancel)] + if inSession then [TurnCancelled] else []
    else [Replied(r.id, Answer(r, f, handled))]
  }

  class Session {
    /** Whether a handler for agent requests has been registered. */
    var handled: bool
    var hitlUnanswered: bool
    var sessionID: string
    /** What has been done, by this thread alone. */
    var log: seq<Event>

    constructor (sessionID: string)
      ensures !handled && !hitlUnanswered && log == [] && this.sessionID == sessionID
    {
      handled, hitlUnanswered, this.sessionID, log := false, false, sessionID, [];
    }

    method SetAgentRequestHandler()
      modifies this`handled
      ensures handled
    {
      handled := true;
    }

    method SendResponse(id: string, body: Body)
      modifies this`log
      ensures log == old(log) + [Replied(id, body)]
    {
      log := log + [Replied(id, body)];
    }

    method CancelTurn()
      modifies this`log
      ensures log == old(log) + if sessionID != "" then [TurnCancelled] else []
    {
      if sessionID == "" {
        assert log + [] == log;
        return;
      }
      log := log + [TurnCancelled];
    }

    /** dispatchAgentRequest: without a handler, a refusal; with one, its goroutine
        and the recovery from its panics. */
    method Dispatch(r: Request, f: Forward)
      modifies this`log, this`hitlUnanswered
      ensures log == old(log) + Script(r, f, handled, sessionID != "")
      ensures hitlUnanswered <==> old(hitlUnanswered) || Unanswered(r, f, handled)
    {
      if !handled {
        SendResponse(r.id, MethodNotFound);
        return;
      }
      var panicked := AnswerAgentRequest(r, f);
      if panicked {
        SendResponse(r.id, InternalError);
      }
    }

    method AnswerAgentRequest(r: Request, f: Forward) returns (panicked: bool)
      modifies this`log, this`hitlUnanswered
      ensures panicked <==> Asks(r) && f.Panics?
      ensures log == old(log) + if panicked then [] else Script(r, f, true, sessionID != "")
      ensures hitlUnanswered <==> old(hitlUnanswered) || Unanswered(r, f, true)
    {
      panicked := false;
      if r.method_.Elicitation? {
        panicked := AnswerElicitation(r, f);
        return;
      }
      if !r.method_.Permission? {
        SendResponse(r.id, MethodNotFound);
        return;
      }
      if r.options.None? {
        SendResponse(r.id, Declined);
        return;
      }
      if !f.NoForwarder? {
        match f {
          case Panics =>
            assert log + [] == log;
            return true;
          case AnsweredBy(answer) =>
            SendResponse(r.id, Verbatim(answer));
            return;
          case _ =>
        }
      }
      var outcome := PickOutcome(r.options.value);
      SendResponse(r.id, outcome);
    }

    method PickOutcome(options: seq<Choice>) returns (outcome: Body)
      ensures outcome == if FirstReject(options).None? then Declined else Selected(FirstReject(options).value)
    {
      outcome := Declined;
      var i := 0;
      while i < |options|
        invariant i <= |options| && outcome == Declined
        invariant FirstReject(options) == FirstReject(options[i..])
      {
        if options[i].kind == "reject_once" {
          outcome := Selected(options[i].optionId);
          break;
        }
        i := i + 1;
      }
    }

    method AnswerElicitation(r: Request, f: Forward) returns (panicked: bool)
      requires r.method_.Elicitation?
      modifies this`log, this`hitlUnanswered
      ensures panicked <==> f.Panics?
      ensures log == old(log) + if panicked then [] else Script(r, f, true, sessionID != "")
      ensures hitlUnanswered <==> old(hitlUnanswered) || Unanswered(r, f, true)
    {
      panicked := false;
      if !f.NoForwarder? {
        match f {
          case Panics =>
            assert log + [] == log;
            return true;
          case AnsweredBy(answer) =>
            SendResponse(r.id, Verbatim(answer));
            return;
          case _ =>
        }
      }
      hitlUnanswered, log := true, log + [Latched];
      SendResponse(r.id, ActionCancel);
      CancelTurn();
      assert log == old(log) + ([Latched, Replied(r.id, ActionCancel)] + if sessionID != "" then [TurnCancelled] else []);
    }
  }

  // ----- Many threads, one log -----

  datatype Thread = Thread(request: Request, forward: Forward, handled: bool, todo: seq<Event>) {
    function Whole(inSession: bool): seq<Event> { Script(request, forward, handled, inSession) }

    function Own(): Body { Answer(request, forward, handled) }

    predicate Gate() { Unanswered(request, forward, handled) }
  }

  datatype Entry = Entry(thread: nat, event: Event)

  datatype System = System(inSession: bool, threads: map<nat, Thread>, log: seq<Entry>)

  /** A request arrives on a new thread, or some thread does its next thing. */
  datatype Step = Arrive(thread: nat, request: Request, forward: Forward, handled: bool) | Act(thread: nat)

  predicate Enabled(s: System, step: Step) {
    match step
    case Arrive(t, _, _, _) => t !in s.threads
    case Act(t) => t in s.threads && s.threads[t].todo != []
  }

  function Apply(s: System, step: Step): System
    requires Enabled(s, step)
  {
    match step
    case Arrive(t, r, f, handled) =>
      s.(threads := s.threads[t := Thread(r, f, handled, Script(r, f, handled, s.inSession))])
    case Act(t) =>
      var thread := s.threads[t];
      s.(threads := s.threads[t := thread.(todo := thread.todo[1..])], log := s.log + [Entry(t, thread.todo[0])])
  }

  ghost predicate Runs(s: System, steps: seq<Step>)
    decreases |steps|
  {
    steps == [] || (Enabled(s, steps[0]) && Runs(Apply(s, steps[0]), steps[1..]))
  }

  function Exec(s: System, steps: seq<Step>): System
    requires Runs(s, steps)
    decreases |steps|
  {
    if steps == [] then s else Exec(Apply(s, steps[0]), steps[1..])
  }

  /** What one thread did. */
  function By(log: seq<Entry>, t: nat): seq<Event> {
    if log == [] then []
    else By(log[..|log| - 1], t) + if log[|log| - 1].thread == t then [log[|log| - 1].event] else []
  }

  ghost predicate Inv(s: System) {
    && (forall t | t in s.threads ::
          By(s.log, t) + s.threads[t].todo == s.threads[t].Whole(s.inSession))
    && (forall t | t !in s.threads :: By(s.log, t) == [])
  }

  lemma ArriveKeepsInv(s: System, t: nat, r: Request, f: Forward, handled: bool)
    requires Inv(s) && t !in s.threads
    ensures Inv(Apply(s, Arrive(t, r, f, handled)))
  {
    var whole := Script(r, f, handled, s.inSession);
    assert [] + whole == whole;
  }

  lemma ActKeepsInv(s: System, t: nat)
    requires Inv(s) && Enabled(s, Act(t))
    ensures Inv(Apply(s, Act(t)))
  {
    var later := Apply(s, Act(t));
    var next := s.threads[t].todo;
    assert later.log[..|later.log| - 1] == s.log;
    Regroup(By(s.log, t), [next[0]], next[1..]);
    assert [next[0]] + next[1..] == next;
    forall other | other != t
      ensures By(later.log, other) == By(s.log, other)
    {
      assert By(s.log, other) + [] == By(s.log, other);
    }
  }

  lemma StepKeepsInv(s: System, step: Step)
    requires Inv(s) && Enabled(s, step)
    ensures Inv(Apply(s, step))
  {
    match step
    case Arrive(t, r, f, handled) => ArriveKeepsInv(s, t, r, f, handled);
    case Act(t) => ActKeepsInv(s, t);
  }

  lemma {:induction false} EveryRunKeepsInv(s: System, steps: seq<Step>)
    requires Inv(s) && Runs(s, steps)
    ensures Inv(Exec(s, steps))
    decreases |steps|
  {
    if steps == [] {
    } else {
      StepKeepsInv(s, steps[0]);
      EveryRunKeepsInv(Apply(s, steps[0]), steps[1..]);
    }
  }

  function ReplyCount(events: seq<Event>): nat {
    if events == [] then 0 else ReplyCount(events[..|events| - 1]) + if events[|events| - 1].Replied? then 1 else 0
  }

  lemma OneReplyInScript(th: Thread, inSession: bool, done: seq<Event>)
    requires done <= th.Whole(inSession)
    ensures ReplyCount(done) <= 1
    ensures done == th.Whole(inSession) ==> ReplyCount(done) == 1
    ensures forall i | 0 <= i < |done| && done[i].Replied? :: done[i] == Replied(th.request.id, th.Own())
    ensures forall i | 0 <= i < |done| && done[i].Replied? && th.Gate() :: i == 1 && done[0] == Latched
    ensures TurnCancelled in done ==> ReplyCount(done) == 1 && th.Gate()
    ensures Latched in done ==> th.Gate()
  {
    var script := th.Whole(inSession);
    assert done == script[..|done|];
    if |done| >= 1 {
      assert done[..1][..0] == [] && done[..1] == [script[0]];
      assert ReplyCount(done[..1]) == if script[0].Replied? then 1 else 0;
    }
    if |done| >= 2 {
      assert done[..2][..1] == done[..1] && done[..2][1] == script[1];
      assert ReplyCount(done[..2]) == ReplyCount(done[..1]) + 1;
    }
    if |done| == 3 {
      assert done[..3] == done && done[..3][..2] == done[..2];
    }
    assert done[..|done|] == done;
  }

  /** Under every interleaving each request is answered at most once, and once
      when its thread is through; never by another thread and never otherwise
      than with its own answer. */
  lemma EveryRequestIsAnsweredOnce(inSession: bool, steps: seq<Step>, t: nat)
    requires Runs(System(inSession, map[], []), steps)
    ensures var s := Exec(System(inSession, map[], []), steps);
            var done := By(s.log, t);
            && (t !in s.threads ==> done == [])
            && (t in s.threads ==>
                  && ReplyCount(done) <= 1
                  && (s.threads[t].todo == [] ==> ReplyCount(done) == 1)
                  && forall i | 0 <= i < |done| && done[i].Replied? ::
                       done[i] == Replied(s.threads[t].request.id, s.threads[t].Own()))
  {
    var start := System(inSession, map[], []);
    var s := Exec(start, steps);
    EveryRunKeepsInv(start, steps);
    if t in s.threads {
      OneReplyInScript(s.threads[t], s.inSession, By(s.log, t));
      SameSession(start, steps);
      assert s.threads[t].todo == [] ==> By(s.log, t) + [] == By(s.log, t);
    }
  }

  lemma {:induction false} SameSession(s: System, steps: seq<Step>)
    requires Runs(s, steps)
    ensures Exec(s, steps).inSession == s.inSession
    decreases |steps|
  {
    if steps == [] {
    } else {
      SameSession(Apply(s, steps[0]), steps[1..]);
    }
  }

  /** Option i is the first one-shot rejection offered. */
  predicate RejectsFirst(options: seq<Choice>, i: nat) {
    i < |options| && options[i].kind == "reject_once" && forall j | 0 <= j < i :: options[j].kind != "reject_once"
  }

  /** A permission is granted or denied by a viewer's own words; otherwise the
      reply is the first one-shot rejection offered, or, if none is, the cancelled
      outcome. */
  lemma OnlyViewersGrant(r: Request, f: Forward)
    requires r.method_.Permission? && !(r.options.Some? && f.Panics?)
    ensures Answer(r, f, true).Verbatim? <==> r.options.Some? && f.AnsweredBy?
    ensures Answer(r, f, true).Verbatim? ==> Answer(r, f, true).answer == f.answer
    ensures Answer(r, f, true).Selected? <==>
            r.options.Some? && !f.AnsweredBy? && exists i: nat :: RejectsFirst(r.options.value, i)
    ensures Answer(r, f, true).Selected? ==>
              exists i: nat :: RejectsFirst(r.options.value, i) && Answer(r, f, true).optionId == r.options.value[i].optionId
    ensures Answer(r, f, true).Verbatim? || Answer(r, f, true).Selected? || Answer(r, f, true).Declined?
  {
    if r.options.Some? {
      FirstRejectIsFirst(r.options.value);
      if FirstReject(r.options.value).Some? {
        var i :| && 0 <= i < |r.options.value| && r.options.value[i].kind == "reject_once"
                 && FirstReject(r.options.value) == Some(r.options.value[i].optionId)
                 && forall j | 0 <= j < i :: r.options.value[j].kind != "reject_once";
        assert RejectsFirst(r.options.value, i);
      }
    }
  }

  /** Every other request: a question is answered by a viewer's own words or, failing
      those, cancelled; what is not supported, or comes where nothing handles it, is
      refused; and a panic on the way to viewers is an internal error. */
  lemma OthersAreAnswered(r: Request, f: Forward, handled: bool)
    ensures !handled ==> Answer(r, f, handled) == MethodNotFound
    ensures handled && r.method_.Unsupported? ==> Answer(r, f, handled) == MethodNotFound
    ensures handled && r.method_.Elicitation? ==>
              Answer(r, f, handled) ==
              if f.Panics? then InternalError else if f.AnsweredBy? then Verbatim(f.answer) else ActionCancel
    ensures handled && r.method_.Permission? ==>
              (Answer(r, f, handled) == InternalError <==> r.options.Some? && f.Panics?)
  {
  }

  /** A thread that is through has done one thing, its reply, except that the thread
      of a question no viewer answered has latched it before and, in a session,
      cancelled the turn after. */
  lemma ThroughIsDone(inSession: bool, steps: seq<Step>, t: nat)
    requires Runs(System(inSession, map[], []), steps)
    requires var s := Exec(System(inSession, map[], []), steps); t in s.threads && s.threads[t].todo == []
    ensures var s := Exec(System(inSession, map[], []), steps);
            var th := s.threads[t];
            var unanswered := th.handled && th.request.method_.Elicitation? && !th.forward.AnsweredBy? && !th.forward.Panics?;
            && (!unanswered ==> By(s.log, t) == [Replied(th.request.id, th.Own())])
            && (unanswered && inSession ==> By(s.log, t) == [Latched, Replied(th.request.id, ActionCancel), TurnCancelled])
            && (unanswered && !inSession ==> By(s.log, t) == [Latched, Replied(th.request.id, ActionCancel)])
  {
    var start := System(inSession, map[], []);
    var s := Exec(start, steps);
    EveryRunKeepsInv(start, steps);
    SameSession(start, steps);
    assert By(s.log, t) + [] == By(s.log, t);
    assert [Latched, Replied(s.threads[t].request.id, ActionCancel)] + [] == [Latched, Replied(s.threads[t].request.id, ActionCancel)];
  }

  /** Where an entry of a thread stands among all. */
  lemma {:induction false} PlaceInLog(log: seq<Entry>, t: nat, i: nat)
    requires i < |log| && log[i].thread == t
    ensures |By(log[..i], t)| < |By(log, t)| && By(log, t)[|By(log[..i], t)|] == log[i].event
    ensures By(log[..i], t) <= By(log, t)
  {
    var init := log[..|log| - 1];
    if i < |init| {
      PlaceInLog(init, t, i);
      assert init[..i] == log[..i];
    } else {
      assert log[..i] == init;
    }
  }

  lemma {:induction false} ByIsFromLog(log: seq<Entry>, t: nat, e: Event)
    requires e in By(log, t)
    ensures Entry(t, e) in log
  {
    var init, last := log[..|log| - 1], log[|log| - 1];
    if e in By(init, t) {
      ByIsFromLog(init, t, e);
    } else {
      assert last == Entry(t, e);
    }
  }

  /** Under every interleaving, when a question that nobody answered is cancelled
      the failure has been latched before, and the turn is cancelled only after. */
  lemma LatchedBeforeItIsCancelled(inSession: bool, steps: seq<Step>, i: nat)
    requires Runs(System(inSession, map[], []), steps)
    requires i < |Exec(System(inSession, map[], []), steps).log|
    ensures var s := Exec(System(inSession, map[], []), steps);
            var e := s.log[i];
            && e.thread in s.threads
            && (e.event.Replied? && s.threads[e.thread].Gate() ==>
                  Entry(e.thread, Latched) in s.log[..i])
            && (e.event.TurnCancelled? ==>
                  Entry(e.thread, Replied(s.threads[e.thread].request.id, ActionCancel)) in s.log[..i])
  {
    var start := System(inSession, map[], []);
    var s := Exec(start, steps);
    EveryRunKeepsInv(start, steps);
    var e := s.log[i];
    var before, all := By(s.log[..i], e.thread), By(s.log, e.thread);
    PlaceInLog(s.log, e.thread, i);
    var th := s.threads[e.thread];
    var script := th.Whole(s.inSession);
    assert all <= script && script[|before|] == e.event;
    if e.event.Replied? && th.Gate() {
      assert |before| == 1 && before[0] == Latched;
      ByIsFromLog(s.log[..i], e.thread, Latched);
    }
    if e.event.TurnCancelled? {
      assert |before| == 2 && before[1] == Replied(th.request.id, ActionCancel);
      ByIsFromLog(s.log[..i], e.thread, Replied(th.request.id, ActionCancel));
    }
  }

  /** A question no viewer answered goes unlatched exactly when there is no handler
      for it, which refuses it, or forwarding it panicked, which answers it with an
      error. */
  lemma UnlatchedExactlyWhen(r: Request, f: Forward, handled: bool, inSession: bool)
    requires r.method_.Elicitation? && (!handled || !f.AnsweredBy?)
    ensures Latched !in Script(r, f, handled, inSession) <==> !handled || f.Panics?
    ensures Latched !in Script(r, f, handled, inSession) ==>
              Script(r, f, handled, inSession) == [Replied(r.id, if handled then InternalError else MethodNotFound)]
  {
    if handled && !f.Panics? {
      assert Script(r, f, handled, inSession)[0] == Latched;
    }
  }
}
