/**
 An ask_user question that nobody answers (harness/internal/acp/session.go,
 answerElicitation) and the stage it is asked in (harness/cmd/migration-harness/main.go,
 runStage): the latch, the cancel, and what the stage makes of them.
 */
module HumanGate {
  import opened Wrappers
  import Replies
  import Stage
  import Verification

  /** What the stage reads once its prompt has returned. */
  predicate Latched(s: Replies.System) {
    exists i :: 0 <= i < |s.log| && s.log[i].event == Replies.Latched
  }

  predicate Cancelled(s: Replies.System) {
    exists i :: 0 <= i < |s.log| && s.log[i].event == Replies.TurnCancelled
  }

  /** The turn ends at one point of the run and the stage reads its flag at a later
      one. The flag is the latch as it then stands, and the agent honours a cancel
      that was sent before its turn ended: the turn reports it, or an error. */
  ghost predicate Reports(atEnd: Replies.System, atRead: Replies.System, w: Stage.World) {
    && w.Valid()
    && (w.hitlUnanswered <==> Latched(atRead))
    && (Cancelled(atEnd) && w.err.NoError? ==> w.result.value.stopReason == Stage.CANCELLED)
  }

  /** A thread that has latched its question by the time the flag is read, and had
      not cancelled the turn when that ended. */
  predicate InTheGap(atEnd: Replies.System, atRead: Replies.System, t: nat) {
    && t in atRead.threads && atRead.threads[t].Gate()
    && Replies.Latched in Replies.By(atRead.log, t) && Replies.TurnCancelled !in Replies.By(atEnd.log, t)
  }

  const START := Replies.System(true, map[], [])

  lemma LatchedByItsThread(s: Replies.System, i: nat) returns (t: nat)
    requires Replies.Inv(s) && s.inSession && i < |s.log| && s.log[i].event == Replies.Latched
    ensures t in s.threads && s.threads[t].Gate() && Replies.Latched in Replies.By(s.log, t)
  {
    t := s.log[i].thread;
    Replies.PlaceInLog(s.log, t, i);
    var done := Replies.By(s.log, t);
    assert done[|Replies.By(s.log[..i], t)|] == Replies.Latched;
    assert done <= s.threads[t].Whole(true);
    Replies.OneReplyInScript(s.threads[t], true, done);
  }

  lemma CancelIsSent(s: Replies.System, t: nat)
    requires Replies.TurnCancelled in Replies.By(s.log, t)
    ensures Cancelled(s)
  {
    Replies.ByIsFromLog(s.log, t, Replies.TurnCancelled);
    var j :| 0 <= j < |s.log| && s.log[j] == Replies.Entry(t, Replies.TurnCancelled);
    assert s.log[j].event == Replies.TurnCancelled;
  }

  /** Under every interleaving of the agent's requests, before the turn ends and
      after, a stage that exits 0 over an unanswered question does so in the gap:
      no cancel had been sent when its turn ended, and the question was latched
      before or after that but before the flag was read. */
  lemma SlipsThroughOnlyInTheGap(before: seq<Replies.Step>, after: seq<Replies.Step>, w: Stage.World)
    requires Replies.Runs(START, before) && Replies.Runs(Replies.Exec(START, before), after)
    requires var atEnd := Replies.Exec(START, before); Reports(atEnd, Replies.Exec(atEnd, after), w)
    requires w.hitlUnanswered && Stage.StageSucceeds(w)
    ensures var atEnd := Replies.Exec(START, before);
            !Cancelled(atEnd) && exists t :: InTheGap(atEnd, Replies.Exec(atEnd, after), t)
  {
    var atEnd := Replies.Exec(START, before);
    var atRead := Replies.Exec(atEnd, after);
    Replies.EveryRunKeepsInv(START, before);
    Replies.EveryRunKeepsInv(atEnd, after);
    Replies.SameSession(START, before);
    Replies.SameSession(atEnd, after);
    Stage.UnansweredQuestionSucceedsExactlyWhen(w);
    var i :| 0 <= i < |atRead.log| && atRead.log[i].event == Replies.Latched;
    var t := LatchedByItsThread(atRead, i);
    if Replies.TurnCancelled in Replies.By(atEnd.log, t) {
      CancelIsSent(atEnd, t);
    }
    assert InTheGap(atEnd, atRead, t);
  }

  /** So where every question latched by the time of the reading had its cancel sent
      before the turn ended, an unanswered question fails the stage. */
  lemma FailsOnceTheCancelIsSent(before: seq<Replies.Step>, after: seq<Replies.Step>, w: Stage.World)
    requires Replies.Runs(START, before) && Replies.Runs(Replies.Exec(START, before), after)
    requires var atEnd := Replies.Exec(START, before); Reports(atEnd, Replies.Exec(atEnd, after), w)
    requires var atEnd := Replies.Exec(START, before); !exists t :: InTheGap(atEnd, Replies.Exec(atEnd, after), t)
    requires w.hitlUnanswered
    ensures !Stage.StageSucceeds(w)
  {
    if Stage.StageSucceeds(w) {
      SlipsThroughOnlyInTheGap(before, after, w);
    }
  }

  const ASKED := Replies.Request("1", Replies.Elicitation, None)

  const ARRIVE := Replies.Arrive(0, ASKED, Replies.NoViewers, true)

  /** A question arrives, finds no viewer, and is latched, all before the turn ends
      or the latch after it. */
  lemma LatchingRun(late: bool) returns (before: seq<Replies.Step>, after: seq<Replies.Step>)
    ensures Replies.Runs(START, before) && Replies.Runs(Replies.Exec(START, before), after)
    ensures Replies.Exec(Replies.Exec(START, before), after).log == [Replies.Entry(0, Replies.Latched)]
    ensures Replies.Exec(START, before).log == if late then [] else [Replies.Entry(0, Replies.Latched)]
  {
    var act := Replies.Act(0);
    var s1 := Replies.Apply(START, ARRIVE);
    var s2 := Replies.Apply(s1, act);
    assert s2.log == [Replies.Entry(0, Replies.Latched)];
    assert Replies.Runs(s2, []) && Replies.Exec(s2, []) == s2;
    assert Replies.Runs(s1, []) && Replies.Exec(s1, []) == s1;
    assert [act][1..] == [] && [ARRIVE][1..] == [] && [ARRIVE, act][1..] == [act];
    assert Replies.Runs(s1, [act]) && Replies.Exec(s1, [act]) == s2;
    before, after := if late then [ARRIVE] else [ARRIVE, act], if late then [act] else [];
  }

  const QUIET_END := Stage.World(
    true, true, None, "", "", Some(Stage.PromptResult("end_turn", false, 3)), Stage.NoError, 0,
    false, true, true, None, false, false, Verification.Record(Verification.NotRun, "", "", []), 0, "", None)

  lemma QuietEndSucceeds()
    ensures QUIET_END.Valid() && Stage.StageSucceeds(QUIET_END)
  {
    assert "end_turn"[0] == 'e' && Stage.CANCELLED[0] == 'c' && Stage.MAX_TURN_REQUESTS[0] == 'm';
    assert Stage.TurnSucceeded(QUIET_END);
  }

  /** And the gap is real, on either side of the turn's end: a question is latched,
      the turn ends by itself before the cancel is sent, and the stage succeeds. */
  lemma TheGapIsReal(late: bool)
    ensures exists before: seq<Replies.Step>, after: seq<Replies.Step>, w: Stage.World ::
              && Replies.Runs(START, before) && Replies.Runs(Replies.Exec(START, before), after)
              && var atEnd := Replies.Exec(START, before);
                 && Reports(atEnd, Replies.Exec(atEnd, after), w)
                 && (Latched(atEnd) <==> !late) && w.hitlUnanswered && Stage.StageSucceeds(w)
  {
    var before, after := LatchingRun(late);
    QuietEndSucceeds();
    var atEnd := Replies.Exec(START, before);
    var atRead := Replies.Exec(atEnd, after);
    assert atRead.log[0].event == Replies.Latched;
    if !late {
      assert atEnd.log[0].event == Replies.Latched;
    }
    assert Reports(atEnd, atRead, QUIET_END);
  }
}
