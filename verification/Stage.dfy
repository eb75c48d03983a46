/**
 How a stage ends (harness/cmd/migration-harness/main.go, runStage, and
 outcome.go, classifyOutcome): the outcome, the exit code, the termination
 blob and whether the Hub token is revoked on the way out.
 */
module Stage {
  import opened Wrappers
  import opened Text
  import Handoff
  import Verification
  import Termination

  // ----- Where this stage sits in its workflow -----

  /** (stage, count), or None when the metadata describes no position. */
  function Position(stageEnv: string, countEnv: string): Option<(nat, nat)> {
    var stage, count := ParseUint(stageEnv), ParseUint(countEnv);
    if stage.None? || stage.value == 0 || count.None? || count.value == 0 || stage.value > count.value then None
    else Some((stage.value, count.value))
  }

  predicate Intermediate(stageEnv: string, countEnv: string) {
    var position := Position(stageEnv, countEnv);
    position.Some? && position.value.0 < position.value.1
  }

  /** The numerals the controller stamps on a stage are read back as the stage's
      own position. */
  lemma StampedPositionReadsBack(stage: nat, count: nat)
    requires 1 <= stage <= count < UINT64_LIMIT
    ensures Position(Decimal(stage), Decimal(count)) == Some((stage, count))
    ensures Intermediate(Decimal(stage), Decimal(count)) <==> stage < count
  {
    DecimalReadsBack(stage);
    DecimalReadsBack(count);
  }

  /** A stage is intermediate exactly when both numerals are read, count from 1, and
      the stage comes before the last; a standalone run is not. */
  lemma IntermediateExactlyWhen(stageEnv: string, countEnv: string)
    ensures Intermediate(stageEnv, countEnv) <==>
            && ParseUint(stageEnv).Some? && ParseUint(countEnv).Some?
            && 1 <= ParseUint(stageEnv).value < ParseUint(countEnv).value
  {
  }

  // ----- What the primary prompt earned -----

  datatype Outcome = Succeeded | Failed | LimitReached | Refused {
    function Name(): string {
      match this
      case Succeeded => "succeeded"
      case Failed => "failed"
      case LimitReached => "limitReached"
      case Refused => "refused"
    }

    function ExitCode(): nat {
      match this
      case Succeeded => 0
      case Failed => 1
      case LimitReached => 2
      case Refused => 3
    }
  }

  datatype PromptError = NoError | ConnectionLost | OtherError(text: string)

  datatype PromptResult = PromptResult(stopReason: string, costLimitReached: bool, turnsUsed: nat)

  const CANCELLED := "cancelled"
  const MAX_TURN_REQUESTS := "max_turn_requests"

  predicate TurnCeilingHit(turnsUsed: nat, nativeMaxTurns: nat) { nativeMaxTurns > 0 && turnsUsed >= nativeMaxTurns }

  function ClassifyOutcome(result: Option<PromptResult>, err: PromptError, nativeMaxTurns: nat, providerError: bool)
    : (Outcome, string)
    requires err.NoError? ==> result.Some?
  {
    if !err.NoError? then
      if err.ConnectionLost? && result.Some? && TurnCeilingHit(result.value.turnsUsed, nativeMaxTurns)
      then (LimitReached, "maxTurns") else (Failed, "")
    else
      var r := result.value;
      if r.stopReason == CANCELLED && r.costLimitReached then (LimitReached, "maxCost")
      else if r.stopReason == CANCELLED then (Failed, "")
      else if providerError && r.turnsUsed == 0 then (Failed, "")
      else if r.stopReason == MAX_TURN_REQUESTS then (LimitReached, "maxTurns")
      else if TurnCeilingHit(r.turnsUsed, nativeMaxTurns) then (LimitReached, "maxTurns")
      else if r.costLimitReached then (Succeeded, "maxCost")
      else (Succeeded, "")
  }

  // ----- The whole stage -----

  datatype World = World(
    configLoaded: bool,
    tokenId: bool,
    setupError: Option<string>,
    stageEnv: string,
    countEnv: string,
    result: Option<PromptResult>,
    err: PromptError,
    nativeMaxTurns: nat,
    providerError: bool,
    hitlUnanswered: bool,
    gooseAlive: bool,
    handoff: Option<Handoff.Verdict>,
    verify: bool,
    verifyEnforce: bool,
    measured: Verification.Record,
    usageSize: nat,
    mavenProxyWarning: string,
    pushError: Option<string>)
  {
    /** A prompt that came back without an error came back with a result, and a
        verification record is one the pass produces. */
    ghost predicate Valid() {
      && (err.NoError? ==> result.Some?)
      && |measured.reason| <= Verification.REASON_LEN
      && |measured.commit| <= 64
    }

    predicate RefusedByHandoff() { handoff.Some? && handoff.value.status == "failed" }

    /** The measurement decides this stage: enforcement waits for the last one. */
    predicate FailedByMeasurement() {
      verify && verifyEnforce && measured.Unmet() && !Intermediate(stageEnv, countEnv)
    }
  }

  /** Why a stage returned an error, by the one reason it gives. */
  datatype Cause =
    | ConfigNotLoaded | SetupFailed | PushFailed
    | QuestionUnanswered | ProviderRejected | VerificationUnmet | PromptFailed | NoReason

  datatype Ending = Ending(exitCode: nat, blob: Termination.Blob, revoked: bool, cause: Option<Cause>)

  /** The turns used reached a ceiling that was set. */
  ghost predicate UsedUpItsTurns(w: World) {
    w.result.Some? && w.nativeMaxTurns > 0 && w.result.value.turnsUsed >= w.nativeMaxTurns
  }

  /** The provider refused the first and only call. */
  ghost predicate NeverWorked(w: World) { w.result.Some? && w.providerError && w.result.value.turnsUsed == 0 }

  /** The turn came back, neither cancelled nor refused by the provider. */
  ghost predicate TurnEnded(w: World) {
    w.err.NoError? && w.result.Some? && w.result.value.stopReason != "cancelled" && !NeverWorked(w)
  }

  /** The turn earned success on its own account. */
  ghost predicate TurnSucceeded(w: World) {
    TurnEnded(w) && w.result.value.stopReason != "max_turn_requests" && !UsedUpItsTurns(w)
  }

  /** The turn stopped on the number of turns: the connection was lost at the ceiling,
      or it ended at it, or for it. */
  ghost predicate StoppedByTurns(w: World) {
    || (w.err.ConnectionLost? && UsedUpItsTurns(w))
    || (TurnEnded(w) && (w.result.value.stopReason == "max_turn_requests" || UsedUpItsTurns(w)))
  }

  /** The turn was cancelled for its cost. */
  ghost predicate StoppedByCost(w: World) {
    w.err.NoError? && w.result.Some? && w.result.value.stopReason == "cancelled" && w.result.value.costLimitReached
  }

  /** The turn stopped on a budget. */
  ghost predicate TurnHitLimit(w: World) { StoppedByTurns(w) || StoppedByCost(w) }

  /** The turn succeeded, over its cost. */
  ghost predicate SucceededOverCost(w: World) { TurnSucceeded(w) && w.result.value.costLimitReached }

  /** The measurement turned a turn's success into a failure. */
  ghost predicate EnforcedUnmet(w: World) { WasMeasured(w) && w.FailedByMeasurement() }

  /** Nothing outside the turn went wrong. */
  ghost predicate MachineryHeld(w: World) {
    w.configLoaded && w.setupError.None? && w.gooseAlive && w.pushError.None?
  }

  ghost predicate StageSucceeds(w: World) {
    MachineryHeld(w) && TurnSucceeded(w) && !w.RefusedByHandoff() && !w.FailedByMeasurement()
  }

  /** The stage got as far as describing its outcome. */
  predicate Recorded(w: World) { w.configLoaded && w.setupError.None? }

  /** The verification ran: it was on, and the turn and the handoff claim success. */
  ghost predicate WasMeasured(w: World) {
    w.verify && w.gooseAlive && TurnSucceeded(w) && !w.RefusedByHandoff()
  }

  /** The classification, said without its order of tests. */
  lemma ClassifiedByTheTurn(w: World)
    requires w.Valid()
    ensures var c := ClassifyOutcome(w.result, w.err, w.nativeMaxTurns, w.result.Some? && w.providerError);
            && (c.0 == Succeeded <==> TurnSucceeded(w))
            && (c.0 == LimitReached <==> TurnHitLimit(w))
            && c.0 != Refused
            && (c.1 == "maxTurns" <==> StoppedByTurns(w))
            && (c.1 == "maxCost" <==> StoppedByCost(w) || SucceededOverCost(w))
            && (c.1 == "" <==> !TurnHitLimit(w) && !SucceededOverCost(w))
  {
    assert "maxTurns"[3] == 'T' && "maxCost"[3] == 'C';
    assert CANCELLED[0] == 'c' && MAX_TURN_REQUESTS[0] == 'm';
  }

  /** Steps 10 to 12b: the crash check, the handoff, the measurement and its
      enforcement, each overriding what came before. */
  method DecideOutcome(w: World)
    returns (stageOutcome: Outcome, limit: string, verdict: Option<Handoff.Verdict>, verified: Verification.Record,
             enforceVerify: bool)
    requires w.Valid()
    ensures stageOutcome == Succeeded <==>
            w.gooseAlive && TurnSucceeded(w) && !w.RefusedByHandoff() && !w.FailedByMeasurement()
    ensures stageOutcome == LimitReached <==> w.gooseAlive && TurnHitLimit(w)
    ensures stageOutcome == Refused <==> w.gooseAlive && TurnSucceeded(w) && w.RefusedByHandoff()
    ensures limit == "maxTurns" <==> w.gooseAlive && StoppedByTurns(w)
    ensures limit == "maxCost" <==>
            w.gooseAlive && (StoppedByCost(w) || (SucceededOverCost(w) && !EnforcedUnmet(w)))
    ensures limit in Termination.LIMITS
    ensures verdict == if w.gooseAlive && TurnSucceeded(w) then w.handoff else None
    ensures enforceVerify <==> EnforcedUnmet(w)
    ensures if WasMeasured(w) then verified == w.measured else verified.status == Verification.NotRun
    ensures |verified.reason| <= Verification.REASON_LEN && |verified.commit| <= 64
    ensures stageOutcome == LimitReached ==> w.result.Some?
  {
    var classified := ClassifyOutcome(w.result, w.err, w.nativeMaxTurns, w.result.Some? && w.providerError);
    ClassifiedByTheTurn(w);
    stageOutcome, limit := classified.0, classified.1;
    if !w.gooseAlive {
      stageOutcome, limit := Failed, "";
    }
    verdict := None;
    if stageOutcome == Succeeded && w.handoff.Some? {
      verdict := w.handoff;
      if verdict.value.status == "failed" {
        stageOutcome := Refused;
      }
    }
    if !w.verify {
      verified := Verification.NotRunRecord("disabled (HARNESS_VERIFY=off)");
    } else if stageOutcome != Succeeded {
      verified := Verification.NotRunRecord("stage outcome " + stageOutcome.Name());
    } else {
      verified := w.measured;
    }
    enforceVerify := w.verifyEnforce && verified.Unmet() && !Intermediate(w.stageEnv, w.countEnv);
    if verified.Unmet() && enforceVerify {
      stageOutcome, limit := Failed, "";
    }
  }

  /** Step 13: the blob for an outcome, before the final push. */
  method DescribeOutcome(w: World, stageOutcome: Outcome, limit: string, verdict: Option<Handoff.Verdict>,
                         verified: Verification.Record, enforceVerify: bool)
    returns (term: Termination.Blob)
    requires stageOutcome == Refused ==> verdict.Some? && w.result.Some?
    requires verdict.Some? ==> w.result.Some?
    ensures term.exitCode == stageOutcome.ExitCode() && term.outcome == stageOutcome.Name()
    ensures term.limitReached == if w.result.Some? then limit else ""
    ensures term.handoffStatus == if verdict.Some? then verdict.value.status else ""
    ensures term.usageSize == if w.result.Some? then Some(w.usageSize) else None
    ensures term.verification == Some(verified)
    ensures enforceVerify && w.result.Some? ==>
              term.stopReason == "verification " + verified.status.Name() + ": " + verified.reason
    ensures !enforceVerify && NeverWorked(w) ==> term.stopReason == "provider error"
    ensures !enforceVerify && !NeverWorked(w) && stageOutcome == Refused ==>
              term.stopReason == if verdict.value.detail != "" then "handoff: " + verdict.value.detail
                                 else "handoff: Status: " + verdict.value.status
    ensures !enforceVerify && !NeverWorked(w) && stageOutcome == Failed && !w.err.NoError? ==>
              term.stopReason == "prompt failed"
    ensures !enforceVerify && !NeverWorked(w) && stageOutcome != Refused && w.result.Some?
            && (stageOutcome != Failed || w.err.NoError?) ==>
              term.stopReason == w.result.value.stopReason
  {
    var providerRejected := RejectedByProvider(w);
    if w.result.Some? {
      term := Termination.Blob(stageOutcome.ExitCode(), stageOutcome.Name(), limit,
                               if verdict.Some? then verdict.value.status else "",
                               w.result.value.stopReason, "", Some(w.usageSize), Some(verified));
      if enforceVerify {
        term := term.(stopReason := "verification " + verified.status.Name() + ": " + verified.reason);
      } else if providerRejected {
        term := term.(stopReason := "provider error");
      } else if stageOutcome == Refused {
        term := term.(stopReason := if verdict.value.detail != "" then "handoff: " + verdict.value.detail
                                    else "handoff: Status: " + verdict.value.status);
      }
    } else {
      term := Termination.Blob(stageOutcome.ExitCode(), stageOutcome.Name(), "", "", "", "", None, Some(verified));
    }
    if !w.err.NoError? && stageOutcome == Failed && !providerRejected && !enforceVerify {
      term := term.(stopReason := "prompt failed");
    }
  }

  predicate RejectedByProvider(w: World) {
    w.result.Some? && w.providerError && w.result.value.turnsUsed == 0
  }

  /** The first reason that applies to a failed stage whose push went through. */
  function FailureCause(w: World, enforceVerify: bool): Cause {
    if w.hitlUnanswered then QuestionUnanswered
    else if RejectedByProvider(w) then ProviderRejected
    else if enforceVerify then VerificationUnmet
    else if !w.err.NoError? then PromptFailed
    else NoReason
  }

  /** The blob and the exit code tell the same story. */
  ghost predicate Consistent(e: Ending) {
    && e.exitCode <= 3
    && e.blob.exitCode == e.exitCode
    && (e.blob.outcome == "succeeded" <==> e.exitCode == 0)
    && (e.blob.outcome == "failed" <==> e.exitCode == 1)
    && (e.blob.outcome == "limitReached" <==> e.exitCode == 2)
    && (e.blob.outcome == "refused" <==> e.exitCode == 3)
    && (e.exitCode == 2 ==> e.blob.limitReached != "")
    && Termination.Producible(e.blob)
  }

  lemma OutcomeIsItsExitCode(o: Outcome)
    ensures o.Name() in Termination.OUTCOMES
    ensures o.Name() == "succeeded" <==> o == Succeeded
    ensures o.Name() == "failed" <==> o == Failed
    ensures o.Name() == "limitReached" <==> o == LimitReached
    ensures o.Name() == "refused" <==> o == Refused
  {
    assert Succeeded.Name()[0] == 's' && Failed.Name()[0] == 'f'
        && LimitReached.Name()[0] == 'l' && Refused.Name()[0] == 'r';
  }

  /** A failure of the stage itself, its setup done and its work pushed. */
  ghost predicate FailsByItself(w: World, exitCode: nat) {
    exitCode == 1 && w.configLoaded && w.setupError.None? && w.pushError.None?
  }

  /** The blob says of the turn which limit it met, what its handoff says and what it
      used, and carries the verification that was measured, or that none was. */
  ghost predicate TellsTheTurn(w: World, blob: Termination.Blob) {
    && (blob.limitReached == "maxTurns" <==> MachineryHeld(w) && StoppedByTurns(w))
    && (blob.limitReached == "maxCost" <==>
          MachineryHeld(w) && (StoppedByCost(w) || (SucceededOverCost(w) && !EnforcedUnmet(w))))
    && blob.limitReached in {"", "maxTurns", "maxCost"}
    && blob.handoffStatus == (if Recorded(w) && w.gooseAlive && TurnSucceeded(w) && w.handoff.Some?
                              then w.handoff.value.status else "")
    && blob.usageSize == (if Recorded(w) && w.result.Some? then Some(w.usageSize) else None)
    && blob.mavenProxyWarning == w.mavenProxyWarning
    && (blob.verification.Some? <==> Recorded(w))
    && (Recorded(w) ==>
          if WasMeasured(w) then blob.verification.value == w.measured
          else blob.verification.value.status == Verification.NotRun)
  }

  /** A failed stage gives the first reason that applies. */
  ghost predicate CauseTells(w: World, exitCode: nat, cause: Option<Cause>) {
    var byItself := FailsByItself(w, exitCode);
    && (cause.Some? <==> exitCode == 1)
    && (cause == Some(ConfigNotLoaded) <==> !w.configLoaded)
    && (cause == Some(SetupFailed) <==> w.configLoaded && w.setupError.Some?)
    && (cause == Some(PushFailed) <==> Recorded(w) && w.pushError.Some?)
    && (cause == Some(QuestionUnanswered) <==> byItself && w.hitlUnanswered)
    && (cause == Some(ProviderRejected) <==> byItself && !w.hitlUnanswered && NeverWorked(w))
    && (cause == Some(VerificationUnmet) <==> byItself && !w.hitlUnanswered && EnforcedUnmet(w))
    && (cause == Some(PromptFailed) <==> byItself && !w.hitlUnanswered && !NeverWorked(w) && !w.err.NoError?)
  }

  /** What the blob gives as the reason: the first thing that decided the stage, or
      what the turn itself said. */
  ghost predicate StopReasonTells(w: World, exitCode: nat, said: string) {
    if !w.configLoaded then said == "config: not loaded"
    else if w.setupError.Some? then said == w.setupError.value
    else if w.pushError.Some? then said == "final push: " + w.pushError.value
    else if EnforcedUnmet(w) then said == "verification " + w.measured.status.Name() + ": " + w.measured.reason
    else if NeverWorked(w) then said == "provider error"
    else if exitCode == 3 then
      w.handoff.Some? && said == if w.handoff.value.detail != "" then "handoff: " + w.handoff.value.detail
                                 else "handoff: Status: " + w.handoff.value.status
    else if exitCode == 1 && !w.err.NoError? then said == "prompt failed"
    else w.result.Some? && said == w.result.value.stopReason
  }

  method RunStage(w: World) returns (e: Ending)
    requires w.Valid()
    ensures e.exitCode == 0 <==> StageSucceeds(w)
    ensures e.exitCode == 2 <==> MachineryHeld(w) && TurnHitLimit(w)
    ensures e.exitCode == 3 <==> MachineryHeld(w) && TurnSucceeded(w) && w.RefusedByHandoff()
    ensures Consistent(e)
    ensures TellsTheTurn(w, e.blob) && CauseTells(w, e.exitCode, e.cause)
    ensures StopReasonTells(w, e.exitCode, e.blob.stopReason)
    ensures e.revoked <==> w.configLoaded && w.tokenId && !(Intermediate(w.stageEnv, w.countEnv) && e.exitCode == 0)
  {
    var term := Termination.Blob(1, Failed.Name(), "", "", "", w.mavenProxyWarning, None, None);
    OutcomeIsItsExitCode(Failed);
    var stageSucceeded := false;
    if !w.configLoaded {
      return Ending(1, term.(stopReason := "config: not loaded"), false, Some(ConfigNotLoaded));
    }
    var intermediate := Intermediate(w.stageEnv, w.countEnv);
    if w.setupError.Some? {
      var revoked := RevokeOnExit(w.tokenId, intermediate, stageSucceeded);
      return Ending(1, term.(stopReason := w.setupError.value), revoked, Some(SetupFailed));
    }
    var exitCode, cause;
    exitCode, term, cause := FinishStage(w);
    if exitCode == 0 {
      stageSucceeded := true;
    }
    var revoked := RevokeOnExit(w.tokenId, intermediate, stageSucceeded);
    return Ending(exitCode, term, revoked, cause);
  }

  /** Steps 10 to 15, once the prompt has come back or failed. */
  method FinishStage(w: World) returns (exitCode: nat, term: Termination.Blob, cause: Option<Cause>)
    requires w.Valid() && Recorded(w)
    ensures exitCode == 0 <==> StageSucceeds(w)
    ensures exitCode == 2 <==> MachineryHeld(w) && TurnHitLimit(w)
    ensures exitCode == 3 <==> MachineryHeld(w) && TurnSucceeded(w) && w.RefusedByHandoff()
    ensures Consistent(Ending(exitCode, term, false, cause))
    ensures TellsTheTurn(w, term) && CauseTells(w, exitCode, cause)
    ensures StopReasonTells(w, exitCode, term.stopReason)
  {
    var stageOutcome, limit, verdict, verified, enforceVerify := DecideOutcome(w);
    OutcomeIsItsExitCode(stageOutcome);
    OutcomeIsItsExitCode(Failed);
    term := DescribeOutcome(w, stageOutcome, limit, verdict, verified, enforceVerify);
    term := term.(mavenProxyWarning := w.mavenProxyWarning);
    if w.pushError.Some? {
      term := term.(exitCode := 1, outcome := Failed.Name(), limitReached := "",
                    stopReason := "final push: " + w.pushError.value);
      return 1, term, Some(PushFailed);
    }
    cause := None;
    if stageOutcome == Failed {
      cause := Some(FailureCause(w, enforceVerify));
    }
    exitCode := stageOutcome.ExitCode();
  }

  /** The deferred cleanup: fail closed unless a later stage needs the token. */
  method RevokeOnExit(tokenId: bool, intermediate: bool, stageSucceeded: bool) returns (revoked: bool)
    ensures revoked <==> tokenId && !(intermediate && stageSucceeded)
  {
    if !tokenId {
      return false;
    }
    if intermediate && stageSucceeded {
      return false;
    }
    revoked := true;
  }

  // ----- What follows from an exit code of 0 -----

  /** Under enforcement the last stage exits 0 only over a verification that is
      not unmet, whatever the turn and the handoff say. */
  lemma EnforcedSuccessIsNotUnmet(w: World)
    requires StageSucceeds(w) && w.verify && w.verifyEnforce && !Intermediate(w.stageEnv, w.countEnv)
    ensures !w.measured.Unmet() && !w.RefusedByHandoff() && w.result.value.stopReason != CANCELLED
  {
    assert MachineryHeld(w) && TurnSucceeded(w);
  }

  /** A stage whose question went unanswered exits 0 exactly when nothing else
      stops it: the machinery held, the turn ended by itself, neither cancelled
      nor at a ceiling nor refused by the provider, and neither the handoff nor an
      enforced measurement refused the work. The question is the reason given for
      a failure and never itself a failure. */
  lemma UnansweredQuestionSucceedsExactlyWhen(w: World)
    requires w.Valid() && w.hitlUnanswered
    ensures StageSucceeds(w) <==>
            && w.configLoaded && w.setupError.None? && w.gooseAlive && w.pushError.None?
            && w.err.NoError?
            && w.result.value.stopReason != "cancelled" && w.result.value.stopReason != "max_turn_requests"
            && (w.nativeMaxTurns == 0 || w.result.value.turnsUsed < w.nativeMaxTurns)
            && !(w.providerError && w.result.value.turnsUsed == 0)
            && !(w.handoff.Some? && w.handoff.value.status == "failed")
            && !(w.verify && w.verifyEnforce && w.measured.Unmet() && !Intermediate(w.stageEnv, w.countEnv))
  {
  }

  /** The case that slips through: the turn ends normally before the cancel lands. */
  lemma UnansweredQuestionMaySucceed()
    ensures exists w: World :: w.Valid() && w.hitlUnanswered && StageSucceeds(w)
  {
    var w := World(true, true, None, "", "", Some(PromptResult("end_turn", false, 3)), NoError, 0, false, true, true,
                   None, false, false, Verification.Record(Verification.NotRun, "", "", []), 0, "", None);
    assert "end_turn"[0] == 'e' && CANCELLED[0] == 'c' && MAX_TURN_REQUESTS[0] == 'm';
    assert w.Valid() && TurnSucceeded(w) && MachineryHeld(w);
    assert StageSucceeds(w);
  }
}
