/**
 The controller's reading of the termination blob
 (internal/controller/verification.go) and the chain it ends: from the plan's
 commands to the AgentRun's Verified condition.
 */
module VerifiedCondition {
  import opened Wrappers
  import Verification
  import Termination
  import Stage
  import PlanParser

  datatype Condition = True | False | Unknown

  datatype Reported = Reported(status: string, reason: string, commit: string)

  /** The termination message as the controller finds it. */
  datatype Message = NoMessage | NotAnObject | Object(verification: Option<Reported>)

  function HarnessVerificationFrom(m: Message): Option<Reported> {
    if !m.Object? || m.verification.None? || m.verification.value.status == "" then None else m.verification
  }

  datatype Reason = VerificationPassed | VerificationFailed | VerificationIncomplete | VerificationNotRun
                  | VerificationNotReported

  /** The Verified condition's status and reason. */
  function VerificationVerdict(m: Message): (Condition, Reason) {
    var v := HarnessVerificationFrom(m);
    if v.None? then (Unknown, VerificationNotReported)
    else if v.value.status == "passed" then (True, VerificationPassed)
    else if v.value.status == "failed" then (False, VerificationFailed)
    else if v.value.status == "incomplete" then (False, VerificationIncomplete)
    else if v.value.status == "notRun" then (False, VerificationNotRun)
    else (Unknown, VerificationNotReported)
  }

  /** What reaches the controller of a blob the harness wrote: the kubelet cuts
      anything longer than its limit, and what it cuts is no longer an object. */
  function Delivered(written: Termination.Blob): Message {
    if Termination.Size(written) > Termination.MAX_BYTES then NotAnObject
    else if written.verification.None? then Object(None)
    else
      var v := written.verification.value;
      Object(Some(Reported(v.status.Name(), v.reason, v.commit)))
  }

  /** True is reachable from an explicit pass and from nothing else. */
  lemma TrueOnlyFromAnExplicitPass(m: Message)
    ensures VerificationVerdict(m).0 == True <==>
            m.Object? && m.verification.Some? && m.verification.value.status == "passed"
  {
    if m.Object? && m.verification.Some? && m.verification.value.status == "passed" {
      assert m.verification.value.status[0] == 'p';
    }
  }

  /** False is what an object says that reports anything less, and Unknown everything
      else: no message, none that is an object, none with a record, or a word the
      controller does not know. */
  lemma FalseOnlyFromALesserReport(m: Message)
    ensures VerificationVerdict(m).0 == False <==>
            m.Object? && m.verification.Some? && m.verification.value.status in {"failed", "incomplete", "notRun"}
    ensures VerificationVerdict(m).0 == Unknown <==> VerificationVerdict(m).1 == VerificationNotReported
    ensures VerificationVerdict(m).1 == VerificationPassed <==> VerificationVerdict(m).0 == True
  {
    if m.Object? && m.verification.Some? {
      assert "failed"[0] == 'f' && "incomplete"[0] == 'i' && "notRun"[0] == 'n' && "passed"[0] == 'p';
    }
  }

  /** End to end: the condition is True exactly when the pass was measured, it
      is False exactly when the harness reported anything less, and trimming
      the blob never turns one into the other. */
  lemma VerifiedMeansMeasured(
    rd: PlanParser.Reader, w: Verification.World, v: Verification.Record,
    term: Termination.Blob, written: Termination.Blob)
    requires Verification.Truthful(rd, w, v)
    requires term.verification == Some(v) && Termination.Survives(term, written)
    ensures VerificationVerdict(Delivered(written)).0 == True <==> Verification.Measured(rd, w)
    ensures VerificationVerdict(Delivered(written)).0 == False <==> !Verification.Measured(rd, w)
    ensures VerificationVerdict(Delivered(written)).1 == VerificationNotRun <==>
            Verification.NothingToMeasure(rd, w)
  {
    StatusIsReadBack(v.status, v.reason, v.commit);
    assert written.verification.Some? && written.verification.value.status == v.status;
  }

  /** Each of the harness's verdicts maps to its own condition. */
  lemma StatusIsReadBack(status: Verification.Status, reason: string, commit: string)
    ensures var verdict := VerificationVerdict(Object(Some(Reported(status.Name(), reason, commit))));
            match status
            case Passed => verdict == (True, VerificationPassed)
            case Failed => verdict == (False, VerificationFailed)
            case Incomplete => verdict == (False, VerificationIncomplete)
            case NotRun => verdict == (False, VerificationNotRun)
  {
    assert "passed"[0] == 'p' && "failed"[0] == 'f' && "notRun"[0] == 'n';
  }

  /** A run that left no readable record is not a pass, whatever else it left. */
  lemma SilenceIsNotAPass(term: Termination.Blob, written: Termination.Blob)
    requires term.verification.None? && Termination.Survives(term, written)
    ensures VerificationVerdict(Delivered(written)).0 == Unknown
  {
    assert Termination.Verdict(written.verification) == None;
  }

  /** A stage whose verification was not called for says so. */
  lemma NotMeasuredIsNotAPass(term: Termination.Blob, written: Termination.Blob)
    requires term.verification.Some? && term.verification.value.status == Verification.NotRun
    requires Termination.Survives(term, written)
    ensures VerificationVerdict(Delivered(written)) == (False, VerificationNotRun)
  {
    assert written.verification.Some? && written.verification.value.status == Verification.NotRun;
    var record := written.verification.value;
    StatusIsReadBack(Verification.NotRun, record.reason, record.commit);
  }

  /** The blob a stage ends with. */
  method BlobOf(stage: Stage.World) returns (blob: Termination.Blob)
    requires stage.Valid()
    ensures Termination.Producible(blob)
    ensures blob.verification.Some? <==> Stage.Recorded(stage)
    ensures Stage.Recorded(stage) ==>
              if Stage.WasMeasured(stage) then blob.verification.value == stage.measured
              else blob.verification.value.status == Verification.NotRun
  {
    var e := Stage.RunStage(stage);
    blob := e.blob;
  }

  /** A stage from its plan to its condition: the harness measures, decides how the
      stage ends, trims the blob, and the controller reads it. The condition is
      True exactly when the verification was called for and measured a pass, False
      exactly when the stage recorded anything less, and Unknown exactly when it
      ended before it had anything to record. */
  method ReportStage(rd: PlanParser.Reader, red: string -> string, w: Verification.World, stage: Stage.World)
    returns (status: Condition)
    requires stage.err.NoError? ==> stage.result.Some?
    requires w.tip.Ok? ==> |w.tip.value| <= 64
    ensures status == True <==>
            Stage.Recorded(stage) && Stage.WasMeasured(stage) && Verification.Measured(rd, w)
    ensures status == False <==>
            Stage.Recorded(stage) && !(Stage.WasMeasured(stage) && Verification.Measured(rd, w))
    ensures status == Unknown <==> !Stage.Recorded(stage)
  {
    var v := Verification.RunPlanVerification(rd, red, w);
    var measured := stage.(measured := v);
    assert Stage.WasMeasured(measured) <==> Stage.WasMeasured(stage);
    var blob := BlobOf(measured);
    var written := Termination.WriteTerminationLog(blob);
    if !Stage.Recorded(stage) {
      SilenceIsNotAPass(blob, written);
    } else if Stage.WasMeasured(stage) {
      VerifiedMeansMeasured(rd, w, v, blob, written);
    } else {
      NotMeasuredIsNotAPass(blob, written);
    }
    status := VerificationVerdict(Delivered(written)).0;
  }
}
