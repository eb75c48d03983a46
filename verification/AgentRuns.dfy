/**
 The AgentRun reconciler (internal/controller/agentrun_controller.go).

 One Reconcile reads the run, reads whatever else it needs, edits a local copy
 of the status and patches it once. Everything it reads is gathered in a World,
 so a reconcile is a function of the stored status and that World; the method
 below is the code's own statement-by-statement form of it.
 */
module AgentRuns {
  import opened Wrappers

  datatype Phase = NoPhase | Pending | Running | Succeeded | Failed {
    predicate Terminal() { Succeeded? || Failed? }

    /** How far along a run in this phase is. */
    function Rank(): nat {
      match this
      case NoPhase => 0
      case Pending => 1
      case Running => 2
      case Succeeded => 3
      case Failed => 3
    }
  }

  /** The status of the Succeeded condition; Unset before it is first written. */
  datatype Condition = Unset | Unknown | True | False

  datatype RunStatus = RunStatus(
    phase: Phase,
    succeeded: Condition,
    reason: string,
    sandboxName: string,
    startTime: Option<int>,
    completionTime: Option<int>)

  const FreshStatus := RunStatus(NoPhase, Unset, "", "", None, None)

  datatype AgentRead = AgentMissing | AgentReadFailed | AgentNotReady | AgentReady

  /** What the checks before sandbox creation conclude, in the order they run. */
  datatype Preflight =
    | InvalidParams
    | InvalidGateway
    | InvalidFileMounts
    | SourceUnavailable(notFound: bool)
    | InvalidProjection
    | Admissible

  /** What createSandbox answers. Created: also when a Sandbox of the name was
      there already, whoever's it is. CreateLost: the Sandbox is there and the
      caller sees an error. */
  datatype SandboxCreate = CreateFailed(gatewayMissing: bool) | CreateLost | Created(name: string)

  /** The sandbox pod as terminalPod resolves it. */
  datatype Pod = Pod(running: bool, startupProblem: Option<string>, exitCode: Option<int>, startedAt: Option<int>)

  datatype Sandbox = Sandbox(finished: Option<string>, createdAt: int, pod: Option<Pod>)

  /** SandboxBehind: the cache misses it but the uncached read finds it. */
  datatype SandboxRead = SandboxMissing | SandboxBehind | SandboxReadFailed | SandboxFound(sandbox: Sandbox)

  datatype World = World(
    agent: AgentRead,
    preflight: Preflight,
    create: SandboxCreate,
    sandbox: SandboxRead,
    podReadFailed: bool,
    now: int,
    startupDeadline: Option<int>,
    ttl: Option<int>)

  const EXIT_SUCCEEDED := 0
  const EXIT_LIMIT_REACHED := 2
  const EXIT_REFUSED := 3
  const POD_SUCCEEDED := "PodSucceeded"

  /** What one reconcile asks of the API server. */
  datatype Effect = Keep | Write(status: RunStatus) | Delete

  function Settle(st: RunStatus, phase: Phase, succeeded: Condition, reason: string): RunStatus {
    st.(phase := phase, succeeded := succeeded, reason := reason)
  }

  function Stamped(st: RunStatus, pod: Option<Pod>, createdAt: int, now: int): RunStatus {
    var start := if pod.Some? && pod.value.startedAt.Some? then pod.value.startedAt else Some(createdAt);
    st.(completionTime := Some(now), startTime := if st.startTime.None? then start else st.startTime)
  }

  function ExitCode(pod: Option<Pod>): Option<int> {
    if pod.None? then None else pod.value.exitCode
  }

  /** A finished sandbox is a success exactly when the agent exited 0, or when
      no exit code is known and the sandbox itself reports success. */
  predicate CleanFinish(exit: Option<int>, sandboxReason: string) {
    match exit
    case Some(code) => code == EXIT_SUCCEEDED
    case None => sandboxReason == POD_SUCCEEDED
  }

  function FailureReason(exit: Option<int>): string {
    if exit == Some(EXIT_LIMIT_REACHED) then "LimitReached"
    else if exit == Some(EXIT_REFUSED) then "Refused"
    else "Failed"
  }

  function Finished(st: RunStatus, exit: Option<int>, sandboxReason: string): RunStatus {
    if CleanFinish(exit, sandboxReason)
    then Settle(st, Succeeded, True, "Succeeded")
    else Settle(st, Failed, False, FailureReason(exit))
  }

  predicate PodRunning(pod: Option<Pod>) { pod.Some? && pod.value.running }

  predicate Stuck(pod: Option<Pod>) { pod.Some? && pod.value.startupProblem.Some? }

  predicate DeadlinePassed(sandbox: Sandbox, w: World) {
    w.startupDeadline.Some? && w.startupDeadline.value - (w.now - sandbox.createdAt) <= 0
  }

  /** The status after looking at a sandbox that exists. */
  function Observed(st: RunStatus, sandbox: Sandbox, w: World): RunStatus {
    var pod := sandbox.pod;
    if sandbox.finished.Some? then
      Finished(Stamped(st, pod, sandbox.createdAt, w.now), ExitCode(pod), sandbox.finished.value)
    else if st.phase == Running then st
    else if Stuck(pod) then
      Settle(Stamped(st, pod, sandbox.createdAt, w.now), Failed, False, pod.value.startupProblem.value)
    else if PodRunning(pod) then
      Settle(st, Running, Unknown, "Running").(
        startTime := if pod.value.startedAt.Some? then pod.value.startedAt else Some(sandbox.createdAt))
    else if DeadlinePassed(sandbox, w) then
      Settle(Stamped(st, pod, sandbox.createdAt, w.now), Failed, False, "StartupDeadlineExceeded")
    else Settle(st, Pending, Unknown, "PodNotRunning")
  }

  /** The status after trying to give a run without a sandbox one. */
  function Launched(st: RunStatus, w: World): RunStatus {
    match w.preflight
    case InvalidParams => Settle(st, Failed, False, "InvalidParams")
    case InvalidGateway => Settle(st, Failed, False, "InvalidGateway")
    case InvalidFileMounts => Settle(st, Failed, False, "InvalidFileMounts")
    case InvalidProjection => Settle(st, Failed, False, "InvalidFileMounts")
    case SourceUnavailable(notFound) =>
      Settle(st, st.phase, Unknown, if notFound then "FileMountSourceNotFound" else "FileMountSourceUnavailable")
    case Admissible =>
      match w.create
      case CreateFailed(gatewayMissing) =>
        Settle(st, st.phase, Unknown, if gatewayMissing then "GatewayNotFound" else "SandboxCreationFailed")
      case CreateLost => Settle(st, st.phase, Unknown, "SandboxCreationFailed")
      case Created(name) =>
        Settle(st, Pending, Unknown, "SandboxCreated").(sandboxName := name)
  }

  /** A reconcile after which a Sandbox bears the run's name. */
  predicate EnsuresSandbox(st: RunStatus, w: World) {
    && !st.phase.Terminal() && w.agent == AgentReady && st.sandboxName == ""
    && w.preflight == Admissible && !w.create.CreateFailed?
  }

  /** Garbage collection of a terminal run. */
  function Collected(st: RunStatus, w: World): Effect {
    if w.ttl.None? then Keep
    else if st.completionTime.None? then Write(st.(completionTime := Some(w.now)))
    else if w.now < st.completionTime.value + w.ttl.value then Keep
    else Delete
  }

  /** A finished run that has outlived its TTL. */
  predicate Expired(st: RunStatus, w: World) {
    && st.phase.Terminal() && w.ttl.Some? && st.completionTime.Some?
    && st.completionTime.value + w.ttl.value <= w.now
  }

  /** What a reconcile of a run with this status does in this World. */
  function Decide(st: RunStatus, w: World): Effect {
    if st.phase.Terminal() then Collected(st, w)
    else match w.agent
      case AgentReadFailed => Keep
      case AgentMissing => Write(Settle(st, Failed, False, "AgentNotFound"))
      case AgentNotReady => Write(Settle(st, st.phase, Unknown, "AgentNotReady"))
      case AgentReady =>
        if st.sandboxName == "" then Write(Launched(st, w))
        else match w.sandbox
          case SandboxReadFailed => Keep
          case SandboxBehind => Keep
          case SandboxMissing => Write(Settle(st, Failed, False, "SandboxNotFound"))
          case SandboxFound(sandbox) =>
            if w.podReadFailed then Keep else Write(Observed(st, sandbox, w))
  }

  /** The stored status after a reconcile whose patch may fail. */
  function Reconciled(st: RunStatus, w: World, patchOk: bool): RunStatus {
    var effect := Decide(st, w);
    if effect.Write? && patchOk then effect.status else st
  }

  /** An AgentRun object as the API server stores it. */
  class StoredRun {
    var status: RunStatus
    var deleted: bool

    constructor ()
      ensures status == FreshStatus && !deleted
    {
      status := FreshStatus;
      deleted := false;
    }

    method Patch(run: RunStatus, ok: bool)
      modifies this`status
      ensures status == if ok then run else old(status)
    {
      if ok {
        status := run;
      }
    }

    method Reconcile(w: World, patchOk: bool)
      modifies this
      ensures status == Reconciled(old(status), w, patchOk)
      ensures deleted == (old(deleted) || Expired(old(status), w))
    {
      var run := status;
      if run.phase.Terminal() {
        if w.ttl.None? {
          return;
        }
        if run.completionTime.None? {
          run := run.(completionTime := Some(w.now));
          Patch(run, patchOk);
          return;
        }
        var remaining := run.completionTime.value + w.ttl.value - w.now;
        if remaining > 0 {
          return;
        }
        deleted := true;
        return;
      }
      if w.agent.AgentMissing? {
        run := run.(phase := Failed);
        run := run.(succeeded := False, reason := "AgentNotFound");
        Patch(run, patchOk);
        return;
      }
      if w.agent.AgentReadFailed? {
        return;
      }
      if w.agent.AgentNotReady? {
        run := run.(succeeded := Unknown, reason := "AgentNotReady");
        Patch(run, patchOk);
        return;
      }
      if run.sandboxName == "" {
        run := Launch(run, w);
        Patch(run, patchOk);
        return;
      }
      if w.sandbox.SandboxMissing? {
        run := run.(phase := Failed);
        run := run.(succeeded := False, reason := "SandboxNotFound");
        Patch(run, patchOk);
        return;
      }
      if !w.sandbox.SandboxFound? || w.podReadFailed {
        return;
      }
      run := UpdatePhaseFromSandbox(run, w.sandbox.sandbox, w);
      Patch(run, patchOk);
    }

    static method Launch(st: RunStatus, w: World) returns (run: RunStatus)
      ensures run == Launched(st, w)
    {
      run := st;
      if w.preflight.InvalidParams? {
        return run.(phase := Failed, succeeded := False, reason := "InvalidParams");
      }
      if w.preflight.InvalidGateway? {
        return run.(phase := Failed, succeeded := False, reason := "InvalidGateway");
      }
      if w.preflight.InvalidFileMounts? {
        return run.(phase := Failed, succeeded := False, reason := "InvalidFileMounts");
      }
      if w.preflight.SourceUnavailable? {
        var reason := "FileMountSourceUnavailable";
        if w.preflight.notFound {
          reason := "FileMountSourceNotFound";
        }
        return run.(succeeded := Unknown, reason := reason);
      }
      if w.preflight.InvalidProjection? {
        return run.(phase := Failed, succeeded := False, reason := "InvalidFileMounts");
      }
      if !w.create.Created? {
        var reason := "SandboxCreationFailed";
        if w.create.CreateFailed? && w.create.gatewayMissing {
          reason := "GatewayNotFound";
        }
        return run.(succeeded := Unknown, reason := reason);
      }
      run := run.(sandboxName := w.create.name);
      run := run.(phase := Pending);
      run := run.(succeeded := Unknown, reason := "SandboxCreated");
    }

    static method UpdatePhaseFromSandbox(st: RunStatus, sandbox: Sandbox, w: World) returns (run: RunStatus)
      ensures run == Observed(st, sandbox, w)
    {
      run := st;
      var pod := sandbox.pod;
      if sandbox.finished.Some? {
        run := StampCompletion(run, pod, sandbox.createdAt, w.now);
        run := SetTerminalOutcome(run, ExitCode(pod), sandbox.finished.value);
        return;
      }
      if run.phase == Running {
        return;
      }
      if pod.Some? && pod.value.startupProblem.Some? {
        run := run.(phase := Failed);
        run := StampCompletion(run, pod, sandbox.createdAt, w.now);
        run := run.(succeeded := False, reason := pod.value.startupProblem.value);
        return;
      }
      if pod.None? || !pod.value.running {
        if w.startupDeadline.Some? {
          var remaining := w.startupDeadline.value - (w.now - sandbox.createdAt);
          if remaining <= 0 {
            run := run.(phase := Failed);
            run := StampCompletion(run, pod, sandbox.createdAt, w.now);
            run := run.(succeeded := False, reason := "StartupDeadlineExceeded");
            return;
          }
        }
        run := run.(phase := Pending);
        run := run.(succeeded := Unknown, reason := "PodNotRunning");
        return;
      }
      run := run.(phase := Running);
      var start := Some(sandbox.createdAt);
      if pod.value.startedAt.Some? {
        start := pod.value.startedAt;
      }
      run := run.(startTime := start);
      run := run.(succeeded := Unknown, reason := "Running");
    }

    static method StampCompletion(st: RunStatus, pod: Option<Pod>, createdAt: int, now: int) returns (run: RunStatus)
      ensures run == Stamped(st, pod, createdAt, now)
    {
      run := st.(completionTime := Some(now));
      if run.startTime.None? {
        var start := Some(createdAt);
        if pod.Some? && pod.value.startedAt.Some? {
          start := pod.value.startedAt;
        }
        run := run.(startTime := start);
      }
    }

    static method SetTerminalOutcome(st: RunStatus, exit: Option<int>, sandboxReason: string)
      returns (run: RunStatus)
      ensures run == Finished(st, exit, sandboxReason)
    {
      run := st;
      if exit.Some? && exit.value == EXIT_LIMIT_REACHED {
        run := run.(phase := Failed);
        run := run.(succeeded := False, reason := "LimitReached");
      } else if exit.Some? && exit.value == EXIT_REFUSED {
        run := run.(phase := Failed);
        run := run.(succeeded := False, reason := "Refused");
      } else if (exit.Some? && exit.value == EXIT_SUCCEEDED) || (exit.None? && sandboxReason == POD_SUCCEEDED) {
        run := run.(phase := Succeeded);
        run := run.(succeeded := True, reason := "Succeeded");
      } else {
        run := run.(phase := Failed);
        run := run.(succeeded := False, reason := "Failed");
      }
    }
  }

  // ----- What every reconcile keeps -----

  /** Phase and the Succeeded condition tell the same story, and a run whose
      agent has been seen running has a sandbox. */
  ghost predicate Coherent(st: RunStatus) {
    && (st.phase == Succeeded <==> st.succeeded == True)
    && (st.phase == Failed <==> st.succeeded == False)
    && (st.phase == Running ==> st.sandboxName != "")
  }

  /** later is a state a run may be in after having been in earlier. */
  ghost predicate Follows(earlier: RunStatus, later: RunStatus) {
    && earlier.phase.Rank() <= later.phase.Rank()
    && (earlier.phase.Terminal() ==>
          && later.phase == earlier.phase
          && later.succeeded == earlier.succeeded
          && later.reason == earlier.reason)
    && (earlier.sandboxName != "" ==> later.sandboxName == earlier.sandboxName)
  }

  lemma ReconcileKeepsCoherence(st: RunStatus, w: World, patchOk: bool)
    requires Coherent(st)
    ensures Coherent(Reconciled(st, w, patchOk))
    ensures Follows(st, Reconciled(st, w, patchOk))
  {
    var effect := Decide(st, w);
    if effect.Write? && !st.phase.Terminal() {
      if w.agent == AgentReady && st.sandboxName != "" && w.sandbox.SandboxFound? {
        assert Coherent(Observed(st, w.sandbox.sandbox, w));
      }
    }
  }

  /** A run's Sandbox is the one its create named, and stays so. */
  lemma SandboxIsTheOneNamed(st: RunStatus, w: World, patchOk: bool)
    ensures var later := Reconciled(st, w, patchOk).sandboxName;
            later == st.sandboxName || (st.sandboxName == "" && w.create == Created(later))
  {
    if !st.phase.Terminal() && w.agent == AgentReady && st.sandboxName != "" && w.sandbox.SandboxFound? {
      assert Observed(st, w.sandbox.sandbox, w).sandboxName == st.sandboxName;
    }
  }

  /** A run's status after a sequence of reconciles, from the first to the last. */
  function RunThrough(st: RunStatus, trace: seq<(World, bool)>): RunStatus
    decreases |trace|
  {
    if trace == [] then st else RunThrough(Reconciled(st, trace[0].0, trace[0].1), trace[1..])
  }

  lemma {:induction false} EveryRunIsCoherent(st: RunStatus, trace: seq<(World, bool)>)
    requires Coherent(st)
    ensures Coherent(RunThrough(st, trace))
    ensures Follows(st, RunThrough(st, trace))
    decreases |trace|
  {
    if trace == [] {
    } else {
      ReconcileKeepsCoherence(st, trace[0].0, trace[0].1);
      EveryRunIsCoherent(Reconciled(st, trace[0].0, trace[0].1), trace[1..]);
    }
  }

  // ----- Each verdict, from what the world shows -----

  /** The reconcile gets to look at the run's Sandbox and its pod. */
  predicate LooksAtTheSandbox(st: RunStatus, w: World) {
    && !st.phase.Terminal() && w.agent == AgentReady && st.sandboxName != ""
    && w.sandbox.SandboxFound? && !w.podReadFailed
  }

  /** The exit code of the agent, if there is a pod and it left one. */
  predicate ExitedWith(pod: Option<Pod>, code: int) { pod.Some? && pod.value.exitCode == Some(code) }

  predicate LeftNoCode(pod: Option<Pod>) { pod.None? || pod.value.exitCode.None? }

  /** A finished Sandbox tells of an agent that exited 0. */
  predicate TellsSuccess(pod: Option<Pod>, finished: string) {
    ExitedWith(pod, 0) || (LeftNoCode(pod) && finished == "PodSucceeded")
  }

  predicate ShownRunning(pod: Option<Pod>) { pod.Some? && pod.value.running }

  predicate ShownStuck(pod: Option<Pod>) { pod.Some? && pod.value.startupProblem.Some? }

  /** A run succeeds exactly when its Sandbox has finished and the agent exited 0, or
      left no code and the Sandbox says its pod succeeded. */
  lemma SuccessNeedsACleanFinish(st: RunStatus, w: World, patchOk: bool)
    requires !st.phase.Terminal()
    ensures Reconciled(st, w, patchOk).phase == Succeeded <==>
            && patchOk && LooksAtTheSandbox(st, w) && w.sandbox.sandbox.finished.Some?
            && TellsSuccess(w.sandbox.sandbox.pod, w.sandbox.sandbox.finished.value)
  {
    if w.agent == AgentReady && st.sandboxName == "" {
      assert Launched(st, w).phase != Succeeded;
    }
  }

  /** What a finished Sandbox's exit code makes of the run: 2 is a budget, 3 a
      refusal, anything else but 0 a failure. */
  lemma ExitCodesAreTold(st: RunStatus, w: World)
    requires LooksAtTheSandbox(st, w) && w.sandbox.sandbox.finished.Some?
    ensures var later, pod := Reconciled(st, w, true), w.sandbox.sandbox.pod;
            && (later.phase == Succeeded || later.phase == Failed)
            && (later.phase == Succeeded ==> later.succeeded == True && later.reason == "Succeeded")
            && (later.phase == Failed ==> later.succeeded == False)
            && (ExitedWith(pod, 2) ==> later.phase == Failed && later.reason == "LimitReached")
            && (ExitedWith(pod, 3) ==> later.phase == Failed && later.reason == "Refused")
            && (later.phase == Failed && !ExitedWith(pod, 2) && !ExitedWith(pod, 3) ==> later.reason == "Failed")
  {
  }

  /** A run becomes Running exactly when its Sandbox has not finished and its pod is
      there, runs, and has no startup problem. */
  lemma RunningExactlyWhen(st: RunStatus, w: World, patchOk: bool)
    requires !st.phase.Terminal() && st.phase != Running
    ensures Reconciled(st, w, patchOk).phase == Running <==>
            && patchOk && LooksAtTheSandbox(st, w) && w.sandbox.sandbox.finished.None?
            && ShownRunning(w.sandbox.sandbox.pod) && !ShownStuck(w.sandbox.sandbox.pod)
  {
    if w.agent == AgentReady && st.sandboxName == "" {
      assert Launched(st, w).phase != Running;
    }
  }

  /** It stays so until its Agent or its Sandbox is gone, or the Sandbox has finished:
      no startup problem and no deadline reach it any more. */
  lemma RunningStaysUntil(st: RunStatus, w: World)
    requires st.phase == Running && Coherent(st)
    ensures Reconciled(st, w, true).phase != Running <==>
            || w.agent == AgentMissing
            || (w.agent == AgentReady && w.sandbox == SandboxMissing)
            || (LooksAtTheSandbox(st, w) && w.sandbox.sandbox.finished.Some?)
  {
  }

  /** A pod that has yet to run fails the run exactly when it cannot start, or when the
      startup deadline has passed since the Sandbox was made; else the run waits. */
  lemma WaitingFailsExactlyWhen(st: RunStatus, w: World)
    requires LooksAtTheSandbox(st, w) && w.sandbox.sandbox.finished.None? && st.phase != Running
    ensures var later, sandbox := Reconciled(st, w, true), w.sandbox.sandbox;
            var late := w.startupDeadline.Some? && w.now - sandbox.createdAt >= w.startupDeadline.value;
            && (ShownStuck(sandbox.pod) ==>
                  later.phase == Failed && later.succeeded == False
                  && later.reason == sandbox.pod.value.startupProblem.value)
            && (!ShownStuck(sandbox.pod) ==>
                  && (later.phase == Failed <==> !ShownRunning(sandbox.pod) && late)
                  && (later.phase == Failed ==> later.succeeded == False && later.reason == "StartupDeadlineExceeded")
                  && (later.phase == Pending <==> !ShownRunning(sandbox.pod) && !late)
                  && (later.phase == Pending ==> later.succeeded == Unknown && later.reason == "PodNotRunning"))
  {
  }

  /** Before there is a Sandbox: a permanent fault fails the run with its own reason, a
      passing one leaves it to be tried again, and a Sandbox is recorded exactly when
      nothing is at fault and its create is answered. */
  lemma LaunchingFailsExactlyWhen(st: RunStatus, w: World)
    requires !st.phase.Terminal() && st.sandboxName == "" && w.agent == AgentReady
    ensures var later := Reconciled(st, w, true);
            && (later.phase == Failed <==>
                  w.preflight in {InvalidParams, InvalidGateway, InvalidFileMounts, InvalidProjection})
            && (later.phase == Failed ==> later.succeeded == False)
            && (w.preflight == InvalidParams ==> later.reason == "InvalidParams")
            && (w.preflight == InvalidGateway ==> later.reason == "InvalidGateway")
            && (w.preflight in {InvalidFileMounts, InvalidProjection} ==> later.reason == "InvalidFileMounts")
            && (later.sandboxName != st.sandboxName ==> w.preflight == Admissible && w.create == Created(later.sandboxName))
            && (w.preflight == Admissible && w.create.Created? ==>
                  later.sandboxName == w.create.name && later.phase == Pending && later.succeeded == Unknown)
            && (later.phase != Failed && !(w.preflight == Admissible && w.create.Created?) ==>
                  later == st.(succeeded := Unknown, reason := later.reason))
            && (w.preflight == Admissible && w.create.CreateFailed? ==>
                  later.reason == if w.create.gatewayMissing then "GatewayNotFound" else "SandboxCreationFailed")
  {
  }

  /** What the reconcile cannot see it does not judge; what is gone fails the run. */
  lemma UnseenIsNotJudged(st: RunStatus, w: World)
    requires !st.phase.Terminal()
    ensures var later := Reconciled(st, w, true);
            && (w.agent == AgentReadFailed ==> later == st)
            && (w.agent == AgentNotReady ==> later == st.(succeeded := Unknown, reason := "AgentNotReady"))
            && (w.agent == AgentMissing ==> later == st.(phase := Failed, succeeded := False, reason := "AgentNotFound"))
            && (w.agent == AgentReady && st.sandboxName != "" ==>
                  && (w.sandbox.SandboxReadFailed? || w.sandbox.SandboxBehind? ==> later == st)
                  && (w.sandbox.SandboxFound? && w.podReadFailed ==> later == st)
                  && (w.sandbox.SandboxMissing? ==>
                        later == st.(phase := Failed, succeeded := False, reason := "SandboxNotFound")))
  {
  }

  /** The times of a run: it has started when its pod did, or when its Sandbox was
      made if the pod does not say; and it is complete when it is seen to end. */
  lemma TimesAreTold(st: RunStatus, w: World)
    requires LooksAtTheSandbox(st, w)
    ensures var later, sandbox := Reconciled(st, w, true), w.sandbox.sandbox;
            var started := if sandbox.pod.Some? && sandbox.pod.value.startedAt.Some? then sandbox.pod.value.startedAt
                           else Some(sandbox.createdAt);
            && later.completionTime == (if later.phase == Succeeded || later.phase == Failed then Some(w.now) else st.completionTime)
            && (later.phase == Running && st.phase != Running ==> later.startTime == started)
            && (later.phase == Succeeded || later.phase == Failed ==>
                  later.startTime == if st.startTime.None? then started else st.startTime)
            && (later.phase == Pending || later.phase == st.phase ==> later.startTime == st.startTime)
  {
  }

  /** A finished run changes only by the completion time its TTL needs, and is deleted
      exactly when the TTL has passed since. */
  lemma FinishedRunsAreCollected(st: RunStatus, w: World)
    requires st.phase.Terminal()
    ensures Reconciled(st, w, true) ==
            if w.ttl.Some? && st.completionTime.None? then st.(completionTime := Some(w.now)) else st
    ensures Decide(st, w) == Delete <==>
            w.ttl.Some? && st.completionTime.Some? && w.now - st.completionTime.value >= w.ttl.value
    ensures Decide(st, w) == Delete <==> Expired(st, w)
  {
  }
}
