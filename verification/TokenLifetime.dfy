/**
 The Hub token over a whole workflow run: every harness that runs finds it live,
 and it is gone exactly when the last harness to exit failed or was the last
 stage's. Three layers decide this together: each harness revokes on its own exit
 (Stage.RunStage), the AgentRun reconciler decides which Sandbox is its AgentRun's,
 and the workflow reconciler decides which stage starts next.
 */
module TokenLifetime {
  import opened Wrappers
  import Text
  import Stage
  import AgentRuns
  import opened Workflow
  import opened WorkflowSystem
  import WorkflowSafety

  // ----- Where the token stands -----

  /** One of the run's own harnesses that has not exited. */
  predicate Running(c: Cluster, i: nat) {
    i < |c.harnesses| && c.harnesses[i].own && c.harnesses[i].exit.None?
  }

  ghost predicate NoneRunning(c: Cluster) { forall i: nat :: !Running(c, i) }

  /** A stage may start: the token is live, and no harness is left to revoke it. */
  ghost predicate Quiet(c: Cluster) { !c.revoked && NoneRunning(c) }

  /** As after an exit 0 of a stage, the last one or not. */
  ghost predicate Settled(c: Cluster, last: bool) { NoneRunning(c) && (c.revoked <==> last) }

  predicate IsLast(spec: ChildSpec) { !Stage.Intermediate(spec.stageEnv, spec.countEnv) }

  // ----- What the theorems assume of a step -----

  /** A finished Sandbox tells the truth about the harness it held. */
  predicate Honest(c: Cluster, s: Step) {
    s.RunReconcile? && OwnedIn(c.children, s.name) ==> WorkflowSafety.ReadsTheTruth(c, s.name, s.w)
  }

  /** A harness that should revoke on its way out and does not: it is killed
      outright, or its call fails. */
  predicate LeavesUncleaned(c: Cluster, s: Step) {
    s.HarnessExit? && Running(c, s.i) && !s.cleaned && Revokes(c.harnesses[s.i].spec, s.code)
  }

  /** The deletion of an AgentRun that is not recorded, from a run that goes on,
      while a harness is running or has revoked: its stage will start again. */
  ghost predicate DropsTheAgentRun(c: Cluster, s: Step) {
    s.DeleteChild? && OwnedIn(c.children, s.name) && !Recorded(c.run, s.name)
    && !c.run.phase.Terminal() && !Quiet(c)
  }

  /** The deletion of a Sandbox that its AgentRun has not recorded, while a harness
      is running or has revoked: the AgentRun will make another. */
  ghost predicate DropsTheSandbox(c: Cluster, s: Step) {
    && s.DeleteSandbox? && s.name in c.sandboxes && OwnedIn(c.children, s.name)
    && c.children[s.name].status.sandboxName == "" && !c.children[s.name].status.phase.Terminal()
    && !Quiet(c)
  }

  /** A reconcile that leaves the current stage behind. */
  predicate LeavesAStage(c: Cluster, s: Step) {
    && s.Reconcile? && !c.run.phase.Terminal() && s.a.workflowRead && s.a.childRead && s.a.patchOk
    && c.workflow.Some? && c.workflow.value.ready
    && WorkflowSafety.SucceededByName(c)
  }

  /** Such a reconcile that goes by a stranger's word. */
  predicate FollowsAStranger(c: Cluster, s: Step) { LeavesAStage(c, s) && StrangerSucceeds(c) }

  /** What the current stage's recorded name now says has not failed. */
  predicate GoesOn(c: Cluster)
    requires WorkflowSafety.SucceededByName(c)
  {
    c.children[c.run.stages[Current(c.run.stages)].agentRunName].status.succeeded != AgentRuns.False
  }

  /** Such a reconcile after which the run goes on, where a harness is still running
      or the token is not as the stage should have left it. */
  ghost predicate StrangerUpsetsTheToken(c: Cluster, s: Step) {
    FollowsAStranger(c, s) && GoesOn(c) && !Settled(c, Current(c.run.stages) + 1 == |c.run.stages|)
  }

  /** An AgentRun whose Sandbox is another's succeeds, where a harness is still
      running or the token is not as the stage should have left it. */
  ghost predicate AnothersSandboxUpsetsTheToken(c: Cluster, s: Step) {
    && s.RunReconcile? && OwnedIn(c.children, s.name) && !c.run.phase.Terminal()
    && !c.children[s.name].status.phase.Terminal()
    && RunStatusAfter(c, s.name, s.w, s.patchOk).phase == AgentRuns.Succeeded
    && WorkflowSafety.HasAnothersSandbox(c, s.name)
    && !Settled(c, IsLast(c.children[s.name].spec))
  }

  ghost predicate Fair(c: Cluster, s: Step) {
    && Honest(c, s)
    && !LeavesUncleaned(c, s)
    && !DropsTheAgentRun(c, s) && !DropsTheSandbox(c, s)
    && !StrangerUpsetsTheToken(c, s) && !AnothersSandboxUpsetsTheToken(c, s)
  }

  ghost predicate FairRun(n: Namer, c: Cluster, steps: seq<Step>)
    decreases |steps|
  {
    steps == [] || (Fair(c, steps[0]) && FairRun(n, Apply(n, c, steps[0]), steps[1..]))
  }

  // ----- The invariant -----

  ghost predicate OneRunsAndFindsTheToken(c: Cluster) {
    && (forall i: nat | Running(c, i) :: !c.revoked)
    && (forall i: nat, j: nat | Running(c, i) && Running(c, j) :: i == j)
  }

  ghost predicate LastExitDecides(c: Cluster) {
    c.revoked <==> c.lastExit.Some? && Revokes(c.lastExit.value.spec, c.lastExit.value.code)
  }

  /** The run's own AgentRun of its current stage. */
  predicate IsCurrent(n: Namer, c: Cluster, name: string) {
    && OwnedIn(c.children, name)
    && (c.run.stages == []
        || (Current(c.run.stages) < |c.run.stages| && name == NameAt(n, c.run.stages, Current(c.run.stages))))
  }

  /** The current stage has no AgentRun and would be given one. */
  ghost predicate StageToStart(n: Namer, c: Cluster) {
    && !c.run.phase.Terminal()
    && if c.run.stages == [] then forall name :: !OwnedIn(c.children, name)
       else Current(c.run.stages) < |c.run.stages| && !Taken(c, NameAt(n, c.run.stages, Current(c.run.stages)))
  }

  /** The AgentRun's next reconcile may make a Sandbox. */
  predicate SandboxToMake(c: Cluster, name: string) {
    && OwnedIn(c.children, name) && name !in c.sandboxes
    && c.children[name].status.sandboxName == "" && !c.children[name].status.phase.Terminal()
  }

  /** What its harness makes of the token: nothing before it is there, and what it
      should once it has exited. */
  ghost predicate HarnessFits(c: Cluster, name: string)
    requires name in c.children
  {
    match c.children[name].harness
    case None => Quiet(c)
    case Some(i) =>
      && i < |c.harnesses| && c.harnesses[i].own && c.harnesses[i].spec == c.children[name].spec
      && (c.harnesses[i].exit.Some? ==>
            NoneRunning(c) && (c.revoked <==> Revokes(c.harnesses[i].spec, c.harnesses[i].exit.value)))
  }

  ghost predicate CurrentHarnessFits(n: Namer, c: Cluster) {
    forall name | IsCurrent(n, c, name) :: HarnessFits(c, name)
  }

  ghost predicate SuccessIsSettled(n: Namer, c: Cluster) {
    !c.run.phase.Terminal() ==>
      forall name | IsCurrent(n, c, name) && c.children[name].status.phase == AgentRuns.Succeeded ::
        Settled(c, IsLast(c.children[name].spec))
  }

  ghost predicate TokenInv(n: Namer, c: Cluster) {
    && OneRunsAndFindsTheToken(c)
    && LastExitDecides(c)
    && (StageToStart(n, c) ==> Quiet(c))
    && (forall name | SandboxToMake(c, name) :: Quiet(c))
    && CurrentHarnessFits(n, c)
    && SuccessIsSettled(n, c)
    && (c.run.stages != [] && Current(c.run.stages) == |c.run.stages| && c.run.phase != AgentRuns.Failed ==> c.revoked)
  }

  // ----- Positions -----

  lemma RevokesByPosition(stages: seq<StageStatus>, guide: string, i: nat, code: nat)
    requires i < |stages| < Text.UINT64_LIMIT
    ensures Revokes(SpecAt(stages, guide, i), code) <==> code != 0 || i + 1 == |stages|
    ensures IsLast(SpecAt(stages, guide, i)) <==> i + 1 == |stages|
  {
    Stage.StampedPositionReadsBack(i + 1, |stages|);
  }

  lemma OwnedIsAStage(n: Namer, c: Cluster, name: string) returns (i: nat)
    requires Inv(n, c) && OwnedIn(c.children, name) && Plan(c) != []
    ensures i < |Plan(c)| && i <= Current(Plan(c)) && NameAt(n, Plan(c), i) == name
    ensures c.children[name].spec == SpecAt(Plan(c), PlanGuide(c), i)
    ensures i < Current(Plan(c)) ==> c.children[name].status.phase == AgentRuns.Succeeded
  {
    assert IsStageName(n, Plan(c), name);
    i :| 0 <= i < |Plan(c)| && NameAt(n, Plan(c), i) == name;
    assert StageChildFits(n, Plan(c), PlanGuide(c), c.children, i);
  }

  /** Only the current stage's AgentRun has not succeeded. */
  lemma UnfinishedIsCurrent(n: Namer, c: Cluster, name: string)
    requires Inv(n, c) && OwnedIn(c.children, name) && c.children[name].status.phase != AgentRuns.Succeeded
    ensures IsCurrent(n, c, name)
    ensures forall x | OwnedIn(c.children, x) && c.children[x].status.phase != AgentRuns.Succeeded :: x == name
  {
    if c.run.stages != [] {
      var i := OwnedIsAStage(n, c, name);
      forall x | OwnedIn(c.children, x) && c.children[x].status.phase != AgentRuns.Succeeded
        ensures x == name
      {
        var j := OwnedIsAStage(n, c, x);
      }
    }
  }

  /** An AgentRun that is there stands for the current stage or an earlier one, so
      where one is unfinished no stage is to start. */
  lemma NoStageToStartBeside(n: Namer, c: Cluster, name: string)
    requires Inv(n, c) && IsCurrent(n, c, name)
    ensures !StageToStart(n, c)
  {
  }

  lemma CurrentIsOne(n: Namer, c: Cluster, a: string, b: string)
    requires Inv(n, c) && IsCurrent(n, c, a) && IsCurrent(n, c, b)
    ensures a == b
  {
  }

  // ----- Reconciles of the run -----

  /** The stages a reconcile leaves are the plan's, the same one current or the
      next, and the next only over the run's own AgentRun that succeeded. */
  ghost predicate StagesMove(n: Namer, c: Cluster, stages: seq<StageStatus>) {
    var k := Current(Plan(c));
    && |stages| == |Plan(c)|
    && (forall i: nat | i < |stages| :: NameAt(n, stages, i) == NameAt(n, Plan(c), i))
    && (Current(stages) == k
        || (&& Current(stages) == k + 1 && k < |Plan(c)|
            && OwnedIn(c.children, NameAt(n, Plan(c), k))
            && c.children[NameAt(n, Plan(c), k)].status.phase == AgentRuns.Succeeded))
  }

  lemma StageChangeMoves(n: Namer, c: Cluster, k: nat, stage: StageStatus)
    requires Plan(c) != [] && Inv(n, c) && k == Current(Plan(c)) < |Plan(c)| && stage.def == Plan(c)[k].def
    requires stage.phase == AgentRuns.Succeeded ==>
               var name := NameAt(n, Plan(c), k);
               OwnedIn(c.children, name) && c.children[name].status.phase == AgentRuns.Succeeded
    ensures StagesMove(n, c, Plan(c)[k := stage])
  {
    CurrentIs(Plan(c)[k := stage], if stage.phase == AgentRuns.Succeeded then k + 1 else k);
    SameNames(n, Plan(c), PlanGuide(c), k, stage);
  }

  lemma TriedMovesTheStages(n: Namer, c: Cluster, run: RunStatus, k: nat, a: Attempt)
    requires Inv(n, c) && run.stages == Plan(c) && k == Current(run.stages) < |run.stages|
    ensures StagesMove(n, c, Tried(n, c, run, k, a).run.stages)
  {
    var stage := run.stages[k];
    StageChangeMoves(n, c, k, stage.(phase := AgentRuns.Failed));
    StageChangeMoves(n, c, k, stage.(agentRunName := NameAt(n, run.stages, k), phase := AgentRuns.Pending));
  }

  lemma WatchedMovesTheStages(n: Namer, c: Cluster, run: RunStatus, k: nat, a: Attempt)
    requires Inv(n, c) && run.stages == Plan(c) == c.run.stages && run.phase == AgentRuns.Running
    requires a.childRead ==> !StrangerSucceeds(c)
    requires k == Current(run.stages) < |run.stages| && run.stages[k].agentRunName != ""
    ensures StagesMove(n, c, Watched(c, run, k, a).run.stages)
  {
    var stage := run.stages[k];
    if a.childRead {
      WatchedLeaves(c, run, k, a);
      RecordedIsOwnName(n, run.stages, k);
      if stage.agentRunName in c.children {
        StageChangeMoves(n, c, k, Mirrored(stage, c.children[stage.agentRunName]));
      } else {
        StageChangeMoves(n, c, k, stage.(phase := AgentRuns.Failed));
      }
    }
  }

  lemma ReconcileMovesTheStages(n: Namer, c: Cluster, a: Attempt)
    requires Inv(n, c) && !c.run.phase.Terminal() && a.patchOk && !FollowsAStranger(c, Reconcile(a))
    ensures var stages := WorkOf(n, c, a).run.stages;
            if stages == [] then c.run.stages == [] else StagesMove(n, c, stages)
  {
    if a.workflowRead && c.workflow.Some? && c.workflow.value.ready {
      var run := Begun(c.run, c.workflow.value.definition);
      BegunIsThePlan(c);
      var k := Current(run.stages);
      if k < |run.stages| {
        var running := run.(currentStage := run.stages[k].def.name, phase := AgentRuns.Running);
        if run.stages[k].agentRunName == "" {
          TriedMovesTheStages(n, c, running, k, a);
        } else {
          WatchedMovesTheStages(n, c, running, k, a);
        }
      }
    }
  }

  /** A reconcile leaves Sandboxes, harnesses and token alone. */
  lemma ReconcileLeavesHarnesses(n: Namer, c: Cluster, a: Attempt)
    ensures var later := Reconciled(n, c, a);
            && SameHarnesses(c, later)
            && later.children == WorkOf(n, c, a).children
            && later.run == if a.patchOk then WorkOf(n, c, a).run else c.run
  {
  }

  ghost predicate SameHarnesses(c: Cluster, later: Cluster) {
    && later.sandboxes == c.sandboxes && later.harnesses == c.harnesses
    && later.revoked == c.revoked && later.lastExit == c.lastExit
    && (forall i: nat :: Running(later, i) <==> Running(c, i))
  }

  /** An AgentRun is made only where a stage is to start. */
  lemma MakingIsStarting(n: Namer, c: Cluster, work: Work, k: nat)
    requires Inv(n, c) && !c.run.phase.Terminal()
    requires k < |Plan(c)| && k == Current(Plan(c)) && CreatesAt(n, c, work, k)
    ensures StageToStart(n, c)
  {
    if c.run.stages == [] {
      FirstIsFree(n, Plan(c), PlanGuide(c), c.children);
    }
  }

  /** A reconcile that makes an AgentRun keeps the invariant. */
  lemma MakingKeepsToken(n: Namer, c: Cluster, a: Attempt, k: nat)
    requires Inv(n, c) && TokenInv(n, c) && !c.run.phase.Terminal() && !FollowsAStranger(c, Reconcile(a))
    requires k < |Plan(c)| && k == Current(Plan(c)) && CreatesAt(n, c, WorkOf(n, c, a), k)
    ensures TokenInv(n, Reconciled(n, c, a))
  {
    var later := Reconciled(n, c, a);
    MakingIsStarting(n, c, WorkOf(n, c, a), k);
    ReconcileLeavesHarnesses(n, c, a);
    if a.patchOk {
      ReconcileMovesTheStages(n, c, a);
    }
    MadeKeepsToken(n, c, later, k);
  }

  lemma MadeKeepsToken(n: Namer, c: Cluster, later: Cluster, k: nat)
    requires Inv(n, c) && TokenInv(n, c) && StageToStart(n, c) && SameHarnesses(c, later)
    requires k < |Plan(c)| && k == Current(Plan(c))
    requires later.children == c.children[NameAt(n, Plan(c), k) := NewChild(SpecAt(Plan(c), PlanGuide(c), k))]
    requires later.run.stages == c.run.stages || StagesMove(n, c, later.run.stages)
    requires !OwnedIn(c.children, NameAt(n, Plan(c), k))
    ensures TokenInv(n, later)
  {
    assert Quiet(later);
    assert forall x | OwnedIn(later.children, x) :: x == NameAt(n, Plan(c), k) || OwnedIn(c.children, x);
    forall x | IsCurrent(n, later, x)
      ensures x == NameAt(n, Plan(c), k)
    {
    }
    assert CurrentHarnessFits(n, later) && SuccessIsSettled(n, later);
  }

  /** One that makes none does too. */
  lemma MovingKeepsToken(n: Namer, c: Cluster, later: Cluster)
    requires Inv(n, c) && TokenInv(n, c) && !c.run.phase.Terminal()
    requires SameHarnesses(c, later) && later.children == c.children
    requires forall name | Taken(c, name) :: Taken(later, name)
    requires if later.run.stages == [] then c.run.stages == [] else StagesMove(n, c, later.run.stages)
    ensures TokenInv(n, later)
  {
    if later.run.stages == [] {
      SameHarnessesSameSandboxes(c, later);
      assert forall x | IsCurrent(n, later, x) :: IsCurrent(n, c, x) && HarnessFits(c, x);
    } else if Current(later.run.stages) == Current(Plan(c)) {
      StayingKeepsToken(n, c, later);
    } else {
      LeavingKeepsToken(n, c, later, Current(Plan(c)));
    }
  }

  lemma StayingKeepsToken(n: Namer, c: Cluster, later: Cluster)
    requires Inv(n, c) && TokenInv(n, c) && !c.run.phase.Terminal()
    requires SameHarnesses(c, later) && later.children == c.children
    requires forall name | Taken(c, name) :: Taken(later, name)
    requires later.run.stages != [] && StagesMove(n, c, later.run.stages)
    requires Current(later.run.stages) == Current(Plan(c))
    ensures TokenInv(n, later)
  {
    SameHarnessesSameSandboxes(c, later);
    StayingIsNoStart(n, c, later);
    forall x | IsCurrent(n, later, x)
      ensures IsCurrent(n, c, x) && HarnessFits(later, x)
    {
      assert HarnessFits(c, x);
    }
  }

  lemma StayingIsNoStart(n: Namer, c: Cluster, later: Cluster)
    requires Inv(n, c) && !c.run.phase.Terminal() && later.children == c.children
    requires forall name | Taken(c, name) :: Taken(later, name)
    requires later.run.stages != [] && StagesMove(n, c, later.run.stages)
    requires Current(later.run.stages) == Current(Plan(c))
    ensures StageToStart(n, later) ==> StageToStart(n, c)
  {
    if StageToStart(n, later) && c.run.stages == [] {
      FirstIsFree(n, Plan(c), PlanGuide(c), c.children);
    }
  }

  lemma SameHarnessesSameSandboxes(c: Cluster, later: Cluster)
    requires SameHarnesses(c, later) && later.children == c.children
    ensures NoneRunning(later) <==> NoneRunning(c)
    ensures forall x :: SandboxToMake(later, x) <==> SandboxToMake(c, x)
    ensures forall x | x in c.children :: HarnessFits(later, x) <==> HarnessFits(c, x)
  {
  }

  lemma LeavingKeepsToken(n: Namer, c: Cluster, later: Cluster, k: nat)
    requires Inv(n, c) && TokenInv(n, c) && !c.run.phase.Terminal()
    requires SameHarnesses(c, later) && later.children == c.children
    requires later.run.stages != [] && StagesMove(n, c, later.run.stages)
    requires k == Current(Plan(c)) && Current(later.run.stages) == k + 1
    ensures TokenInv(n, later)
  {
    SameHarnessesSameSandboxes(c, later);
    LeavingIsSettled(n, c, k);
    assert forall x :: !IsCurrent(n, later, x) by {
      NextIsNotThere(n, c, later, k);
    }
  }

  lemma LeavingIsSettled(n: Namer, c: Cluster, k: nat)
    requires Inv(n, c) && TokenInv(n, c) && !c.run.phase.Terminal()
    requires k == Current(Plan(c)) < |Plan(c)|
    requires OwnedIn(c.children, NameAt(n, Plan(c), k))
    requires c.children[NameAt(n, Plan(c), k)].status.phase == AgentRuns.Succeeded
    ensures Settled(c, k + 1 == |Plan(c)|)
  {
    var name := NameAt(n, Plan(c), k);
    assert StageChildFits(n, Plan(c), PlanGuide(c), c.children, k);
    RevokesByPosition(Plan(c), PlanGuide(c), k, 0);
    assert IsCurrent(n, c, name);
  }

  lemma NextIsNotThere(n: Namer, c: Cluster, later: Cluster, k: nat)
    requires Inv(n, c) && k == Current(Plan(c)) && later.children == c.children
    requires later.run.stages != [] && StagesMove(n, c, later.run.stages) && Current(later.run.stages) == k + 1
    ensures forall x :: !IsCurrent(n, later, x)
  {
    if k + 1 < |Plan(c)| {
      assert StageChildFits(n, Plan(c), PlanGuide(c), c.children, k + 1);
    }
  }

  lemma ReconcileKeepsToken(n: Namer, c: Cluster, a: Attempt)
    requires Inv(n, c) && TokenInv(n, c) && !FollowsAStranger(c, Reconcile(a))
    ensures TokenInv(n, Reconciled(n, c, a))
  {
    var later := Reconciled(n, c, a);
    ReconcileLeavesHarnesses(n, c, a);
    if c.run.phase.Terminal() {
      SameStagesSameToken(n, c, later);
    } else {
      WorkAlwaysCounts(n, c, a);
      var work := WorkOf(n, c, a);
      if work.children == c.children && work.created == c.created {
        if a.patchOk {
          ReconcileMovesTheStages(n, c, a);
          MovingKeepsToken(n, c, later);
        } else {
          SameStagesSameToken(n, c, later);
        }
      } else {
        var k: nat :| k < |Plan(c)| && k == Current(Plan(c)) && CreatesAt(n, c, work, k);
        MakingKeepsToken(n, c, a, k);
      }
    }
  }

  /** Steps that leave alone the run's own AgentRuns, its stages, the Sandboxes
      its AgentRuns want, its harnesses and the token. */
  lemma SameStagesSameToken(n: Namer, c: Cluster, later: Cluster)
    requires TokenInv(n, c)
    requires later.run.stages == c.run.stages && later.run.phase == c.run.phase
    requires later.revoked == c.revoked && later.lastExit == c.lastExit
    requires |c.harnesses| <= |later.harnesses|
    requires forall i: nat | i < |c.harnesses| :: later.harnesses[i] == c.harnesses[i]
    requires forall i: nat :: Running(later, i) <==> Running(c, i)
    requires forall x :: OwnedIn(later.children, x) <==> OwnedIn(c.children, x)
    requires forall x | OwnedIn(c.children, x) :: x in later.children && later.children[x] == c.children[x]
    requires forall x | SandboxToMake(later, x) :: SandboxToMake(c, x)
    ensures TokenInv(n, later)
  {
    assert forall x :: Taken(later, x) <==> Taken(c, x);
    assert forall x :: IsCurrent(n, later, x) <==> IsCurrent(n, c, x);
    assert NoneRunning(later) <==> NoneRunning(c);
    assert StageToStart(n, later) ==> StageToStart(n, c);
  }

  // ----- A stage left behind on a stranger's word -----

  lemma FollowedTo(n: Namer, c: Cluster, a: Attempt)
    requires Inv(n, c) && LeavesAStage(c, Reconcile(a))
    ensures var later, k := Reconciled(n, c, a), Current(c.run.stages);
            var stage := c.run.stages[k];
            var child := c.children[stage.agentRunName];
            && later == c.(run := later.run)
            && later.run.phase == (if child.status.succeeded == AgentRuns.False then AgentRuns.Failed else AgentRuns.Running)
            && later.run.stages == c.run.stages[k := Mirrored(stage, child)]
            && stage.agentRunName == NameAt(n, c.run.stages, k)
            && Current(later.run.stages) == k + 1
  {
    var k := Current(c.run.stages);
    var stage := c.run.stages[k];
    var later := Reconciled(n, c, a);
    BegunIsThePlan(c);
    WatchedLeaves(c, Begun(c.run, c.workflow.value.definition).(currentStage := stage.def.name, phase := AgentRuns.Running), k, a);
    assert later.run.stages == c.run.stages[k := Mirrored(stage, c.children[stage.agentRunName])];
    RecordedIsOwnName(n, c.run.stages, k);
    if k + 1 < |c.run.stages| {
      assert later.run.stages[k + 1] == c.run.stages[k + 1];
    }
    CurrentIs(later.run.stages, k + 1);
  }

  /** The stage after the current one has neither an AgentRun nor a recorded name. */
  lemma NextIsUntouched(n: Namer, c: Cluster, later: Cluster, k: nat)
    requires Inv(n, c) && c.run.stages != [] && k == Current(c.run.stages) && k + 1 < |c.run.stages|
    requires later.children == c.children && |later.run.stages| == |c.run.stages|
    requires forall i: nat | i < |c.run.stages| && i != k :: later.run.stages[i] == c.run.stages[i]
    requires later.run.stages[k].agentRunName == NameAt(n, c.run.stages, k)
    ensures NameAt(n, later.run.stages, k + 1) == NameAt(n, c.run.stages, k + 1)
    ensures !Taken(later, NameAt(n, later.run.stages, k + 1))
  {
    var name := NameAt(n, c.run.stages, k + 1);
    assert StageChildFits(n, c.run.stages, c.run.guide, c.children, k + 1);
    forall i | 0 <= i < |later.run.stages|
      ensures later.run.stages[i].agentRunName == "" || later.run.stages[i].agentRunName != name
    {
      if i != k && c.run.stages[i].agentRunName != "" {
        RecordedIsOwnName(n, c.run.stages, i);
      }
    }
  }

  /** Leaving a stage behind on a stranger's word keeps the invariant exactly when
      the run fails over it, or the token is as the stage should have left it. */
  lemma FollowingAStrangerKeepsToken(n: Namer, c: Cluster, a: Attempt)
    requires Inv(n, c) && TokenInv(n, c) && FollowsAStranger(c, Reconcile(a))
    ensures TokenInv(n, Reconciled(n, c, a)) <==> !StrangerUpsetsTheToken(c, Reconcile(a))
  {
    var k := Current(c.run.stages);
    var later := Reconciled(n, c, a);
    FollowedTo(n, c, a);
    assert forall i: nat :: Running(later, i) <==> Running(c, i);
    assert NoneRunning(later) <==> NoneRunning(c);
    assert forall x | SandboxToMake(later, x) :: SandboxToMake(c, x);
    if k + 1 < |c.run.stages| {
      NextIsUntouched(n, c, later, k);
      assert StageToStart(n, later) <==> !later.run.phase.Terminal();
    }
    assert forall x :: !IsCurrent(n, later, x);
  }

  lemma ReconcileKeepsTokenExactlyWhen(n: Namer, c: Cluster, a: Attempt)
    requires Inv(n, c) && TokenInv(n, c)
    ensures TokenInv(n, Reconciled(n, c, a)) <==> !StrangerUpsetsTheToken(c, Reconcile(a))
  {
    if FollowsAStranger(c, Reconcile(a)) {
      FollowingAStrangerKeepsToken(n, c, a);
    } else {
      ReconcileKeepsToken(n, c, a);
    }
  }

  // ----- Exits -----

  /** While a harness runs there is nothing to start and nothing to make, and if
      the current stage has an AgentRun, the harness is its own. */
  lemma WhileOneRuns(n: Namer, c: Cluster, i: nat)
    requires Inv(n, c) && TokenInv(n, c) && Running(c, i)
    ensures !StageToStart(n, c) && !c.revoked
    ensures forall x :: !SandboxToMake(c, x)
    ensures forall x | IsCurrent(n, c, x) :: c.children[x].harness == Some(i)
    ensures !c.run.phase.Terminal() ==>
              forall x | IsCurrent(n, c, x) :: c.children[x].status.phase != AgentRuns.Succeeded
  {
    assert !NoneRunning(c);
    forall x | IsCurrent(n, c, x)
      ensures c.children[x].harness == Some(i)
    {
      assert HarnessFits(c, x);
      assert Running(c, c.children[x].harness.value);
    }
  }

  lemma ExitKeepsTokenExactlyWhen(n: Namer, c: Cluster, i: nat, code: nat, cleaned: bool)
    requires Inv(n, c) && TokenInv(n, c)
    ensures TokenInv(n, Apply(n, c, HarnessExit(i, code, cleaned))) <==> !LeavesUncleaned(c, HarnessExit(i, code, cleaned))
  {
    var later := Apply(n, c, HarnessExit(i, code, cleaned));
    if Running(c, i) {
      WhileOneRuns(n, c, i);
      forall j: nat
        ensures !Running(later, j)
      {
        assert Running(c, j) ==> j == i;
      }
      assert forall x :: IsCurrent(n, later, x) <==> IsCurrent(n, c, x);
      assert forall x :: SandboxToMake(later, x) <==> SandboxToMake(c, x);
      assert StageToStart(n, later) <==> StageToStart(n, c);
    } else {
      StrangersExitKeepsToken(n, c, later);
    }
  }

  /** What strangers' harnesses do is nothing to the token. */
  lemma StrangersExitKeepsToken(n: Namer, c: Cluster, later: Cluster)
    requires TokenInv(n, c)
    requires later == c.(harnesses := later.harnesses) && |later.harnesses| == |c.harnesses|
    requires forall i: nat | i < |c.harnesses| && c.harnesses[i].own :: later.harnesses[i] == c.harnesses[i]
    requires forall i: nat | i < |c.harnesses| && !c.harnesses[i].own :: !later.harnesses[i].own
    ensures TokenInv(n, later)
  {
    assert forall i: nat :: Running(later, i) <==> Running(c, i);
    assert NoneRunning(later) <==> NoneRunning(c);
    assert forall x :: IsCurrent(n, later, x) <==> IsCurrent(n, c, x);
    assert forall x :: SandboxToMake(later, x) <==> SandboxToMake(c, x);
    assert StageToStart(n, later) <==> StageToStart(n, c);
    forall x | IsCurrent(n, later, x)
      ensures HarnessFits(later, x)
    {
      assert HarnessFits(c, x);
    }
  }

  // ----- Reconciles of an AgentRun -----

  lemma RunReconcileOfAnother(n: Namer, c: Cluster, s: Step)
    requires Inv(n, c) && TokenInv(n, c) && s.RunReconcile? && !OwnedIn(c.children, s.name)
    ensures TokenInv(n, Apply(n, c, s))
  {
    if s.name in c.children {
      var later := RunReconciled(c, s.name, s.w, s.patchOk);
      RunReconciledTheOne(c, s.name, s.w, s.patchOk);
      StrangersHarness(c, later);
      SameStagesSameToken(n, c, later);
    }
  }

  lemma StrangersHarness(c: Cluster, later: Cluster)
    requires |c.harnesses| <= |later.harnesses| <= |c.harnesses| + 1
    requires forall i: nat | i < |c.harnesses| :: later.harnesses[i] == c.harnesses[i]
    requires |later.harnesses| > |c.harnesses| ==> !later.harnesses[|c.harnesses|].own
    ensures forall i: nat :: Running(later, i) <==> Running(c, i)
  {
  }

  /** Making a Sandbox finds the token live, and starts the one harness that runs. */
  lemma MakingASandboxKeepsToken(n: Namer, c: Cluster, s: Step)
    requires Inv(n, c) && TokenInv(n, c) && s.RunReconcile? && OwnedIn(c.children, s.name)
    requires MakesSandbox(c, s.name, s.w)
    ensures TokenInv(n, Apply(n, c, s))
  {
    var later := Apply(n, c, s);
    var i := |c.harnesses|;
    var child := c.children[s.name];
    assert SandboxToMake(c, s.name);
    assert Quiet(c);
    UnfinishedIsCurrent(n, c, s.name);
    NoStageToStartBeside(n, c, s.name);
    assert later.harnesses == c.harnesses + [Harness(true, child.spec, None)];
    assert forall j: nat :: Running(later, j) ==> j == i || Running(c, j);
    assert Taken(later, s.name) && forall x :: Taken(later, x) <==> Taken(c, x);
    assert !StageToStart(n, later);
    MakingLeavesItUnfinished(c, s);
    assert forall x :: !SandboxToMake(later, x);
    forall x | IsCurrent(n, later, x)
      ensures x == s.name
    {
      CurrentIsOne(n, c, x, s.name);
    }
  }

  lemma MakingLeavesItUnfinished(c: Cluster, s: Step)
    requires s.RunReconcile? && MakesSandbox(c, s.name, s.w)
    ensures RunStatusAfter(c, s.name, s.w, s.patchOk).phase != AgentRuns.Succeeded
  {
  }

  /** What else a reconcile does to the run's own AgentRun. */
  lemma RunReconcileWithoutMaking(n: Namer, c: Cluster, s: Step)
    requires Inv(n, c) && TokenInv(n, c) && s.RunReconcile? && OwnedIn(c.children, s.name)
    requires !MakesSandbox(c, s.name, s.w) && Honest(c, s)
    ensures TokenInv(n, Apply(n, c, s)) <==> !AnothersSandboxUpsetsTheToken(c, s)
  {
    RunStatusMoves(c, s.name, s.w, s.patchOk);
    NewStatusLeavesTheRest(n, c, s.name, RunStatusAfter(c, s.name, s.w, s.patchOk));
    SuccessStaysSettledExactlyWhen(n, c, s);
  }

  /** Of the invariant, only what is said of success is at stake. */
  lemma NewStatusLeavesTheRest(n: Namer, c: Cluster, name: string, after: AgentRuns.RunStatus)
    requires TokenInv(n, c) && OwnedIn(c.children, name)
    requires c.children[name].status.phase.Terminal() ==> after.phase.Terminal()
    requires c.children[name].status.sandboxName != "" ==> after.sandboxName == c.children[name].status.sandboxName
    ensures var later := c.(children := c.children[name := c.children[name].(status := after)]);
            TokenInv(n, later) <==> SuccessIsSettled(n, later)
  {
    var later := c.(children := c.children[name := c.children[name].(status := after)]);
    assert forall i: nat :: Running(later, i) <==> Running(c, i);
    assert Quiet(later) <==> Quiet(c);
    assert forall x :: OwnedIn(later.children, x) <==> OwnedIn(c.children, x);
    assert forall x :: IsCurrent(n, later, x) <==> IsCurrent(n, c, x);
    assert forall x :: Taken(later, x) <==> Taken(c, x);
    assert StageToStart(n, later) <==> StageToStart(n, c);
    assert forall x | SandboxToMake(later, x) :: SandboxToMake(c, x);
    forall x | IsCurrent(n, later, x)
      ensures HarnessFits(later, x)
    {
      assert HarnessFits(c, x);
    }
  }

  /** No reconcile takes a finished run or a recorded Sandbox back. */
  lemma RunStatusMoves(c: Cluster, name: string, w: AgentRuns.World, patchOk: bool)
    requires OwnedIn(c.children, name)
    requires AgentRuns.Coherent(c.children[name].status)
    ensures c.children[name].status.phase.Terminal() ==> RunStatusAfter(c, name, w, patchOk).phase.Terminal()
    ensures c.children[name].status.sandboxName != "" ==>
              RunStatusAfter(c, name, w, patchOk).sandboxName == c.children[name].status.sandboxName
  {
    var named := if w.create.Created? then w.(create := AgentRuns.Created(name)) else w;
    AgentRuns.ReconcileKeepsCoherence(c.children[name].status, named, patchOk);
  }

  lemma SuccessStaysSettledExactlyWhen(n: Namer, c: Cluster, s: Step)
    requires Inv(n, c) && TokenInv(n, c) && s.RunReconcile? && OwnedIn(c.children, s.name)
    requires !MakesSandbox(c, s.name, s.w) && Honest(c, s)
    ensures SuccessIsSettled(n, Apply(n, c, s)) <==> !AnothersSandboxUpsetsTheToken(c, s)
  {
    var later := Apply(n, c, s);
    var child := c.children[s.name];
    var after := RunStatusAfter(c, s.name, s.w, s.patchOk);
    assert later == c.(children := c.children[s.name := child.(status := after)]);
    assert NoneRunning(later) <==> NoneRunning(c) by {
      assert forall i: nat :: Running(later, i) <==> Running(c, i);
    }
    RunStatusStaysCoherent(c, s.name, s.w, s.patchOk);
    if !child.status.phase.Terminal() && after.phase == AgentRuns.Succeeded && !c.run.phase.Terminal() {
      UnfinishedIsCurrent(n, c, s.name);
      WorkflowSafety.SuccessIsItsSandboxs(c, s.name, s.w, s.patchOk);
      assert HarnessFits(c, s.name);
      assert later.children[s.name].spec == child.spec;
      assert IsCurrent(n, later, s.name);
      forall x | IsCurrent(n, later, x)
        ensures x == s.name
      {
        CurrentIsOne(n, c, x, s.name);
      }
    } else {
      forall x | IsCurrent(n, later, x) && later.children[x].status.phase == AgentRuns.Succeeded && !c.run.phase.Terminal()
        ensures Settled(later, IsLast(later.children[x].spec))
      {
        assert IsCurrent(n, c, x) && c.children[x].status.phase == AgentRuns.Succeeded;
      }
    }
  }

  lemma RunReconcileKeepsTokenExactlyWhen(n: Namer, c: Cluster, s: Step)
    requires Inv(n, c) && TokenInv(n, c) && s.RunReconcile? && Honest(c, s)
    ensures TokenInv(n, Apply(n, c, s)) <==> !AnothersSandboxUpsetsTheToken(c, s)
  {
    if !OwnedIn(c.children, s.name) {
      RunReconcileOfAnother(n, c, s);
    } else if MakesSandbox(c, s.name, s.w) {
      MakingASandboxKeepsToken(n, c, s);
      MakingLeavesItUnfinished(c, s);
    } else {
      RunReconcileWithoutMaking(n, c, s);
    }
  }

  // ----- Deletions -----

  lemma UnrecordedIsCurrent(n: Namer, c: Cluster, name: string)
    requires Inv(n, c) && OwnedIn(c.children, name) && !Recorded(c.run, name)
    ensures IsCurrent(n, c, name)
    ensures Plan(c) != [] ==> name == NameAt(n, Plan(c), Current(Plan(c))) && Plan(c)[Current(Plan(c))].agentRunName == ""
  {
    if Plan(c) != [] {
      var i := OwnedIsAStage(n, c, name);
      if c.run.stages != [] {
        assert c.run.stages[i].agentRunName != name;
      } else {
        assert Plan(c)[0].phase == AgentRuns.Pending;
      }
    }
  }

  /** Once an unrecorded AgentRun is deleted, its stage is to start. */
  lemma DroppedIsToStart(n: Namer, c: Cluster, name: string)
    requires Inv(n, c) && OwnedIn(c.children, name) && !Recorded(c.run, name) && !c.run.phase.Terminal()
    ensures StageToStart(n, Apply(n, c, DeleteChild(name)))
  {
    var later := Apply(n, c, DeleteChild(name));
    UnrecordedIsCurrent(n, c, name);
    assert !OwnedIn(later.children, name) && later.run == c.run;
    assert forall x | OwnedIn(later.children, x) :: OwnedIn(c.children, x);
  }

  lemma DeletionKeepsTokenExactlyWhen(n: Namer, c: Cluster, name: string)
    requires Inv(n, c) && TokenInv(n, c)
    ensures TokenInv(n, Apply(n, c, DeleteChild(name))) <==> !DropsTheAgentRun(c, DeleteChild(name))
  {
    var later := Apply(n, c, DeleteChild(name));
    DeletionLeavesTheRest(n, c, name);
    if OwnedIn(c.children, name) && !Recorded(c.run, name) && !c.run.phase.Terminal() {
      DroppedIsToStart(n, c, name);
    } else {
      DeletedIsStillTaken(n, c, name);
    }
  }

  /** Of the invariant, only what is said of a stage to start is at stake. */
  lemma DeletionLeavesTheRest(n: Namer, c: Cluster, name: string)
    requires TokenInv(n, c)
    ensures var later := Apply(n, c, DeleteChild(name));
            && (Quiet(later) <==> Quiet(c))
            && (TokenInv(n, later) <==> (StageToStart(n, later) ==> Quiet(c)))
  {
    var later := Apply(n, c, DeleteChild(name));
    assert forall i: nat :: Running(later, i) <==> Running(c, i);
    assert forall x | OwnedIn(later.children, x) :: OwnedIn(c.children, x) && later.children[x] == c.children[x];
    assert forall x | SandboxToMake(later, x) :: SandboxToMake(c, x);
    forall x | IsCurrent(n, later, x)
      ensures IsCurrent(n, c, x) && HarnessFits(later, x)
    {
      assert HarnessFits(c, x);
    }
  }

  lemma DeletedIsStillTaken(n: Namer, c: Cluster, name: string)
    requires Inv(n, c)
    requires !OwnedIn(c.children, name) || Recorded(c.run, name) || c.run.phase.Terminal()
    ensures StageToStart(n, Apply(n, c, DeleteChild(name))) ==> StageToStart(n, c)
  {
    var later := Apply(n, c, DeleteChild(name));
    assert later.run == c.run;
    if StageToStart(n, later) {
      assert forall x | x != name :: OwnedIn(later.children, x) <==> OwnedIn(c.children, x);
      if c.run.stages != [] {
        var current := NameAt(n, c.run.stages, Current(c.run.stages));
        assert current != "" by {
          assert Nameable(n, c.run.stages);
        }
      }
    }
  }

  lemma SandboxDeletionKeepsTokenExactlyWhen(n: Namer, c: Cluster, name: string)
    requires Inv(n, c) && TokenInv(n, c)
    ensures TokenInv(n, Apply(n, c, DeleteSandbox(name))) <==> !DropsTheSandbox(c, DeleteSandbox(name))
  {
    var later := Apply(n, c, DeleteSandbox(name));
    SandboxDeletionLeavesTheRest(n, c, later, name);
    assert later.children == c.children && name !in later.sandboxes;
    assert name !in c.sandboxes ==> (SandboxToMake(later, name) <==> SandboxToMake(c, name));
  }

  /** Of the invariant, only what is said of a Sandbox to make is at stake. */
  lemma SandboxDeletionLeavesTheRest(n: Namer, c: Cluster, later: Cluster, name: string)
    requires TokenInv(n, c) && later == c.(sandboxes := c.sandboxes - {name})
    ensures TokenInv(n, later) <==> (SandboxToMake(later, name) ==> Quiet(c))
  {
    assert forall i: nat :: Running(later, i) <==> Running(c, i);
    assert Quiet(later) <==> Quiet(c);
    assert forall x :: IsCurrent(n, later, x) <==> IsCurrent(n, c, x);
    assert StageToStart(n, later) <==> StageToStart(n, c);
    forall x | IsCurrent(n, later, x)
      ensures HarnessFits(later, x)
    {
      assert HarnessFits(c, x);
    }
    assert forall x | SandboxToMake(later, x) :: x == name || SandboxToMake(c, x);
  }

  // ----- Every step -----

  /** What the theorems below exclude is exactly what breaks them: with Sandboxes
      that tell the truth, a step keeps the invariant if and only if it is fair. */
  lemma StepKeepsToken(n: Namer, c: Cluster, s: Step)
    requires Inv(n, c) && TokenInv(n, c) && Honest(c, s)
    ensures TokenInv(n, Apply(n, c, s)) <==> Fair(c, s)
  {
    FairByKind(c, s);
    match s
    case Reconcile(a) => ReconcileKeepsTokenExactlyWhen(n, c, a);
    case RunReconcile(_, _, _) => RunReconcileKeepsTokenExactlyWhen(n, c, s);
    case HarnessExit(i, code, cleaned) => ExitKeepsTokenExactlyWhen(n, c, i, code, cleaned);
    case DeleteChild(name) => DeletionKeepsTokenExactlyWhen(n, c, name);
    case DeleteSandbox(name) => SandboxDeletionKeepsTokenExactlyWhen(n, c, name);
    case _ => OthersKeepToken(n, c, s);
  }

  lemma FairByKind(c: Cluster, s: Step)
    requires Honest(c, s)
    ensures s.Reconcile? ==> (Fair(c, s) <==> !StrangerUpsetsTheToken(c, s))
    ensures s.RunReconcile? ==> (Fair(c, s) <==> !AnothersSandboxUpsetsTheToken(c, s))
    ensures s.HarnessExit? ==> (Fair(c, s) <==> !LeavesUncleaned(c, s))
    ensures s.DeleteChild? ==> (Fair(c, s) <==> !DropsTheAgentRun(c, s))
    ensures s.DeleteSandbox? ==> (Fair(c, s) <==> !DropsTheSandbox(c, s))
    ensures s.SetReady? || s.Edit? || s.ForeignCreate? || s.ForeignSandbox? ==> Fair(c, s)
  {
  }

  lemma OthersKeepToken(n: Namer, c: Cluster, s: Step)
    requires TokenInv(n, c)
    requires s.SetReady? || s.Edit? || s.ForeignCreate? || s.ForeignSandbox?
    ensures TokenInv(n, Apply(n, c, s))
  {
    var later := Apply(n, c, s);
    if s.ForeignCreate? {
      ForeignChildKeepsToken(n, c, later);
    } else if s.ForeignSandbox? {
      ForeignSandboxKeepsToken(n, c, s.name, s.spec);
    } else {
      assert later == c.(workflow := later.workflow);
      StrangersHarness(c, later);
      SameStagesSameToken(n, c, later);
    }
  }

  lemma ForeignChildKeepsToken(n: Namer, c: Cluster, later: Cluster)
    requires TokenInv(n, c) && later == c.(children := later.children)
    requires forall x :: OwnedIn(later.children, x) <==> OwnedIn(c.children, x)
    requires forall x | x in c.children :: x in later.children && later.children[x] == c.children[x]
    ensures TokenInv(n, later)
  {
    StrangersHarness(c, later);
    SameStagesSameToken(n, c, later);
  }

  lemma ForeignSandboxKeepsToken(n: Namer, c: Cluster, name: string, spec: ChildSpec)
    requires TokenInv(n, c)
    ensures TokenInv(n, Apply(n, c, ForeignSandbox(name, spec)))
  {
    var later := Apply(n, c, ForeignSandbox(name, spec));
    StrangersHarness(c, later);
    SameStagesSameToken(n, c, later);
  }

  lemma InitialToken(n: Namer, c: Cluster)
    requires Initial(n, c)
    ensures TokenInv(n, c)
  {
    assert forall i: nat | i < |c.harnesses| :: c.harnesses[i] in c.harnesses;
  }

  lemma {:induction false} EveryRunKeepsToken(n: Namer, c: Cluster, steps: seq<Step>)
    requires Inv(n, c) && TokenInv(n, c) && Legal(n, c, steps) && FairRun(n, c, steps)
    ensures Inv(n, Exec(n, c, steps)) && TokenInv(n, Exec(n, c, steps))
    decreases |steps|
  {
    if steps == [] {
    } else {
      StepKeepsInv(n, c, steps[0]);
      StepKeepsToken(n, c, steps[0]);
      EveryRunKeepsToken(n, Apply(n, c, steps[0]), steps[1..]);
    }
  }

  // ----- What follows -----

  /** The last harness to exit failed, or was the last stage's. */
  predicate LastExitRevoked(c: Cluster) {
    c.lastExit.Some? && (c.lastExit.value.code != 0 || IsLast(c.lastExit.value.spec))
  }

  /** Every AgentRun made for the run, and every Sandbox made for one of its
      AgentRuns, finds the token live and no harness left to revoke it. */
  ghost predicate StartsFindTheToken(n: Namer, c: Cluster) {
    && (forall s, name | OwnedIn(Apply(n, c, s).children, name) && !OwnedIn(c.children, name) :: Quiet(c))
    && (forall s, i: nat | Running(Apply(n, c, s), i) && !Running(c, i) :: Quiet(c))
  }

  /** Over every fair run, at any point, ended or not: the token is gone exactly
      when the last harness to exit failed or was the last stage's. Harnesses run
      one at a time, each to its end with the token live, and every AgentRun and
      every Sandbox is made with the token live. A run that succeeded has none left. */
  lemma TokenOutlivesEveryStageAndNoLonger(n: Namer, c: Cluster, steps: seq<Step>)
    requires Initial(n, c) && Legal(n, c, steps) && FairRun(n, c, steps)
    ensures var end := Exec(n, c, steps);
            && (end.revoked <==> LastExitRevoked(end))
            && OneRunsAndFindsTheToken(end)
            && StartsFindTheToken(n, end)
            && (end.run.phase == AgentRuns.Succeeded && end.run.stages != [] ==> end.revoked)
  {
    InitialInv(n, c);
    InitialToken(n, c);
    EveryRunKeepsToken(n, c, steps);
    var end := Exec(n, c, steps);
    forall s, name | OwnedIn(Apply(n, end, s).children, name) && !OwnedIn(end.children, name)
      ensures Quiet(end)
    {
      StartedStageFindsTheToken(n, end, s, name);
    }
    forall s, i: nat | Running(Apply(n, end, s), i) && !Running(end, i)
      ensures Quiet(end)
    {
      StartedHarnessFindsTheToken(n, end, s, i);
    }
  }

  lemma StartedStageFindsTheToken(n: Namer, c: Cluster, s: Step, name: string)
    requires Inv(n, c) && TokenInv(n, c)
    requires OwnedIn(Apply(n, c, s).children, name) && !OwnedIn(c.children, name)
    ensures Quiet(c)
  {
    assert s.Reconcile?;
    WorkAlwaysCounts(n, c, s.a);
    var work := WorkOf(n, c, s.a);
    var k: nat :| k < |Plan(c)| && k == Current(Plan(c)) && CreatesAt(n, c, work, k);
    MakingIsStarting(n, c, work, k);
  }

  lemma StartedHarnessFindsTheToken(n: Namer, c: Cluster, s: Step, i: nat)
    requires Inv(n, c) && TokenInv(n, c)
    requires Running(Apply(n, c, s), i) && !Running(c, i)
    ensures Quiet(c)
  {
    assert s.RunReconcile? && s.name in c.children;
    assert MakesSandbox(c, s.name, s.w);
    assert SandboxToMake(c, s.name);
  }

  /** While the current stage's AgentRun exists the token is gone exactly when the
      harness it started has exited and failed or was the last: not before, so a
      stage that fails before its harness exits leaves the token live. */
  lemma TokenGoneExactlyWhen(n: Namer, c: Cluster)
    requires Inv(n, c) && TokenInv(n, c) && c.run.stages != []
    requires Current(c.run.stages) < |c.run.stages|
    requires OwnedIn(c.children, NameAt(n, c.run.stages, Current(c.run.stages)))
    ensures var k := Current(c.run.stages);
            var harness := c.children[NameAt(n, c.run.stages, k)].harness;
            && (harness.Some? ==> harness.value < |c.harnesses|)
            && (c.revoked <==>
                  && harness.Some? && c.harnesses[harness.value].exit.Some?
                  && (c.harnesses[harness.value].exit.value != 0 || k + 1 == |c.run.stages|))
  {
    var k := Current(c.run.stages);
    var name := NameAt(n, c.run.stages, k);
    assert IsCurrent(n, c, name) && HarnessFits(c, name);
    assert StageChildFits(n, Plan(c), PlanGuide(c), c.children, k);
    if c.children[name].harness.Some? {
      var i := c.children[name].harness.value;
      if c.harnesses[i].exit.Some? {
        RevokesByPosition(c.run.stages, c.run.guide, k, c.harnesses[i].exit.value);
      } else {
        assert Running(c, i);
      }
    }
  }

  // ----- Where the run ends and the token does not -----

  /** A recorded stage whose AgentRun fails before its harness has exited ends the
      run with the token live. */
  lemma FailingBeforeTheHarnessLeavesTheToken(n: Namer, c: Cluster, a: Attempt)
    requires Inv(n, c) && TokenInv(n, c) && c.workflow.Some? && c.workflow.value.ready
    requires !c.run.phase.Terminal() && Current(c.run.stages) < |c.run.stages|
    requires a.workflowRead && a.childRead && a.patchOk
    requires var name := c.run.stages[Current(c.run.stages)].agentRunName;
             && name != "" && OwnedIn(c.children, name)
             && WorkflowSafety.OwnExit(c, name).None? && c.children[name].status.succeeded == AgentRuns.False
    ensures var later := Reconciled(n, c, a);
            later.run.phase == AgentRuns.Failed && !later.revoked
  {
    RecordedIsOwnName(n, c.run.stages, Current(c.run.stages));
    TokenGoneExactlyWhen(n, c);
  }

  /** A stage with another to follow succeeds, its AgentRun is deleted before the
      workflow sees that, and the run fails over the deletion with the token live. */
  lemma TokenLeftToExpire(n: Namer, c: Cluster, a: Attempt)
    requires Inv(n, c) && TokenInv(n, c) && c.workflow.Some? && c.workflow.value.ready
    requires !c.run.phase.Terminal() && c.run.stages != []
    requires a.workflowRead && a.childRead && a.patchOk
    requires var k := Current(c.run.stages);
             && k + 1 < |c.run.stages| && c.run.stages[k].agentRunName != ""
             && OwnedIn(c.children, c.run.stages[k].agentRunName)
             && WorkflowSafety.OwnExit(c, c.run.stages[k].agentRunName) == Some(0)
    ensures var name := c.run.stages[Current(c.run.stages)].agentRunName;
            var later := Reconciled(n, Apply(n, c, DeleteChild(name)), a);
            later.run.phase == AgentRuns.Failed && !later.revoked
  {
    RecordedIsOwnName(n, c.run.stages, Current(c.run.stages));
    TokenGoneExactlyWhen(n, c);
  }

  // ----- What each exclusion excludes: a harness without a token -----

  /** A harness that still runs has no token. */
  ghost predicate OneRunsWithoutToken(c: Cluster) { c.revoked && exists i: nat :: Running(c, i) }

  /** A reconcile of an AgentRun that makes it a Sandbox if none bears its name. */
  predicate WouldMake(w: AgentRuns.World) {
    w.agent == AgentRuns.AgentReady && w.preflight == AgentRuns.Admissible && !w.create.CreateFailed?
  }

  /** Steps without an edit of the workflow: any such steps are a run. */
  predicate NoEdits(steps: seq<Step>) { forall s | s in steps :: !s.Edit? }

  /** Where a Sandbox is to make and a harness runs still or the token is gone,
      there comes a harness without a token. */
  lemma SandboxMadeUnquietly(n: Namer, c: Cluster, name: string, w: AgentRuns.World) returns (steps: seq<Step>)
    requires SandboxToMake(c, name) && !Quiet(c) && WouldMake(w)
    ensures NoEdits(steps)
    ensures OneRunsWithoutToken(Exec(n, c, steps))
  {
    var make := RunReconcile(name, w, true);
    var made := Apply(n, c, make);
    var i := |c.harnesses|;
    assert MakesSandbox(c, name, w) && Running(made, i);
    steps := [];
    if !c.revoked {
      var prior: nat :| Running(c, prior);
      var exit := HarnessExit(prior, 1, true);
      assert Running(made, prior) && made.harnesses[prior] == c.harnesses[prior];
      var end := Apply(n, made, exit);
      assert Running(end, i) && end.revoked;
      steps := [exit];
      Onward(n, made, exit, []);
      assert [exit] + [] == [exit];
    }
    Onward(n, c, make, steps);
    steps := [make] + steps;
  }

  /** So where a stage is to start, if its names are free. */
  lemma StageStartedUnquietly(n: Namer, c: Cluster, a: Attempt, w: AgentRuns.World) returns (steps: seq<Step>)
    requires Inv(n, c) && StageToStart(n, c) && !Quiet(c) && WouldMake(w)
    requires Plan(c) != [] && c.workflow.Some? && c.workflow.value.ready
    requires a.workflowRead && a.agentRead && a.configOk && a.create == CallOk
    requires var name := NameAt(n, Plan(c), Current(Plan(c))); name !in c.children && name !in c.sandboxes
    ensures NoEdits(steps)
    ensures OneRunsWithoutToken(Exec(n, c, steps))
  {
    var start := Reconcile(a);
    var later := Apply(n, c, start);
    var name := NameAt(n, Plan(c), Current(Plan(c)));
    ReconcileLeavesHarnesses(n, c, a);
    StartedByTheReconcile(n, c, a);
    assert SandboxToMake(later, name) && !Quiet(later);
    steps := SandboxMadeUnquietly(n, later, name, w);
    Onward(n, c, start, steps);
    steps := [start] + steps;
  }

  lemma StartedByTheReconcile(n: Namer, c: Cluster, a: Attempt)
    requires Inv(n, c) && StageToStart(n, c) && Plan(c) != [] && c.workflow.Some? && c.workflow.value.ready
    requires a.workflowRead && a.agentRead && a.configOk && a.create == CallOk
    requires NameAt(n, Plan(c), Current(Plan(c))) !in c.children
    ensures var name := NameAt(n, Plan(c), Current(Plan(c)));
            var later := Reconciled(n, c, a);
            && OwnedIn(later.children, name) && later.children[name].status == AgentRuns.FreshStatus
  {
    BegunIsThePlan(c);
    var k := Current(Plan(c));
    if Plan(c)[k].agentRunName != "" {
      RecordedIsOwnName(n, Plan(c), k);
      assert false;
    }
    assert WorkOf(n, c, a) == Driven(n, c, Begun(c.run, c.workflow.value.definition), a);
  }

  /** An unrecorded AgentRun is deleted while its harness is running or has
      revoked, and its Sandbox with it: the stage is started again, and its second
      harness runs without a token. */
  lemma RestartAfterADropHasNoToken(n: Namer, c: Cluster, name: string, a: Attempt, w: AgentRuns.World)
    returns (steps: seq<Step>)
    requires Inv(n, c) && Plan(c) != [] && c.workflow.Some? && c.workflow.value.ready
    requires DropsTheAgentRun(c, DeleteChild(name))
    requires a.workflowRead && a.agentRead && a.configOk && a.create == CallOk && WouldMake(w)
    ensures NoEdits(steps)
    ensures OneRunsWithoutToken(Exec(n, c, [DeleteChild(name), DeleteSandbox(name)] + steps))
  {
    var drop, collect := DeleteChild(name), DeleteSandbox(name);
    var c1 := Apply(n, c, drop);
    var c2 := Apply(n, c1, collect);
    UnrecordedIsCurrent(n, c, name);
    DroppedIsToStart(n, c, name);
    DeletionKeepsInv(n, c, name);
    SandboxesKeepInv(n, c1, c2);
    assert Plan(c2) == Plan(c);
    assert Quiet(c2) <==> Quiet(c) by {
      assert forall i: nat :: Running(c2, i) <==> Running(c, i);
    }
    assert StageToStart(n, c2) by {
      assert forall x :: Taken(c2, x) <==> Taken(c1, x);
    }
    steps := StageStartedUnquietly(n, c2, a, w);
    Onward(n, c1, collect, steps);
    Onward(n, c, drop, [collect] + steps);
    assert [drop] + ([collect] + steps) == [drop, collect] + steps;
  }

  /** A Sandbox its AgentRun has not recorded is deleted while its harness is
      running or has revoked: the AgentRun makes another, whose harness runs
      without a token. */
  lemma SecondSandboxHasNoToken(n: Namer, c: Cluster, name: string, w: AgentRuns.World) returns (steps: seq<Step>)
    requires DropsTheSandbox(c, DeleteSandbox(name)) && WouldMake(w)
    ensures NoEdits(steps)
    ensures OneRunsWithoutToken(Exec(n, c, [DeleteSandbox(name)] + steps))
  {
    var later := Apply(n, c, DeleteSandbox(name));
    assert Quiet(later) <==> Quiet(c) by {
      assert forall i: nat :: Running(later, i) <==> Running(c, i);
    }
    assert SandboxToMake(later, name);
    steps := SandboxMadeUnquietly(n, later, name, w);
    Onward(n, c, DeleteSandbox(name), steps);
  }

  /** A stage is left behind, on anybody's word, with a harness still running or
      the token gone: the next one starts, its names being free, and there comes a
      harness without a token. */
  lemma LeftBehindUnquietly(n: Namer, c: Cluster, a: Attempt, w: AgentRuns.World) returns (steps: seq<Step>)
    requires Inv(n, c) && LeavesAStage(c, Reconcile(a)) && GoesOn(c)
    requires Current(c.run.stages) + 1 < |c.run.stages| && !Settled(c, false)
    requires var next := NameAt(n, c.run.stages, Current(c.run.stages) + 1); next !in c.children && next !in c.sandboxes
    requires a.agentRead && a.configOk && a.create == CallOk && WouldMake(w)
    ensures NoEdits(steps)
    ensures OneRunsWithoutToken(Exec(n, c, [Reconcile(a)] + steps))
  {
    var k := Current(c.run.stages);
    var later := Apply(n, c, Reconcile(a));
    FollowedTo(n, c, a);
    NextIsUntouched(n, c, later, k);
    ReconcileKeepsInv(n, c, a);
    assert Quiet(later) <==> Quiet(c) by {
      assert forall i: nat :: Running(later, i) <==> Running(c, i);
    }
    steps := StageStartedUnquietly(n, later, a, w);
    Onward(n, c, Reconcile(a), steps);
  }

  /** Or it was the last and the token is live: the run succeeds and leaves it so. */
  lemma SucceedsWithToken(n: Namer, c: Cluster, a: Attempt)
    requires Inv(n, c) && LeavesAStage(c, Reconcile(a)) && GoesOn(c)
    requires Current(c.run.stages) + 1 == |c.run.stages| && !c.revoked
    ensures var later := Reconciled(n, Reconciled(n, c, a), a);
            later.run.phase == AgentRuns.Succeeded && !later.revoked
  {
    FollowedTo(n, c, a);
    BegunIsThePlan(Reconciled(n, c, a));
  }

  /** The strangers excluded do one or the other. */
  lemma FollowingAStrangerDoesHarm(n: Namer, c: Cluster, a: Attempt, w: AgentRuns.World) returns (steps: seq<Step>)
    requires Inv(n, c) && TokenInv(n, c) && StrangerUpsetsTheToken(c, Reconcile(a))
    requires a.agentRead && a.configOk && a.create == CallOk && WouldMake(w)
    requires var k := Current(c.run.stages);
             k + 1 < |c.run.stages| ==>
               NameAt(n, c.run.stages, k + 1) !in c.children && NameAt(n, c.run.stages, k + 1) !in c.sandboxes
    ensures NoEdits(steps)
    ensures var end := Exec(n, c, [Reconcile(a)] + steps);
            OneRunsWithoutToken(end) || (end.run.phase == AgentRuns.Succeeded && !end.revoked)
  {
    steps := LeftBehindUnsettled(n, c, a, w);
  }

  lemma LeftBehindUnsettled(n: Namer, c: Cluster, a: Attempt, w: AgentRuns.World) returns (steps: seq<Step>)
    requires Inv(n, c) && OneRunsAndFindsTheToken(c) && LeavesAStage(c, Reconcile(a)) && GoesOn(c)
    requires !Settled(c, Current(c.run.stages) + 1 == |c.run.stages|)
    requires a.agentRead && a.configOk && a.create == CallOk && WouldMake(w)
    requires var k := Current(c.run.stages);
             k + 1 < |c.run.stages| ==>
               NameAt(n, c.run.stages, k + 1) !in c.children && NameAt(n, c.run.stages, k + 1) !in c.sandboxes
    ensures NoEdits(steps)
    ensures var end := Exec(n, c, [Reconcile(a)] + steps);
            OneRunsWithoutToken(end) || (end.run.phase == AgentRuns.Succeeded && !end.revoked)
  {
    if Current(c.run.stages) + 1 < |c.run.stages| {
      steps := LeftBehindUnquietly(n, c, a, w);
    } else {
      SucceedsWithToken(n, c, a);
      var mid := Apply(n, c, Reconcile(a));
      steps := [Reconcile(a)];
      Onward(n, mid, Reconcile(a), []);
      assert [Reconcile(a)] + [] == [Reconcile(a)];
      Onward(n, c, Reconcile(a), steps);
    }
  }

  /** The AgentRun that so succeeded is the current stage's, and is followed. */
  lemma AnothersSuccessIsFollowed(n: Namer, c: Cluster, s: Step, a: Attempt)
    requires Inv(n, c) && OneRunsAndFindsTheToken(c) && AnothersSandboxUpsetsTheToken(c, s) && Recorded(c.run, s.name)
    requires c.workflow.Some? && c.workflow.value.ready && a.workflowRead && a.childRead && a.patchOk
    ensures var later := Apply(n, c, s);
            && later == c.(children := c.children[s.name := later.children[s.name]])
            && OneRunsAndFindsTheToken(later)
            && LeavesAStage(later, Reconcile(a)) && GoesOn(later)
            && Current(c.run.stages) < |c.run.stages|
            && NameAt(n, c.run.stages, Current(c.run.stages)) == s.name
            && !Settled(later, Current(c.run.stages) + 1 == |c.run.stages|)
  {
    var k := Current(c.run.stages);
    var later := Apply(n, c, s);
    UnfinishedIsCurrent(n, c, s.name);
    RunStatusStaysCoherent(c, s.name, s.w, s.patchOk);
    RecordedIsTheCurrentName(n, c, s.name);
    assert !MakesSandbox(c, s.name, s.w);
    assert later == c.(children := c.children[s.name := later.children[s.name]]);
    assert forall i: nat :: Running(later, i) <==> Running(c, i);
    assert StageChildFits(n, c.run.stages, c.run.guide, c.children, k);
    RevokesByPosition(c.run.stages, c.run.guide, k, 0);
  }

  lemma RecordedIsTheCurrentName(n: Namer, c: Cluster, name: string)
    requires Inv(n, c) && IsCurrent(n, c, name) && Recorded(c.run, name)
    ensures Current(c.run.stages) < |c.run.stages| && c.run.stages[Current(c.run.stages)].agentRunName == name
  {
    var i :| 0 <= i < |c.run.stages| && c.run.stages[i].agentRunName == name;
    RecordedIsOwnName(n, c.run.stages, i);
  }

  /** So do the Sandboxes excluded, once the AgentRun that succeeded on one is
      recorded. */
  lemma AnothersSandboxDoesHarm(n: Namer, c: Cluster, s: Step, a: Attempt, w: AgentRuns.World)
    returns (steps: seq<Step>)
    requires Inv(n, c) && TokenInv(n, c) && AnothersSandboxUpsetsTheToken(c, s) && Recorded(c.run, s.name)
    requires c.workflow.Some? && c.workflow.value.ready && a.workflowRead && a.childRead && a.patchOk
    requires a.agentRead && a.configOk && a.create == CallOk && WouldMake(w)
    requires var k := Current(c.run.stages);
             k + 1 < |c.run.stages| ==>
               NameAt(n, c.run.stages, k + 1) !in c.children && NameAt(n, c.run.stages, k + 1) !in c.sandboxes
    ensures NoEdits(steps)
    ensures var end := Exec(n, c, [s, Reconcile(a)] + steps);
            OneRunsWithoutToken(end) || (end.run.phase == AgentRuns.Succeeded && !end.revoked)
  {
    var later := Apply(n, c, s);
    AnothersSuccessIsFollowed(n, c, s, a);
    RunReconcileKeepsInv(n, c, s.name, s.w, s.patchOk);
    steps := LeftBehindUnsettled(n, later, a, w);
    Onward(n, c, s, [Reconcile(a)] + steps);
    assert [s] + ([Reconcile(a)] + steps) == [s, Reconcile(a)] + steps;
  }
}
