/**
 What holds over every run of the workflow system: one AgentRun per stage, in
 order, from the snapshot; terminal states are final; progress is bounded and
 never blocked by the reconciler itself.
 */
module WorkflowSafety {
  import opened Wrappers
  import Text
  import AgentRuns
  import opened Workflow
  import opened WorkflowSystem

  // ----- One AgentRun per stage, in order, from the snapshot -----

  /** The recorded stages read Succeeded, then at most one current stage, then
      untouched ones, and every AgentRun the run owns is that of a stage no later
      than the current one, made from the snapshot. */
  ghost predicate FollowsItsSnapshot(n: Namer, c: Cluster) {
    c.run.stages != [] ==>
      && Shape(n, c.run.stages)
      && forall name | OwnedIn(c.children, name) :: IsOfTheSnapshot(n, c, name)
  }

  ghost predicate IsOfTheSnapshot(n: Namer, c: Cluster, name: string)
    requires name in c.children
  {
    exists i: nat ::
      && i < |c.run.stages| && i <= Current(c.run.stages)
      && name == n(c.run.stages[i].def.name)
      && IsMadeFor(c.children[name].spec, c.run.stages, c.run.guide, i)
  }

  /** An AgentRun's spec: the stage's own definition, the guide, and its place among
      the stages, counted from 1. */
  predicate IsMadeFor(spec: ChildSpec, stages: seq<StageStatus>, guide: string, i: nat)
    requires i < |stages|
  {
    && spec.def == stages[i].def
    && spec.guide == guide
    && spec.stageEnv == Text.Decimal(i + 1)
    && spec.countEnv == Text.Decimal(|stages|)
  }

  /** Whatever happens, a run follows its snapshot, and an AgentRun is created a
      second time only if the first was deleted before its name was recorded. */
  lemma StagesRunInOrderFromTheSnapshot(n: Namer, c: Cluster, steps: seq<Step>)
    requires Initial(n, c) && Legal(n, c, steps)
    ensures var end := Exec(n, c, steps);
            && FollowsItsSnapshot(n, end)
            && (forall name :: end.created[name] <= end.dropped[name] + 1)
  {
    InitialInv(n, c);
    EveryRunKeepsInv(n, c, steps);
    var end := Exec(n, c, steps);
    InvFollowsTheSnapshot(n, end);
    forall name
      ensures end.created[name] <= end.dropped[name] + 1
    {
      assert end.created[name] == end.dropped[name] + if Taken(end, name) then 1 else 0;
    }
  }

  lemma InvFollowsTheSnapshot(n: Namer, c: Cluster)
    requires Inv(n, c)
    ensures FollowsItsSnapshot(n, c)
  {
    if c.run.stages != [] {
      forall name | OwnedIn(c.children, name)
        ensures IsOfTheSnapshot(n, c, name)
      {
        var i: nat :| i < |c.run.stages| && NameAt(n, c.run.stages, i) == name;
        assert StageChildFits(n, Plan(c), PlanGuide(c), c.children, i);
      }
    }
  }

  /** A step brings an owned AgentRun into being only for the stage whose
      predecessors are all recorded Succeeded, and only while the run goes on. */
  lemma CreationWaitsForItsPredecessors(n: Namer, c: Cluster, s: Step, name: string)
    requires Inv(n, c) && Allowed(n, c, s)
    requires OwnedIn(Apply(n, c, s).children, name) && !OwnedIn(c.children, name)
    ensures exists k: nat ::
              && k < |Plan(c)| && name == n(Plan(c)[k].def.name)
              && (k > 0 ==> |c.run.stages| > k)
              && (forall i: nat | i < k :: c.run.stages[i].phase == AgentRuns.Succeeded)
              && var child := Apply(n, c, s).children[name];
                 && child == Child(true, child.spec, AgentRuns.FreshStatus, None)
                 && IsMadeFor(child.spec, Plan(c), PlanGuide(c), k)
    ensures !c.run.phase.Terminal()
  {
    assert s.Reconcile?;
    var k := CreatedByTheReconcile(n, c, s.a, name);
    assert name == n(Plan(c)[k].def.name);
  }

  lemma CreatedByTheReconcile(n: Namer, c: Cluster, a: Attempt, name: string) returns (k: nat)
    requires Inv(n, c)
    requires OwnedIn(WorkOf(n, c, a).children, name) && !OwnedIn(c.children, name)
    ensures k < |Plan(c)| && k == Current(Plan(c)) && name == NameAt(n, Plan(c), k) && !c.run.phase.Terminal()
    ensures WorkOf(n, c, a).children[name] == NewChild(SpecAt(Plan(c), PlanGuide(c), k))
  {
    WorkAlwaysCounts(n, c, a);
    k :| k < |Plan(c)| && k == Current(Plan(c)) && CreatesAt(n, c, WorkOf(n, c, a), k);
  }

  /** The plan of a run that has yet to persist its snapshot is the definition then
      live, and the patch that persists the snapshot persists that: every stage's own
      definition, in its place, and the guide. */
  lemma TheSnapshotIsTheDefinition(n: Namer, c: Cluster, s: Step)
    requires c.run.stages == [] && Apply(n, c, s).run.stages != []
    ensures s.Reconcile? && s.a.patchOk && s.a.workflowRead && c.workflow.Some? && c.workflow.value.ready
    ensures var later, definition := Apply(n, c, s).run, c.workflow.value.definition;
            && |later.stages| == |definition.stages| == |Plan(c)|
            && (forall i | 0 <= i < |definition.stages| ::
                  later.stages[i].def == definition.stages[i] == Plan(c)[i].def)
            && later.guide == definition.guide == PlanGuide(c)
  {
    var definition := c.workflow.value.definition;
    var run := Begun(c.run, definition);
    assert run.stages == SnapshotStages(definition.stages) && run.guide == definition.guide;
    FreshlyDriven(n, c, run, s.a);
  }

  lemma FreshlyDriven(n: Namer, c: Cluster, run: RunStatus, a: Attempt)
    requires run.stages != [] && forall i | 0 <= i < |run.stages| :: run.stages[i].agentRunName == ""
    ensures var later := Driven(n, c, run, a).run;
            && |later.stages| == |run.stages| && later.guide == run.guide
            && (forall i | 0 <= i < |run.stages| :: later.stages[i].def == run.stages[i].def)
  {
    var k := Current(run.stages);
    if k < |run.stages| {
      var running := run.(currentStage := run.stages[k].def.name, phase := AgentRuns.Running);
      assert Driven(n, c, run, a) == Tried(n, c, running, k, a);
    }
  }

  function Defs(stages: seq<StageStatus>): seq<StageDef> {
    seq(|stages|, i requires 0 <= i < |stages| => stages[i].def)
  }

  /** Once persisted, the snapshot and the guide survive everything, edits of
      the live workflow included; and a finished run stays as it finished, save
      for the completion time a TTL gives it if it has none. */
  lemma {:induction false} SnapshotAndEndAreFinal(n: Namer, c: Cluster, steps: seq<Step>)
    ensures var end := Exec(n, c, steps);
            && (c.run.stages != [] ==> Defs(end.run.stages) == Defs(c.run.stages) && end.run.guide == c.run.guide)
            && (c.run.phase.Terminal() ==>
                  && end.run == c.run.(completionTime := end.run.completionTime)
                  && (c.run.completionTime.Some? ==> end.run == c.run))
    decreases |steps|
  {
    if steps == [] {
    } else {
      StepKeepsSnapshot(n, c, steps[0]);
      SnapshotAndEndAreFinal(n, Apply(n, c, steps[0]), steps[1..]);
    }
  }

  predicate EndIsStamped(run: RunStatus) { run.phase.Terminal() ==> run.completionTime.Some? }

  /** The reconciler itself ends no run without a completion time, so a run that
      began fresh is never touched again once it has ended. */
  lemma {:induction false} EndedRunsAreStamped(n: Namer, c: Cluster, steps: seq<Step>)
    requires EndIsStamped(c.run)
    ensures EndIsStamped(Exec(n, c, steps).run)
    ensures c.run.phase.Terminal() ==> Exec(n, c, steps).run == c.run
    decreases |steps|
  {
    SnapshotAndEndAreFinal(n, c, steps);
    if steps == [] {
    } else {
      StepStamps(n, c, steps[0]);
      EndedRunsAreStamped(n, Apply(n, c, steps[0]), steps[1..]);
    }
  }

  lemma StepStamps(n: Namer, c: Cluster, s: Step)
    requires EndIsStamped(c.run)
    ensures EndIsStamped(Apply(n, c, s).run)
  {
    if s.Reconcile? && !c.run.phase.Terminal() && s.a.workflowRead && c.workflow.Some? && c.workflow.value.ready {
      DrivenStamps(n, c, Begun(c.run, c.workflow.value.definition), s.a);
    }
  }

  lemma DrivenStamps(n: Namer, c: Cluster, run: RunStatus, a: Attempt)
    requires !c.run.phase.Terminal()
    ensures EndIsStamped(Driven(n, c, run, a).run)
  {
    var k := Current(run.stages);
    if k < |run.stages| {
      var running := run.(currentStage := run.stages[k].def.name, phase := AgentRuns.Running);
      if run.stages[k].agentRunName == "" {
        assert EndIsStamped(Tried(n, c, running, k, a).run);
      } else {
        assert EndIsStamped(Watched(c, running, k, a).run);
      }
    }
  }

  lemma SettingAStageKeepsDefs(stages: seq<StageStatus>, k: nat, stage: StageStatus)
    requires k < |stages| && stage.def == stages[k].def
    ensures Defs(stages[k := stage]) == Defs(stages)
  {
  }

  lemma DrivenKeepsSnapshot(n: Namer, c: Cluster, run: RunStatus, a: Attempt)
    requires run.stages == c.run.stages && run.guide == c.run.guide && run.stages != []
    ensures var work := Driven(n, c, run, a);
            work.run.stages != [] && Defs(work.run.stages) == Defs(run.stages) && work.run.guide == run.guide
  {
    var k := Current(run.stages);
    if k < |run.stages| {
      var stage := run.stages[k];
      SettingAStageKeepsDefs(run.stages, k, stage.(phase := AgentRuns.Failed));
      if stage.agentRunName == "" {
        SettingAStageKeepsDefs(run.stages, k,
                               stage.(agentRunName := NameAt(n, run.stages, k), phase := AgentRuns.Pending));
      } else if stage.agentRunName in c.children {
        SettingAStageKeepsDefs(run.stages, k, Mirrored(stage, c.children[stage.agentRunName]));
      }
    }
  }

  lemma StepKeepsSnapshot(n: Namer, c: Cluster, s: Step)
    ensures var later := Apply(n, c, s);
            && (c.run.stages != [] ==>
                  && later.run.stages != []
                  && Defs(later.run.stages) == Defs(c.run.stages) && later.run.guide == c.run.guide)
            && (c.run.phase.Terminal() ==>
                  && later.run == c.run.(completionTime := later.run.completionTime)
                  && (c.run.completionTime.Some? ==> later.run == c.run))
  {
    if s.Reconcile? && c.run.stages != [] && !c.run.phase.Terminal() && s.a.workflowRead
       && c.workflow.Some? && c.workflow.value.ready {
      DrivenKeepsSnapshot(n, c, Begun(c.run, c.workflow.value.definition), s.a);
    }
  }

  // ----- Bounded progress -----

  /** Two points for each stage behind the current one, one for a recorded
      AgentRun at it, one for having ended. */
  function Progress(run: RunStatus): nat {
    var k := Current(run.stages);
    2 * k + (if k < |run.stages| && run.stages[k].agentRunName != "" then 1 else 0)
      + (if run.phase.Terminal() then 1 else 0)
  }

  lemma ProgressIsBounded(run: RunStatus)
    ensures Progress(run) <= 2 * |run.stages| + 1
  {
  }

  /** A step that records a name, leaves a stage behind or ends the run. */
  predicate Moves(n: Namer, c: Cluster, s: Step) {
    s.Reconcile? && s.a.patchOk && WorkOf(n, c, s.a).action != Nothing
  }

  function MoveCount(n: Namer, c: Cluster, steps: seq<Step>): nat
    decreases |steps|
  {
    if steps == [] then 0
    else (if Moves(n, c, steps[0]) then 1 else 0) + MoveCount(n, Apply(n, c, steps[0]), steps[1..])
  }

  lemma NoProgressBeforeTheSnapshot(n: Namer, c: Cluster)
    requires Inv(n, c) && c.workflow.Some?
    ensures Current(Begun(c.run, c.workflow.value.definition).stages) == Current(c.run.stages)
    ensures c.run.stages == [] ==> Progress(c.run) == if c.run.phase.Terminal() then 1 else 0
  {
    if c.run.stages == [] {
      assert Current(SnapshotStages(c.workflow.value.definition.stages)) == 0;
    }
  }

  /** From the progress before to the progress after a reconcile's work. */
  predicate Gains(before: RunStatus, work: Work) {
    && Progress(before) <= Progress(work.run)
    && (Progress(before) < Progress(work.run) <==> work.action != Nothing)
  }

  /** The current stage's status is replaced, its name kept. */
  lemma StageChangeGains(n: Namer, run: RunStatus, k: nat, stage: StageStatus)
    requires Shape(n, run.stages) && k == Current(run.stages) < |run.stages|
    requires run.stages[k].agentRunName != "" && stage.agentRunName == run.stages[k].agentRunName
    ensures var later := run.stages[k := stage];
            && Current(later) == (if stage.phase == AgentRuns.Succeeded then k + 1 else k)
            && (Current(later) == k ==> later[k].agentRunName != "")
            && (Current(later) == k + 1 < |later| ==> later[k + 1].agentRunName == "")
  {
    CurrentIs(run.stages[k := stage], if stage.phase == AgentRuns.Succeeded then k + 1 else k);
  }

  lemma StageChangeProgress(n: Namer, run: RunStatus, k: nat, stage: StageStatus, later: RunStatus)
    requires Shape(n, run.stages) && k == Current(run.stages) < |run.stages| && !run.phase.Terminal()
    requires run.stages[k].agentRunName != "" && stage.agentRunName == run.stages[k].agentRunName
    requires later.stages == run.stages[k := stage]
    ensures Progress(later) ==
            Progress(run) + (if stage.phase == AgentRuns.Succeeded then 1 else 0) + (if later.phase.Terminal() then 1 else 0)
  {
    StageChangeGains(n, run, k, stage);
  }

  /** What Watched counts as a move. */
  lemma WatchedCountsMoves(c: Cluster, run: RunStatus, k: nat, a: Attempt)
    requires k < |run.stages| && a.childRead
    ensures var name := run.stages[k].agentRunName;
            Watched(c, run, k, a).action != Nothing <==>
            || name !in c.children
            || Mirrored(run.stages[k], c.children[name]).phase == AgentRuns.Succeeded
            || c.children[name].status.succeeded == AgentRuns.False
  {
  }

  lemma WatchedMoves(n: Namer, c: Cluster, run: RunStatus, k: nat, a: Attempt)
    requires Inv(n, c) && run.stages == Plan(c) == c.run.stages && run.phase == AgentRuns.Running
    requires k == Current(run.stages) < |run.stages| && run.stages[k].agentRunName != ""
    requires !c.run.phase.Terminal()
    ensures Gains(c.run, Watched(c, run, k, a))
  {
    var stage := run.stages[k];
    if a.childRead {
      WatchedLeaves(c, run, k, a);
      WatchedCountsMoves(c, run, k, a);
      var later := if stage.agentRunName !in c.children then stage.(phase := AgentRuns.Failed)
                   else Mirrored(stage, c.children[stage.agentRunName]);
      StageChangeProgress(n, c.run, k, later, Watched(c, run, k, a).run);
    }
  }

  lemma TriedMoves(n: Namer, c: Cluster, run: RunStatus, k: nat, a: Attempt)
    requires Nameable(n, run.stages) && Shape(n, run.stages) && run.phase == AgentRuns.Running
    requires k == Current(run.stages) < |run.stages| && run.stages[k].agentRunName == ""
    requires k == Current(c.run.stages) && !c.run.phase.Terminal()
    requires c.run.stages == [] || c.run.stages == run.stages
    ensures Gains(c.run, Tried(n, c, run, k, a))
  {
    var name := NameAt(n, run.stages, k);
    assert name != "";
    CurrentIs(run.stages[k := run.stages[k].(agentRunName := name, phase := AgentRuns.Pending)], k);
    CurrentIs(run.stages[k := run.stages[k].(phase := AgentRuns.Failed)], k);
  }

  /** No step loses progress, and a step gains some exactly when it moves. */
  lemma StepMoves(n: Namer, c: Cluster, s: Step)
    requires Inv(n, c)
    ensures Progress(c.run) <= Progress(Apply(n, c, s).run)
    ensures Progress(c.run) < Progress(Apply(n, c, s).run) <==> Moves(n, c, s)
  {
    match s
    case Reconcile(a) => WorkMoves(n, c, a);
    case _ => assert Apply(n, c, s).run == c.run;
  }

  lemma WorkMoves(n: Namer, c: Cluster, a: Attempt)
    requires Inv(n, c)
    ensures Gains(c.run, WorkOf(n, c, a))
  {
    if !c.run.phase.Terminal() && c.workflow.Some? && a.workflowRead && c.workflow.value.ready {
      DrivenMoves(n, c, a);
    }
  }

  lemma DrivenMoves(n: Namer, c: Cluster, a: Attempt)
    requires Inv(n, c) && !c.run.phase.Terminal() && c.workflow.Some?
    ensures Gains(c.run, Driven(n, c, Begun(c.run, c.workflow.value.definition), a))
  {
    var run := Begun(c.run, c.workflow.value.definition);
    BegunIsThePlan(c);
    NoProgressBeforeTheSnapshot(n, c);
    var k := Current(run.stages);
    if k < |run.stages| {
      var running := run.(currentStage := run.stages[k].def.name, phase := AgentRuns.Running);
      if run.stages[k].agentRunName == "" {
        TriedMoves(n, c, running, k, a);
      } else {
        assert c.run.stages != [];
        WatchedMoves(n, c, running, k, a);
      }
    }
  }

  lemma {:induction false} MovesAreProgress(n: Namer, c: Cluster, steps: seq<Step>)
    requires Inv(n, c) && Legal(n, c, steps)
    ensures Progress(Exec(n, c, steps).run) >= Progress(c.run) + MoveCount(n, c, steps)
    decreases |steps|
  {
    if steps == [] {
    } else {
      StepMoves(n, c, steps[0]);
      StepKeepsInv(n, c, steps[0]);
      MovesAreProgress(n, Apply(n, c, steps[0]), steps[1..]);
    }
  }

  /** However long a run goes on, an N-stage run records a name, advances or
      ends at most 2N + 1 times. */
  lemma MovesAreBounded(n: Namer, c: Cluster, steps: seq<Step>)
    requires Initial(n, c) && Legal(n, c, steps)
    ensures MoveCount(n, c, steps) <= 2 * |Exec(n, c, steps).run.stages| + 1
  {
    InitialInv(n, c);
    MovesAreProgress(n, c, steps);
    ProgressIsBounded(Exec(n, c, steps).run);
  }

  // ----- Nothing but the world can hold a run up -----

  /** A reconcile in which every call works. */
  predicate Untroubled(a: Attempt) {
    a.workflowRead && a.agentRead && a.configOk && a.create == CallOk && a.existingRead && a.childRead && a.patchOk
  }

  /** The current stage waits for nothing: it has no AgentRun yet and its name is
      free or its own, or what bears its recorded name is gone, reads Succeeded,
      or has failed. */
  ghost predicate CurrentStageIsReady(n: Namer, c: Cluster) {
    var k := Current(Plan(c));
    k < |Plan(c)| ==>
      var name := NameAt(n, Plan(c), k);
      if Plan(c)[k].agentRunName == "" then name !in c.children || c.children[name].owned
      else
        || name !in c.children
        || c.children[name].status.phase == AgentRuns.Succeeded
        || c.children[name].status.succeeded == AgentRuns.False
  }

  /** The current stage is recorded, and its own AgentRun is there. */
  predicate FollowsItsOwn(c: Cluster) {
    var k := Current(c.run.stages);
    k < |c.run.stages| && c.run.stages[k].agentRunName != "" && OwnedIn(c.children, c.run.stages[k].agentRunName)
  }

  /** Of the run's own AgentRuns, exactly the finished ones are waited for no more. */
  lemma OwnAgentRunsAreWaitedForUntilTerminal(n: Namer, c: Cluster, name: string)
    requires Inv(n, c) && OwnedIn(c.children, name)
    ensures var st := c.children[name].status;
            st.phase == AgentRuns.Succeeded || st.succeeded == AgentRuns.False <==> st.phase.Terminal()
  {
    assert AgentRuns.Coherent(c.children[name].status);
  }

  lemma TriedActs(n: Namer, c: Cluster, run: RunStatus, k: nat, a: Attempt)
    requires k < |run.stages| && Untroubled(a)
    ensures var name := NameAt(n, run.stages, k);
            Tried(n, c, run, k, a).action != Nothing <==> name !in c.children || c.children[name].owned
  {
  }

  /** A reconcile in which every call works moves the run exactly when the
      workflow is gone or the current stage waits for nothing. Of its own recorded
      AgentRun it waits for the end and nothing else. */
  lemma UntroubledReconcileMoves(n: Namer, c: Cluster, a: Attempt)
    requires Inv(n, c) && Untroubled(a)
    requires !c.run.phase.Terminal() && (c.workflow.Some? ==> c.workflow.value.ready)
    ensures Moves(n, c, Reconcile(a)) <==> c.workflow.None? || CurrentStageIsReady(n, c)
    ensures Moves(n, c, Reconcile(a)) <==> Progress(Reconciled(n, c, a).run) > Progress(c.run)
    ensures FollowsItsOwn(c) && c.workflow.Some? ==>
              (Moves(n, c, Reconcile(a)) <==>
                 c.children[c.run.stages[Current(c.run.stages)].agentRunName].status.phase.Terminal())
  {
    StepMoves(n, c, Reconcile(a));
    if c.workflow.Some? {
      var run := Begun(c.run, c.workflow.value.definition);
      BegunIsThePlan(c);
      var k := Current(run.stages);
      if k < |run.stages| {
        var running := run.(currentStage := run.stages[k].def.name, phase := AgentRuns.Running);
        TriedActs(n, c, running, k, a);
        WatchedCountsMoves(c, running, k, a);
        if run.stages[k].agentRunName != "" {
          RecordedIsOwnName(n, Plan(c), k);
        }
        if FollowsItsOwn(c) {
          OwnAgentRunsAreWaitedForUntilTerminal(n, c, c.run.stages[k].agentRunName);
        }
      }
    }
  }

  /** What decides, over any object that bears the recorded name: the run fails
      exactly on its condition being False and leaves the stage behind exactly on
      its phase being Succeeded. Over the run's own AgentRun these are the two
      ends of one condition. */
  lemma TheConditionDecides(n: Namer, c: Cluster, a: Attempt)
    requires Inv(n, c) && Untroubled(a) && !c.run.phase.Terminal()
    requires c.workflow.Some? && c.workflow.value.ready && c.run.stages != []
    requires Current(c.run.stages) < |c.run.stages|
    requires var name := c.run.stages[Current(c.run.stages)].agentRunName;
             name != "" && name in c.children
    ensures var k := Current(c.run.stages);
            var child := c.children[c.run.stages[k].agentRunName];
            var later := Reconciled(n, c, a).run;
            && (Current(later.stages) == if child.status.phase == AgentRuns.Succeeded then k + 1 else k)
            && (later.phase == AgentRuns.Failed <==> child.status.succeeded == AgentRuns.False)
            && (child.owned ==>
                  (Current(later.stages) == if child.status.succeeded == AgentRuns.True then k + 1 else k))
  {
    var k := Current(c.run.stages);
    var stage := c.run.stages[k];
    var child := c.children[stage.agentRunName];
    assert child.owned ==> AgentRuns.Coherent(child.status);
    var run := Begun(c.run, c.workflow.value.definition);
    var running := run.(currentStage := stage.def.name, phase := AgentRuns.Running);
    WatchedLeaves(c, running, k, a);
    StageChangeGains(n, running, k, Mirrored(stage, child));
    assert Reconciled(n, c, a).run == Watched(c, running, k, a).run;
  }

  // ----- Whose success a stage's success is -----

  /** A step leaves the current stage behind exactly when it is a reconcile that
      reads, under the recorded name, an AgentRun in phase Succeeded. The name is
      all it goes by: that AgentRun is the run's own exactly when no stranger's
      bears the name, and then its harness's success is the stage's. */
  lemma StagesAreLeftBehindByName(n: Namer, c: Cluster, s: Step)
    requires Inv(n, c) && c.run.stages != []
    ensures Current(Apply(n, c, s).run.stages) > Current(c.run.stages) <==>
            && s.Reconcile? && !c.run.phase.Terminal() && s.a.workflowRead && s.a.childRead && s.a.patchOk
            && c.workflow.Some? && c.workflow.value.ready
            && SucceededByName(c)
    ensures SucceededByName(c) ==> (SucceededByItsOwn(c) <==> !StrangerSucceeds(c))
  {
    if s.Reconcile? && !c.run.phase.Terminal() && s.a.workflowRead && c.workflow.Some? && c.workflow.value.ready {
      var run := Begun(c.run, c.workflow.value.definition);
      var k := Current(run.stages);
      if k < |run.stages| {
        var running := run.(currentStage := run.stages[k].def.name, phase := AgentRuns.Running);
        if run.stages[k].agentRunName == "" {
          TriedStays(n, c, running, k, s.a);
        } else {
          WatchedLeavesBehind(n, c, running, k, s.a);
        }
      }
    }
  }

  lemma TriedStays(n: Namer, c: Cluster, run: RunStatus, k: nat, a: Attempt)
    requires k == Current(run.stages) < |run.stages|
    ensures Current(Tried(n, c, run, k, a).run.stages) == k
  {
    var stage := run.stages[k];
    CurrentIs(run.stages[k := stage.(phase := AgentRuns.Failed)], k);
    CurrentIs(run.stages[k := stage.(agentRunName := NameAt(n, run.stages, k), phase := AgentRuns.Pending)], k);
  }

  lemma WatchedLeavesBehind(n: Namer, c: Cluster, run: RunStatus, k: nat, a: Attempt)
    requires Inv(n, c) && run.stages == c.run.stages && run.phase == AgentRuns.Running
    requires k == Current(run.stages) < |run.stages| && run.stages[k].agentRunName != ""
    ensures Current(Watched(c, run, k, a).run.stages) == if a.childRead && SucceededByName(c) then k + 1 else k
  {
    var stage := run.stages[k];
    if a.childRead {
      WatchedLeaves(c, run, k, a);
      StageChangeGains(n, run, k, stage.(phase := AgentRuns.Failed));
      if stage.agentRunName in c.children {
        StageChangeGains(n, run, k, Mirrored(stage, c.children[stage.agentRunName]));
      }
    }
  }

  /** Something bears the current stage's recorded name and reads Succeeded. */
  predicate SucceededByName(c: Cluster) {
    var k := Current(c.run.stages);
    && k < |c.run.stages| && c.run.stages[k].agentRunName != ""
    && c.run.stages[k].agentRunName in c.children
    && c.children[c.run.stages[k].agentRunName].status.phase == AgentRuns.Succeeded
  }

  predicate SucceededByItsOwn(c: Cluster) {
    SucceededByName(c) && c.children[c.run.stages[Current(c.run.stages)].agentRunName].owned
  }

  // ----- Whose success an AgentRun's success is -----

  /** The Sandbox of this AgentRun's name is not the one it made. */
  predicate HasAnothersSandbox(c: Cluster, name: string) {
    name in c.children && name in c.sandboxes && c.children[name].harness != Some(c.sandboxes[name])
  }

  /** A finished Sandbox of this name, as a reconcile reads it, tells the truth. */
  predicate ReadsTheTruth(c: Cluster, name: string, w: AgentRuns.World) {
    w.sandbox.SandboxFound? && w.sandbox.sandbox.finished.Some? ==>
      var clean := AgentRuns.TellsSuccess(w.sandbox.sandbox.pod, w.sandbox.sandbox.finished.value);
      name in c.sandboxes && (clean <==> ExitIn(c, name) == Some(0))
  }

  /** How the harness in the Sandbox the AgentRun itself made exited. */
  function OwnExit(c: Cluster, name: string): Option<nat>
    requires name in c.children
  {
    match c.children[name].harness
    case None => None
    case Some(i) => if i < |c.harnesses| then c.harnesses[i].exit else None
  }

  /** An AgentRun succeeds on the word of the harness in the Sandbox of its name.
      Where that is not another's, it is its own that exited 0. */
  lemma SuccessIsItsSandboxs(c: Cluster, name: string, w: AgentRuns.World, patchOk: bool)
    requires name in c.children && !c.children[name].status.phase.Terminal()
    requires ReadsTheTruth(c, name, w)
    requires RunStatusAfter(c, name, w, patchOk).phase == AgentRuns.Succeeded
    ensures name in c.sandboxes && ExitIn(c, name) == Some(0)
    ensures !HasAnothersSandbox(c, name) ==> OwnExit(c, name) == Some(0)
  {
    var named := if w.create.Created? then w.(create := AgentRuns.Created(name)) else w;
    AgentRuns.SuccessNeedsACleanFinish(c.children[name].status, named, patchOk);
  }

  lemma {:induction false} EveryRunIsNumbered(n: Namer, c: Cluster, steps: seq<Step>)
    requires Numbered(c)
    ensures Numbered(Exec(n, c, steps))
    decreases |steps|
  {
    if steps == [] {
    } else {
      StepKeepsNumbers(n, c, steps[0]);
      EveryRunIsNumbered(n, Apply(n, c, steps[0]), steps[1..]);
    }
  }

  lemma StepKeepsNumbers(n: Namer, c: Cluster, s: Step)
    requires Numbered(c)
    ensures Numbered(Apply(n, c, s))
  {
    if s.Reconcile? {
      ReconcileNumbersNothing(n, c, s.a);
    }
  }

  /** AgentRuns come without a harness. */
  lemma ReconcileNumbersNothing(n: Namer, c: Cluster, a: Attempt)
    ensures var later := Reconciled(n, c, a);
            && later.sandboxes == c.sandboxes && later.harnesses == c.harnesses
            && (forall name | name in c.children :: name in later.children && later.children[name] == c.children[name])
            && (forall name | name in later.children && name !in c.children :: later.children[name].harness.None?)
  {
  }

  /** How, at any point of any run, an AgentRun comes to have another's Sandbox: one
      is there when it is made, or is brought while it has none. Its own reconciles
      never do it. */
  lemma AnothersSandboxComesAbout(n: Namer, start: Cluster, steps: seq<Step>, s: Step, name: string)
    requires Initial(n, start) && !HasAnothersSandbox(Exec(n, start, steps), name)
    ensures var c := Exec(n, start, steps);
            HasAnothersSandbox(Apply(n, c, s), name) <==>
            || (name !in c.children && name in c.sandboxes && name in Apply(n, c, s).children)
            || (s.ForeignSandbox? && s.name == name && name in c.children && name !in c.sandboxes)
  {
    var c := Exec(n, start, steps);
    EveryRunIsNumbered(n, start, steps);
    if s.Reconcile? {
      ReconcileNumbersNothing(n, c, s.a);
    }
  }

  // ----- Where the snapshot is not yet a guarantee -----

  /** Before the snapshot is persisted, an edit is safe exactly when the next
      reconcile that patches leaves a run that follows its snapshot: any other
      edit leaves an AgentRun that is not of the snapshot then recorded. */
  lemma UnsafeEditsDoHarm(n: Namer, c: Cluster, workflow: WorkflowObject, a: Attempt)
    requires Inv(n, c) && c.run.stages == [] && !c.run.phase.Terminal()
    requires workflow.ready && workflow.definition.stages != []
    requires Nameable(n, SnapshotStages(workflow.definition.stages))
    requires a.workflowRead && a.patchOk
    ensures SafeEdit(n, c, Some(workflow)) <==>
            FollowsItsSnapshot(n, Reconciled(n, c.(workflow := Some(workflow)), a))
  {
    var edited := c.(workflow := Some(workflow));
    var later := Reconciled(n, edited, a);
    EditKeepsInvExactlyWhenSafe(n, c, Some(workflow));
    if SafeEdit(n, c, Some(workflow)) {
      ReconcileKeepsInv(n, edited, a);
      InvFollowsTheSnapshot(n, later);
    } else {
      var stages, guide := SnapshotStages(workflow.definition.stages), workflow.definition.guide;
      var name :| OwnedIn(c.children, name) &&
                  !(name == NameAt(n, stages, 0) && c.children[name].spec == SpecAt(stages, guide, 0));
      FirstPatchTakesTheSnapshot(n, edited, a);
      assert OwnedIn(later.children, name) && later.children[name] == c.children[name];
      if IsOfTheSnapshot(n, later, name) {
        OnlyTheFirst(n, later, name);
      }
      assert !IsOfTheSnapshot(n, later, name);
    }
  }

  lemma OnlyTheFirst(n: Namer, c: Cluster, name: string)
    requires name in c.children && IsOfTheSnapshot(n, c, name) && Current(c.run.stages) == 0
    ensures c.run.stages != [] && name == NameAt(n, c.run.stages, 0)
    ensures c.children[name].spec == SpecAt(c.run.stages, c.run.guide, 0)
  {
  }

  /** The first patch records the snapshot, with the first stage current and its
      name and spec those of the definition. */
  lemma FirstPatchTakesTheSnapshot(n: Namer, c: Cluster, a: Attempt)
    requires c.run.stages == [] && !c.run.phase.Terminal() && a.workflowRead && a.patchOk
    requires c.workflow.Some? && c.workflow.value.ready && c.workflow.value.definition.stages != []
    ensures var stages, guide := SnapshotStages(c.workflow.value.definition.stages), c.workflow.value.definition.guide;
            var later := Reconciled(n, c, a);
            && later.run.stages != [] && |later.run.stages| == |stages| && Current(later.run.stages) == 0
            && NameAt(n, later.run.stages, 0) == NameAt(n, stages, 0)
            && SpecAt(later.run.stages, later.run.guide, 0) == SpecAt(stages, guide, 0)
            && (forall name | name in c.children :: name in later.children && later.children[name] == c.children[name])
  {
    var stages := SnapshotStages(c.workflow.value.definition.stages);
    assert Current(stages) == 0;
    CurrentIs(stages[0 := stages[0].(phase := AgentRuns.Failed)], 0);
    CurrentIs(stages[0 := stages[0].(agentRunName := NameAt(n, stages, 0), phase := AgentRuns.Pending)], 0);
  }

  // A one-stage workflow whose stage is edited from the old to the new agent.
  const OLD_STAGE := StageDef("build", "old", "", "")
  const NEW_STAGE := StageDef("build", "new", "", "")
  const PATCHED := Attempt(true, true, true, CallOk, true, true, true, None, 0)
  const UNPATCHED := Attempt(true, true, true, CallOk, true, true, false, None, 0)

  function Live(stage: StageDef): Option<WorkflowObject> { Some(WorkflowObject(true, Definition("", [stage]))) }

  function Untouched(workflow: Option<WorkflowObject>, children: map<string, Child>, created: multiset<string>): Cluster {
    Cluster(workflow, FreshRun, children, map[], [], false, None, created, multiset{})
  }

  lemma SnapshotOfOne(stage: StageDef)
    ensures SnapshotStages([stage]) == [StageStatus(stage, AgentRuns.Pending, "")]
    ensures Current(SnapshotStages([stage])) == 0
  {
  }

  lemma FirstReconcileCreates(n: Namer)
    requires n("build") != ""
    ensures var c := Untouched(Live(OLD_STAGE), map[], multiset{});
            var later := Reconciled(n, c, UNPATCHED);
            && later.run == FreshRun && later.workflow == Live(OLD_STAGE)
            && n("build") in later.children
            && later.children[n("build")].owned && later.children[n("build")].spec.def == OLD_STAGE
  {
    SnapshotOfOne(OLD_STAGE);
  }

  lemma RetryAdopts(n: Namer, c: Cluster)
    requires n("build") != "" && c.workflow == Live(NEW_STAGE) && c.run == FreshRun
    requires OwnedIn(c.children, n("build"))
    ensures var later := Reconciled(n, c, PATCHED);
            && later.children == c.children
            && later.run.stages == [StageStatus(NEW_STAGE, AgentRuns.Pending, n("build"))]
  {
    SnapshotOfOne(NEW_STAGE);
  }

  /** The first AgentRun is created before the snapshot is persisted. If that
      patch fails and the workflow is edited before the retry, stage 0 runs the
      old definition under a snapshot of the new one: UnsafeEditsDoHarm, from the
      start of a run. */
  lemma EditBeforeTheSnapshotIsPersisted(n: Namer)
    requires n("build") != ""
    ensures exists c: Cluster, steps: seq<Step> ::
              && Initial(n, c) && |steps| == 3 && steps[1].Edit?
              && var end := Exec(n, c, steps);
                 && |end.run.stages| == 1
                 && end.run.stages[0].agentRunName in end.children
                 && end.children[end.run.stages[0].agentRunName].spec.def != end.run.stages[0].def
  {
    var c := Untouched(Live(OLD_STAGE), map[], multiset{});
    var edit, retry := Edit(Live(NEW_STAGE)), Reconcile(PATCHED);
    SnapshotOfOne(OLD_STAGE);
    FirstReconcileCreates(n);
    var c1 := Apply(n, c, Reconcile(UNPATCHED));
    var c2 := Apply(n, c1, edit);
    RetryAdopts(n, c2);
    var c3 := Apply(n, c2, retry);
    assert OLD_STAGE.agentRef[0] == 'o' && NEW_STAGE.agentRef[0] == 'n';
    ThreeSteps(n, c, Reconcile(UNPATCHED), edit, retry);
    assert Initial(n, c);
    assert Exec(n, c, [Reconcile(UNPATCHED), edit, retry]) == c3;
  }

  lemma ThreeSteps(n: Namer, c: Cluster, s1: Step, s2: Step, s3: Step)
    ensures Exec(n, c, [s1, s2, s3]) == Apply(n, Apply(n, Apply(n, c, s1), s2), s3)
  {
    var c1 := Apply(n, c, s1);
    var c2 := Apply(n, c1, s2);
    assert [s1, s2, s3][1..] == [s2, s3] && [s2, s3][1..] == [s3] && [s3][1..] == [];
    assert Exec(n, c2, [s3]) == Exec(n, Apply(n, c2, s3), []);
    assert Exec(n, c1, [s2, s3]) == Exec(n, c2, [s3]);
  }
}
