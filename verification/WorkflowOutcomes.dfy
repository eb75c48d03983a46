/**
 What one reconcile of a workflow run that has not ended does, told from what the
 cluster shows and how the calls go: when the run ends and how, what is created,
 what is recorded, and what is left as it was.
 */
module WorkflowOutcomes {
  import opened Wrappers
  import AgentRuns
  import opened Workflow
  import opened WorkflowSystem

  /** The reconcile gets as far as the stages. */
  predicate ReachesTheStages(c: Cluster, a: Attempt) {
    !c.run.phase.Terminal() && a.workflowRead && c.workflow.Some? && c.workflow.value.ready
  }

  /** It has a current stage that has no AgentRun recorded. */
  predicate HasOneToStart(c: Cluster, a: Attempt) {
    && ReachesTheStages(c, a)
    && Current(Plan(c)) < |Plan(c)| && Plan(c)[Current(Plan(c))].agentRunName == ""
  }

  /** It has a current stage that has. */
  predicate HasOneToFollow(c: Cluster, a: Attempt) {
    && ReachesTheStages(c, a)
    && Current(Plan(c)) < |Plan(c)| && Plan(c)[Current(Plan(c))].agentRunName != ""
  }

  /** What the current stage's recorded name has come to. */
  predicate IsGone(c: Cluster)
    requires Current(Plan(c)) < |Plan(c)|
  {
    Plan(c)[Current(Plan(c))].agentRunName !in c.children
  }

  predicate HasFailed(c: Cluster)
    requires Current(Plan(c)) < |Plan(c)|
  {
    var name := Plan(c)[Current(Plan(c))].agentRunName;
    name in c.children && c.children[name].status.succeeded == AgentRuns.False
  }

  lemma ThePlanIsDriven(n: Namer, c: Cluster, a: Attempt)
    requires ReachesTheStages(c, a)
    ensures var run := Begun(c.run, c.workflow.value.definition);
            && WorkOf(n, c, a) == Driven(n, c, run, a)
            && run.stages == Plan(c) && run.guide == PlanGuide(c) && !run.phase.Terminal()
  {

  }

  /** The run succeeds exactly when every stage of its plan reads Succeeded. */
  lemma SucceedsExactlyWhen(n: Namer, c: Cluster, a: Attempt)
    requires !c.run.phase.Terminal() && a.patchOk
    ensures Reconciled(n, c, a).run.phase == AgentRuns.Succeeded <==>
            ReachesTheStages(c, a) && forall i | 0 <= i < |Plan(c)| :: Plan(c)[i].phase == AgentRuns.Succeeded
  {
    if ReachesTheStages(c, a) {
      ThePlanIsDriven(n, c, a);
    }
  }

  /** The run fails exactly when its workflow is gone, its current stage cannot be
      configured, or what bears that stage's recorded name is gone or has failed; and
      it says which. */
  lemma FailsExactlyWhen(n: Namer, c: Cluster, a: Attempt)
    requires !c.run.phase.Terminal() && a.patchOk
    ensures var later := Reconciled(n, c, a).run;
            && (later.phase == AgentRuns.Failed <==>
                  || (a.workflowRead && c.workflow.None?)
                  || (HasOneToStart(c, a) && a.agentRead && !a.configOk)
                  || (HasOneToFollow(c, a) && a.childRead && (IsGone(c) || HasFailed(c))))
            && (a.workflowRead && c.workflow.None? ==> later.reason == "WorkflowNotFound")
            && (HasOneToStart(c, a) && a.agentRead && !a.configOk ==> later.reason == "InvalidParams")
            && (HasOneToFollow(c, a) && a.childRead && IsGone(c) ==> later.reason == "AgentRunDeleted")
            && (HasOneToFollow(c, a) && a.childRead && HasFailed(c) ==> later.reason == "StageFailed")
  {
    if ReachesTheStages(c, a) {
      ThePlanIsDriven(n, c, a);
    }
  }

  /** A run that ends is complete now; one that does not keeps what it had. */
  lemma EndsAreTimed(n: Namer, c: Cluster, a: Attempt)
    requires !c.run.phase.Terminal() && a.patchOk
    ensures var later := Reconciled(n, c, a).run;
            later.completionTime == if later.phase.Terminal() then Some(a.now) else c.run.completionTime
  {
    if ReachesTheStages(c, a) {
      ThePlanIsDriven(n, c, a);
      DrivenIsTimed(n, c, Begun(c.run, c.workflow.value.definition), a);
      assert Reconciled(n, c, a).run == Driven(n, c, Begun(c.run, c.workflow.value.definition), a).run;
    }
  }

  lemma DrivenIsTimed(n: Namer, c: Cluster, run: RunStatus, a: Attempt)
    requires !run.phase.Terminal() && !c.run.phase.Terminal() && run.completionTime == c.run.completionTime
    ensures var later := Driven(n, c, run, a).run;
            later.completionTime == if later.phase.Terminal() then Some(a.now) else c.run.completionTime
  {
    var k := Current(run.stages);
    if k < |run.stages| {
      var running := run.(currentStage := run.stages[k].def.name, phase := AgentRuns.Running);
      if run.stages[k].agentRunName == "" {
        TriedIsTimed(n, c, running, k, a);
      } else {
        WatchedIsTimed(c, running, k, a);
      }
    }
  }

  lemma TriedIsTimed(n: Namer, c: Cluster, run: RunStatus, k: nat, a: Attempt)
    requires k < |run.stages| && !run.phase.Terminal()
    ensures var later := Tried(n, c, run, k, a).run;
            later.completionTime == if later.phase.Terminal() then Some(a.now) else run.completionTime
  {
  }

  lemma WatchedIsTimed(c: Cluster, run: RunStatus, k: nat, a: Attempt)
    requires k < |run.stages| && !run.phase.Terminal() && !c.run.phase.Terminal()
    requires run.completionTime == c.run.completionTime
    ensures var later := Watched(c, run, k, a).run;
            later.completionTime == if later.phase.Terminal() then Some(a.now) else run.completionTime
  {
  }

  /** An AgentRun is created exactly when the current stage has none recorded, its
      Agent is read and its configuration holds, its name is free, and the call gets
      through, whether or not its answer does. */
  lemma CreatesExactlyWhen(n: Namer, c: Cluster, a: Attempt)
    ensures var later := Reconciled(n, c, a);
            if HasOneToStart(c, a) && a.agentRead && a.configOk && a.create != CallFailed
               && n(Plan(c)[Current(Plan(c))].def.name) !in c.children
            then
              var name := n(Plan(c)[Current(Plan(c))].def.name);
              && name in later.children && later.children == c.children[name := later.children[name]]
              && later.created == c.created + multiset{name}
            else later.children == c.children && later.created == c.created
  {
    if ReachesTheStages(c, a) {
      ThePlanIsDriven(n, c, a);
      DrivenCreates(n, c, Begun(c.run, c.workflow.value.definition), a);
      var work := Driven(n, c, Begun(c.run, c.workflow.value.definition), a);
      assert Reconciled(n, c, a).children == work.children && Reconciled(n, c, a).created == work.created;
    } else {
      assert WorkOf(n, c, a).children == c.children && WorkOf(n, c, a).created == c.created;
    }
  }

  lemma DrivenCreates(n: Namer, c: Cluster, run: RunStatus, a: Attempt)
    ensures var work, k := Driven(n, c, run, a), Current(run.stages);
            if k < |run.stages| && run.stages[k].agentRunName == ""
               && a.agentRead && a.configOk && a.create != CallFailed && n(run.stages[k].def.name) !in c.children
            then
              var name := n(run.stages[k].def.name);
              && name in work.children && work.children == c.children[name := work.children[name]]
              && work.created == c.created + multiset{name}
            else work.children == c.children && work.created == c.created
  {
  }

  /** The current stage can count on its AgentRun: it was made and the answer came, or
      it was there, could be read, and is this run's own. */
  predicate CountsOnIt(n: Namer, c: Cluster, a: Attempt)
    requires Current(Plan(c)) < |Plan(c)|
  {
    var name := n(Plan(c)[Current(Plan(c))].def.name);
    && a.agentRead && a.configOk
    && if name in c.children then a.create != CallFailed && a.existingRead && c.children[name].owned
       else a.create == CallOk
  }

  /** What a stage without an AgentRun comes to: its name is recorded, and it waits,
      exactly when it can count on one; it fails when it cannot be configured; and
      otherwise it is left to be tried again. */
  lemma StartingRecordsExactlyWhen(n: Namer, c: Cluster, a: Attempt)
    requires HasOneToStart(c, a) && a.patchOk
    ensures var later, k := Reconciled(n, c, a).run, Current(Plan(c));
            var stage, name := Plan(c)[k], n(Plan(c)[k].def.name);
            && later.currentStage == stage.def.name
            && later.guide == PlanGuide(c) && later.started
            && later.stages == Plan(c)[k := if CountsOnIt(n, c, a) then StageStatus(stage.def, AgentRuns.Pending, name)
                                            else if a.agentRead && !a.configOk then StageStatus(stage.def, AgentRuns.Failed, "")
                                            else stage]
            && (CountsOnIt(n, c, a) ==> later.phase == AgentRuns.Running && later.reason == "StageRunning")
            && (!CountsOnIt(n, c, a) && !(a.agentRead && !a.configOk) ==>
                  later.phase == AgentRuns.Running && later.reason == "AgentRunCreationFailed")
  {
    ThePlanIsDriven(n, c, a);
    var k := Current(Plan(c));
    assert Plan(c)[k := Plan(c)[k]] == Plan(c);
  }

  /** What a stage with an AgentRun comes to: the phase that bears its name, if it has
      one yet; and the run goes on unless the condition is False or there is none. */
  lemma FollowingMirrors(n: Namer, c: Cluster, a: Attempt)
    requires HasOneToFollow(c, a) && a.patchOk && a.childRead && !IsGone(c)
    ensures var later, k := Reconciled(n, c, a).run, Current(Plan(c));
            var stage := Plan(c)[k];
            var status := c.children[stage.agentRunName].status;
            && later.currentStage == stage.def.name
            && later.stages == Plan(c)[k := stage.(phase := if status.phase == AgentRuns.NoPhase then stage.phase
                                                            else status.phase)]
            && (later.phase == AgentRuns.Running <==> status.succeeded != AgentRuns.False)
            && (status.succeeded == AgentRuns.True ==> later.reason == "StageSucceeded")
            && (status.succeeded == AgentRuns.Unknown || status.succeeded == AgentRuns.Unset ==> later.reason == "StageRunning")
  {
    ThePlanIsDriven(n, c, a);
    var k := Current(Plan(c));
    assert Plan(c)[k := Plan(c)[k]] == Plan(c);
  }

  /** What cannot be read is not judged: the run stays as it is, or says that its
      workflow is not ready. */
  lemma UnreadIsNotJudged(n: Namer, c: Cluster, a: Attempt)
    requires !c.run.phase.Terminal() && a.patchOk
    ensures var later := Reconciled(n, c, a).run;
            && (!a.workflowRead ==> later == c.run)
            && (a.workflowRead && c.workflow.Some? && !c.workflow.value.ready ==>
                  later == c.run.(reason := "WorkflowNotReady"))
            && (HasOneToFollow(c, a) && !a.childRead ==> later == c.run)
  {
    if ReachesTheStages(c, a) {
      ThePlanIsDriven(n, c, a);
    }
  }

  /** A finished run is deleted exactly when its TTL has passed since it completed. */
  lemma FinishedRunsAreCollected(c: Cluster, a: Attempt)
    requires c.run.phase.Terminal()
    ensures Expired(c.run, a) <==>
            a.ttl.Some? && c.run.completionTime.Some? && a.now - c.run.completionTime.value >= a.ttl.value
    ensures Stamped(c.run, a) ==
            if a.ttl.Some? && c.run.completionTime.None? then c.run.(completionTime := Some(a.now)) else c.run
  {
  }
}
