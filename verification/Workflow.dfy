/**
 The workflow run reconciler (internal/controller/agentworkflowrun_controller.go):
 one AgentRun per stage, in order, from a snapshot of the workflow definition.

 Cluster is what the API server stores that a workflow run touches, with the
 harnesses in the Sandboxes and a record of the AgentRuns created and of those
 deleted before their name was recorded. Everything a reconcile cannot control (failed reads, a failed or
 lost create, a failed patch) is part of its Attempt.
 */
module Workflow {
  import opened Wrappers
  import Text
  import AgentRuns

  type Phase = AgentRuns.Phase

  /** The deterministic child name of a stage. */
  type Namer = string -> string

  datatype StageDef = StageDef(name: string, agentRef: string, instructions: string, execution: string)

  datatype Definition = Definition(guide: string, stages: seq<StageDef>)

  datatype WorkflowObject = WorkflowObject(ready: bool, definition: Definition)

  /** A stage of the snapshot and how far it has come. */
  datatype StageStatus = StageStatus(def: StageDef, phase: Phase, agentRunName: string)

  datatype RunStatus = RunStatus(
    phase: Phase,
    started: bool,
    guide: string,
    stages: seq<StageStatus>,
    currentStage: string,
    completionTime: Option<int>,
    reason: string)

  const FreshRun := RunStatus(AgentRuns.NoPhase, false, "", [], "", None, "")

  datatype ChildSpec = ChildSpec(def: StageDef, guide: string, stageEnv: string, countEnv: string)

  /** An AgentRun. owned: its controller reference names this workflow run.
      harness: the one in the Sandbox it made, by number, once it has made one. */
  datatype Child = Child(owned: bool, spec: ChildSpec, status: AgentRuns.RunStatus, harness: Option<nat>)

  /** The process in a Sandbox, from when the Sandbox is made to its exit; it may
      outlive both the Sandbox and the AgentRun. own: made for an AgentRun of this
      run, and so holding its token. */
  datatype Harness = Harness(own: bool, spec: ChildSpec, exit: Option<nat>)

  /** How the last of the run's own harnesses to exit did, and of which stage. */
  datatype Exit = Exit(spec: ChildSpec, code: nat)

  datatype Cluster = Cluster(
    workflow: Option<WorkflowObject>,
    run: RunStatus,
    children: map<string, Child>,
    sandboxes: map<string, nat>,
    harnesses: seq<Harness>,
    revoked: bool,
    lastExit: Option<Exit>,
    created: multiset<string>,
    dropped: multiset<string>)

  /** How the API server answers a create of a name that is free. CallLost: the
      object is created and the caller sees an error. */
  datatype CreateCall = CallOk | CallLost | CallFailed

  datatype Attempt = Attempt(
    workflowRead: bool,
    agentRead: bool,
    configOk: bool,
    create: CreateCall,
    existingRead: bool,
    childRead: bool,
    patchOk: bool,
    ttl: Option<int>,
    now: int)

  /** What a reconcile did to the run, for counting: it recorded an AgentRun,
      left a stage behind, or ended the run. */
  datatype Action = Nothing | Named | Advanced | Ended

  datatype Work = Work(run: RunStatus, children: map<string, Child>, created: multiset<string>, action: Action)

  // ----- One reconcile -----

  function SnapshotStages(stages: seq<StageDef>): seq<StageStatus> {
    seq(|stages|, i requires 0 <= i < |stages| => StageStatus(stages[i], AgentRuns.Pending, ""))
  }

  /** The first stage that has not succeeded, or the number of stages. */
  function Current(stages: seq<StageStatus>): (k: nat)
    ensures k <= |stages|
    ensures forall i | 0 <= i < k :: stages[i].phase == AgentRuns.Succeeded
    ensures k < |stages| ==> stages[k].phase != AgentRuns.Succeeded
  {
    if stages == [] || stages[0].phase != AgentRuns.Succeeded then 0 else 1 + Current(stages[1..])
  }

  /** The run with its start recorded and its snapshot taken. */
  function Begun(run: RunStatus, definition: Definition): RunStatus {
    var begun := if run.started then run else run.(started := true, phase := AgentRuns.Pending);
    if begun.stages == [] then begun.(guide := definition.guide, stages := SnapshotStages(definition.stages)) else begun
  }

  function NameAt(n: Namer, stages: seq<StageStatus>, i: nat): string
    requires i < |stages|
  {
    n(stages[i].def.name)
  }

  /** The AgentRun spec of stage i: its own definition, the guide and its
      1-based position. */
  function SpecAt(stages: seq<StageStatus>, guide: string, i: nat): ChildSpec
    requires i < |stages|
  {
    ChildSpec(stages[i].def, guide, Text.Decimal(i + 1), Text.Decimal(|stages|))
  }

  function NewChild(spec: ChildSpec): Child { Child(true, spec, AgentRuns.FreshStatus, None) }

  datatype CreateResult = Ready | ConfigError | TransientError

  /** Whether stage k's AgentRun can be counted on, before and after the create. */
  function CreateAnswer(name: string, children: map<string, Child>, a: Attempt): CreateResult {
    if !a.agentRead then TransientError
    else if !a.configOk then ConfigError
    else if name in children then
      if a.create != CallFailed && a.existingRead && children[name].owned then Ready else TransientError
    else if a.create == CallOk then Ready else TransientError
  }

  predicate Creates(name: string, children: map<string, Child>, a: Attempt) {
    a.agentRead && a.configOk && name !in children && a.create != CallFailed
  }

  function Ending(run: RunStatus, phase: Phase, reason: string, now: int): RunStatus {
    run.(phase := phase, reason := reason, completionTime := Some(now))
  }

  function WithStage(run: RunStatus, k: nat, stage: StageStatus): RunStatus
    requires k < |run.stages|
  {
    run.(stages := run.stages[k := stage])
  }

  /** Stage k has no AgentRun recorded: create or adopt it. */
  function Tried(n: Namer, c: Cluster, run: RunStatus, k: nat, a: Attempt): Work
    requires k < |run.stages|
  {
    var name := NameAt(n, run.stages, k);
    var creates := Creates(name, c.children, a);
    var children := if creates then c.children[name := NewChild(SpecAt(run.stages, run.guide, k))] else c.children;
    var created := if creates then c.created + multiset{name} else c.created;
    var stage := run.stages[k];
    match CreateAnswer(name, c.children, a)
    case Ready =>
      Work(WithStage(run, k, stage.(agentRunName := name, phase := AgentRuns.Pending)).(reason := "StageRunning"),
           children, created, Named)
    case ConfigError =>
      Work(Ending(WithStage(run, k, stage.(phase := AgentRuns.Failed)), AgentRuns.Failed, "InvalidParams", a.now),
           children, created, Ended)
    case TransientError =>
      Work(run.(reason := "AgentRunCreationFailed"), children, created, Nothing)
  }

  function Mirrored(stage: StageStatus, child: Child): StageStatus {
    if child.status.phase == AgentRuns.NoPhase then stage else stage.(phase := child.status.phase)
  }

  /** Stage k has an AgentRun recorded: follow it. */
  function Watched(c: Cluster, run: RunStatus, k: nat, a: Attempt): Work
    requires k < |run.stages|
  {
    var stage := run.stages[k];
    if !a.childRead then Work(c.run, c.children, c.created, Nothing)
    else if stage.agentRunName !in c.children then
      Work(Ending(WithStage(run, k, stage.(phase := AgentRuns.Failed)), AgentRuns.Failed, "AgentRunDeleted", a.now),
           c.children, c.created, Ended)
    else
      var child := c.children[stage.agentRunName];
      var mirrored := WithStage(run, k, Mirrored(stage, child));
      var advanced := if mirrored.stages[k].phase == AgentRuns.Succeeded then Advanced else Nothing;
      match child.status.succeeded
      case True => Work(mirrored.(reason := "StageSucceeded"), c.children, c.created, advanced)
      case False => Work(Ending(mirrored, AgentRuns.Failed, "StageFailed", a.now), c.children, c.created, Ended)
      case Unknown => Work(mirrored.(reason := "StageRunning"), c.children, c.created, advanced)
      case Unset => Work(mirrored.(reason := "StageRunning"), c.children, c.created, advanced)
  }

  function Driven(n: Namer, c: Cluster, run: RunStatus, a: Attempt): Work {
    var k := Current(run.stages);
    if k == |run.stages| then
      Work(Ending(run.(currentStage := ""), AgentRuns.Succeeded, "Succeeded", a.now), c.children, c.created, Ended)
    else
      var running := run.(currentStage := run.stages[k].def.name, phase := AgentRuns.Running);
      if run.stages[k].agentRunName == "" then Tried(n, c, running, k, a) else Watched(c, running, k, a)
  }

  /** A finished run under a TTL is given the completion time it lacks. */
  function Stamped(run: RunStatus, a: Attempt): RunStatus {
    if a.ttl.Some? && run.completionTime.None? then run.(completionTime := Some(a.now)) else run
  }

  /** What a reconcile does: AgentRuns it creates at once, and the status it
      then tries to patch. */
  function WorkOf(n: Namer, c: Cluster, a: Attempt): Work {
    if c.run.phase.Terminal() then Work(Stamped(c.run, a), c.children, c.created, Nothing)
    else if !a.workflowRead then Work(c.run, c.children, c.created, Nothing)
    else if c.workflow.None? then
      Work(Ending(c.run, AgentRuns.Failed, "WorkflowNotFound", a.now), c.children, c.created, Ended)
    else if !c.workflow.value.ready then
      Work(c.run.(reason := "WorkflowNotReady"), c.children, c.created, Nothing)
    else Driven(n, c, Begun(c.run, c.workflow.value.definition), a)
  }

  function Reconciled(n: Namer, c: Cluster, a: Attempt): Cluster {
    var work := WorkOf(n, c, a);
    c.(run := if a.patchOk then work.run else c.run, children := work.children, created := work.created)
  }

  predicate Expired(run: RunStatus, a: Attempt) {
    a.ttl.Some? && run.completionTime.Some? && run.completionTime.value + a.ttl.value <= a.now
  }

  /** The API server, as the reconciler's client sees it. */
  class ApiServer {
    var workflow: Option<WorkflowObject>
    var run: RunStatus
    var children: map<string, Child>
    ghost var sandboxes: map<string, nat>
    ghost var harnesses: seq<Harness>
    ghost var revoked: bool
    ghost var lastExit: Option<Exit>
    ghost var created: multiset<string>
    ghost var dropped: multiset<string>

    ghost function State(): Cluster
      reads this
    {
      Cluster(workflow, run, children, sandboxes, harnesses, revoked, lastExit, created, dropped)
    }

    method PatchRunStatus(status: RunStatus, ok: bool)
      modifies this`run
      ensures run == if ok then status else old(run)
    {
      if ok {
        run := status;
      }
    }

    method Create(name: string, child: Child, call: CreateCall) returns (answer: CreateResult, exists_: bool)
      modifies this`children, this`created
      ensures exists_ <==> old(name in children) && call != CallFailed
      ensures old(name !in children) && call != CallFailed ==>
                children == old(children)[name := child] && created == old(created) + multiset{name}
      ensures old(name in children) || call == CallFailed ==> children == old(children) && created == old(created)
      ensures answer == (if old(name !in children) && call == CallOk then Ready else TransientError)
    {
      exists_ := false;
      if call == CallFailed {
        return TransientError, false;
      }
      if name in children {
        return TransientError, true;
      }
      children := children[name := child];
      created := created + multiset{name};
      answer := if call == CallOk then Ready else TransientError;
    }

    method CreateAgentRunForStage(n: Namer, pbRun: RunStatus, stageIndex: nat, a: Attempt)
      returns (answer: CreateResult)
      requires stageIndex < |pbRun.stages|
      modifies this`children, this`created
      ensures var name := NameAt(n, pbRun.stages, stageIndex);
              && answer == CreateAnswer(name, old(children), a)
              && (Creates(name, old(children), a) ==>
                    && children == old(children)[name := NewChild(SpecAt(pbRun.stages, pbRun.guide, stageIndex))]
                    && created == old(created) + multiset{name})
              && (!Creates(name, old(children), a) ==> children == old(children) && created == old(created))
    {
      var name := NameAt(n, pbRun.stages, stageIndex);
      if !a.agentRead {
        return TransientError;
      }
      if !a.configOk {
        return ConfigError;
      }
      var spec := SpecAt(pbRun.stages, pbRun.guide, stageIndex);
      var already;
      answer, already := Create(name, NewChild(spec), a.create);
      if already {
        if !a.existingRead || !children[name].owned {
          return TransientError;
        }
        return Ready;
      }
    }

    method FindCurrentStageIndex(stages: seq<StageStatus>) returns (k: nat)
      ensures k == Current(stages)
    {
      for i := 0 to |stages|
        invariant forall j | 0 <= j < i :: stages[j].phase == AgentRuns.Succeeded
      {
        if stages[i].phase != AgentRuns.Succeeded {
          return i;
        }
      }
      return |stages|;
    }

    /** Reports whether the run outlived its TTL and is to be deleted. */
    method ReconcileTTL(a: Attempt) returns (delete: bool)
      modifies this`run
      ensures run == if a.patchOk then Stamped(old(run), a) else old(run)
      ensures delete == Expired(old(run), a)
    {
      if a.ttl.None? {
        return false;
      }
      if run.completionTime.None? {
        PatchRunStatus(run.(completionTime := Some(a.now)), a.patchOk);
        return false;
      }
      delete := run.completionTime.value + a.ttl.value - a.now <= 0;
    }

    method Reconcile(n: Namer, a: Attempt) returns (delete: bool)
      modifies this
      ensures State() == Reconciled(n, old(State()), a)
      ensures delete <==> old(run).phase.Terminal() && Expired(old(run), a)
    {
      delete := false;
      var pbRun := run;
      if pbRun.phase.Terminal() {
        delete := ReconcileTTL(a);
        return;
      }
      if !a.workflowRead {
        return;
      }
      if workflow.None? {
        pbRun := pbRun.(phase := AgentRuns.Failed);
        pbRun := pbRun.(completionTime := Some(a.now));
        pbRun := pbRun.(reason := "WorkflowNotFound");
        PatchRunStatus(pbRun, a.patchOk);
        return;
      }
      if !workflow.value.ready {
        pbRun := pbRun.(reason := "WorkflowNotReady");
        PatchRunStatus(pbRun, a.patchOk);
        return;
      }
      if !pbRun.started {
        pbRun := pbRun.(started := true);
        pbRun := pbRun.(phase := AgentRuns.Pending);
      }
      if |pbRun.stages| == 0 {
        var definition := workflow.value.definition;
        pbRun := pbRun.(guide := definition.guide);
        pbRun := pbRun.(stages := SnapshotStages(definition.stages));
      }
      DriveStages(n, pbRun, a);
    }

    method DriveStages(n: Namer, status: RunStatus, a: Attempt)
      modifies this`run, this`children, this`created
      ensures var work := Driven(n, old(State()), status, a);
              && run == (if a.patchOk then work.run else old(run))
              && children == work.children && created == work.created
    {
      var pbRun := status;
      var stageIndex := FindCurrentStageIndex(pbRun.stages);
      if stageIndex >= |pbRun.stages| {
        pbRun := pbRun.(phase := AgentRuns.Succeeded);
        pbRun := pbRun.(currentStage := "");
        pbRun := pbRun.(completionTime := Some(a.now));
        pbRun := pbRun.(reason := "Succeeded");
        PatchRunStatus(pbRun, a.patchOk);
        return;
      }
      pbRun := pbRun.(currentStage := pbRun.stages[stageIndex].def.name);
      pbRun := pbRun.(phase := AgentRuns.Running);
      if pbRun.stages[stageIndex].agentRunName == "" {
        LaunchStage(n, pbRun, stageIndex, a);
      } else {
        FollowStage(pbRun, stageIndex, a);
      }
    }

    method LaunchStage(n: Namer, status: RunStatus, stageIndex: nat, a: Attempt)
      requires stageIndex < |status.stages|
      modifies this`run, this`children, this`created
      ensures var work := Tried(n, old(State()), status, stageIndex, a);
              && run == (if a.patchOk then work.run else old(run))
              && children == work.children && created == work.created
    {
      var pbRun := status;
      var stage := pbRun.stages[stageIndex];
      var answer := CreateAgentRunForStage(n, pbRun, stageIndex, a);
      if answer == ConfigError {
        stage := stage.(phase := AgentRuns.Failed);
        pbRun := pbRun.(stages := pbRun.stages[stageIndex := stage]);
        pbRun := pbRun.(phase := AgentRuns.Failed);
        pbRun := pbRun.(completionTime := Some(a.now));
        pbRun := pbRun.(reason := "InvalidParams");
        PatchRunStatus(pbRun, a.patchOk);
        return;
      }
      if answer == TransientError {
        pbRun := pbRun.(reason := "AgentRunCreationFailed");
        PatchRunStatus(pbRun, a.patchOk);
        return;
      }
      stage := stage.(agentRunName := NameAt(n, pbRun.stages, stageIndex));
      stage := stage.(phase := AgentRuns.Pending);
      pbRun := pbRun.(stages := pbRun.stages[stageIndex := stage]);
      pbRun := pbRun.(reason := "StageRunning");
      PatchRunStatus(pbRun, a.patchOk);
    }

    method FollowStage(status: RunStatus, stageIndex: nat, a: Attempt)
      requires stageIndex < |status.stages|
      modifies this`run
      ensures var work := Watched(old(State()), status, stageIndex, a);
              run == (if a.patchOk then work.run else old(run))
    {
      var pbRun := status;
      var stage := pbRun.stages[stageIndex];
      if !a.childRead {
        return;
      }
      if stage.agentRunName !in children {
        stage := stage.(phase := AgentRuns.Failed);
        pbRun := pbRun.(stages := pbRun.stages[stageIndex := stage]);
        pbRun := pbRun.(phase := AgentRuns.Failed);
        pbRun := pbRun.(completionTime := Some(a.now));
        pbRun := pbRun.(reason := "AgentRunDeleted");
        PatchRunStatus(pbRun, a.patchOk);
        return;
      }
      var agentRun := children[stage.agentRunName];
      if agentRun.status.phase != AgentRuns.NoPhase {
        stage := stage.(phase := agentRun.status.phase);
      }
      pbRun := pbRun.(stages := pbRun.stages[stageIndex := stage]);
      match agentRun.status.succeeded {
        case True =>
          pbRun := pbRun.(reason := "StageSucceeded");
        case False =>
          pbRun := pbRun.(phase := AgentRuns.Failed);
          pbRun := pbRun.(completionTime := Some(a.now));
          pbRun := pbRun.(reason := "StageFailed");
        case Unknown =>
          pbRun := pbRun.(reason := "StageRunning");
        case Unset =>
          pbRun := pbRun.(reason := "StageRunning");
      }
      PatchRunStatus(pbRun, a.patchOk);
    }
  }
}
