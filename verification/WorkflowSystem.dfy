/**
 Every run of the system: workflow reconciles, AgentRun reconciles, harness
 exits, edits of the live workflow, deletions of AgentRuns and Sandboxes and
 other users' objects of either kind, in any order, with any failures. A step carries all its nondeterminism.
 */
module WorkflowSystem {
  import opened Wrappers
  import Text
  import Stage
  import AgentRuns
  import opened Workflow

  datatype Step =
    | Reconcile(a: Attempt)
    | RunReconcile(name: string, w: AgentRuns.World, patchOk: bool)
    | HarnessExit(i: nat, code: nat, cleaned: bool)
    | SetReady(ready: bool)
    | Edit(workflow: Option<WorkflowObject>)
    | DeleteChild(name: string)
    | ForeignCreate(name: string, child: Child)
    | DeleteSandbox(name: string)
    | ForeignSandbox(name: string, spec: ChildSpec)

  predicate Recorded(run: RunStatus, name: string) {
    exists i :: 0 <= i < |run.stages| && run.stages[i].agentRunName == name
  }

  predicate OwnedIn(children: map<string, Child>, name: string) {
    name in children && children[name].owned
  }

  function Apply(n: Namer, c: Cluster, s: Step): Cluster {
    match s
    case Reconcile(a) => Reconciled(n, c, a)
    case RunReconcile(name, w, patchOk) =>
      if name !in c.children then c else RunReconciled(c, name, w, patchOk)
    case HarnessExit(i, code, cleaned) =>
      if i >= |c.harnesses| || c.harnesses[i].exit.Some? then c else
      var h := c.harnesses[i];
      c.(harnesses := c.harnesses[i := h.(exit := Some(code))],
         revoked := c.revoked || (h.own && cleaned && Revokes(h.spec, code)),
         lastExit := if h.own then Some(Exit(h.spec, code)) else c.lastExit)
    case SetReady(ready) =>
      if c.workflow.None? then c else c.(workflow := Some(c.workflow.value.(ready := ready)))
    case Edit(workflow) => c.(workflow := workflow)
    case DeleteChild(name) =>
      c.(children := c.children - {name},
         dropped := if OwnedIn(c.children, name) && !Recorded(c.run, name) then c.dropped + multiset{name} else c.dropped)
    case ForeignCreate(name, child) =>
      if name in c.children then c else c.(children := c.children[name := child.(owned := false, harness := None)])
    case DeleteSandbox(name) => c.(sandboxes := c.sandboxes - {name})
    case ForeignSandbox(name, spec) =>
      if name in c.sandboxes then c else WithSandbox(c, name, Harness(false, spec, None))
  }

  /** A Sandbox under a free name, and the harness in it. */
  function WithSandbox(c: Cluster, name: string, h: Harness): Cluster {
    c.(sandboxes := c.sandboxes[name := |c.harnesses|], harnesses := c.harnesses + [h])
  }

  /** The AgentRun controller's reconcile. A Sandbox bears its AgentRun's name; one
      that is there already is taken as it is, whoever made it. */
  function RunReconciled(c: Cluster, name: string, w: AgentRuns.World, patchOk: bool): Cluster
    requires name in c.children
  {
    var child := c.children[name];
    var status := RunStatusAfter(c, name, w, patchOk);
    if MakesSandbox(c, name, w) then
      WithSandbox(c.(children := c.children[name := child.(status := status, harness := Some(|c.harnesses|))]),
                  name, Harness(child.owned, child.spec, None))
    else c.(children := c.children[name := child.(status := status)])
  }

  function RunStatusAfter(c: Cluster, name: string, w: AgentRuns.World, patchOk: bool): AgentRuns.RunStatus
    requires name in c.children
  {
    var named := if w.create.Created? then w.(create := AgentRuns.Created(name)) else w;
    AgentRuns.Reconciled(c.children[name].status, named, patchOk)
  }

  predicate MakesSandbox(c: Cluster, name: string, w: AgentRuns.World) {
    name in c.children && AgentRuns.EnsuresSandbox(c.children[name].status, w) && name !in c.sandboxes
  }

  /** How the harness in the Sandbox of this name exited, once it has. */
  function ExitIn(c: Cluster, name: string): Option<nat> {
    if name in c.sandboxes && c.sandboxes[name] < |c.harnesses| then c.harnesses[c.sandboxes[name]].exit else None
  }

  /** A stage that exits revokes the token unless it succeeded and is not the
      last (Stage.RunStage's ensures), if its deferred calls run and work. */
  predicate Revokes(spec: ChildSpec, code: nat) {
    !(Stage.Intermediate(spec.stageEnv, spec.countEnv) && code == 0)
  }

  /** The stages of the run: the snapshot once there is one, and before that the
      snapshot the next reconcile would take of a run that has not ended. */
  function Plan(c: Cluster): seq<StageStatus> {
    if c.run.stages != [] then c.run.stages
    else if c.workflow.Some? && !c.run.phase.Terminal() then SnapshotStages(c.workflow.value.definition.stages)
    else []
  }

  function PlanGuide(c: Cluster): string {
    if c.run.stages != [] then c.run.guide
    else if c.workflow.Some? then c.workflow.value.definition.guide
    else ""
  }

  /** Stage names give distinct, nonempty child names, and the stages can be
      counted in 64 bits. */
  ghost predicate Nameable(n: Namer, stages: seq<StageStatus>) {
    && |stages| < Text.UINT64_LIMIT
    && (forall i | 0 <= i < |stages| :: NameAt(n, stages, i) != "")
    && (forall i, j | 0 <= i < j < |stages| :: NameAt(n, stages, i) != NameAt(n, stages, j))
  }

  /** An edit of the live workflow that matters neither to the snapshot nor to an
      AgentRun already made: the run has its snapshot or is over, or the new
      workflow names its stages apart and gives the first stage the AgentRun that
      exists, if one does. */
  ghost predicate SafeEdit(n: Namer, c: Cluster, workflow: Option<WorkflowObject>) {
    || c.run.stages != [] || c.run.phase.Terminal() || workflow.None?
    || var stages := SnapshotStages(workflow.value.definition.stages);
       stages == [] ||
       (Nameable(n, stages)
        && forall name | OwnedIn(c.children, name) ::
             name == NameAt(n, stages, 0)
             && c.children[name].spec == SpecAt(stages, workflow.value.definition.guide, 0))
  }

  /** A stranger's AgentRun bears the current stage's recorded name and reads
      Succeeded. */
  predicate StrangerSucceeds(c: Cluster) {
    var k := Current(c.run.stages);
    && k < |c.run.stages| && c.run.stages[k].agentRunName != ""
    && c.run.stages[k].agentRunName in c.children
    && !c.children[c.run.stages[k].agentRunName].owned
    && c.children[c.run.stages[k].agentRunName].status.phase == AgentRuns.Succeeded
  }

  ghost predicate Allowed(n: Namer, c: Cluster, s: Step) {
    s.Edit? ==> SafeEdit(n, c, s.workflow)
  }

  ghost predicate Initial(n: Namer, c: Cluster) {
    && c.run == FreshRun && !c.revoked && c.lastExit.None? && c.created == multiset{} && c.dropped == multiset{}
    && (forall name | name in c.children :: !c.children[name].owned)
    && (forall h | h in c.harnesses :: !h.own) && Numbered(c)
    && Nameable(n, Plan(c))
  }

  /** Every Sandbox holds a harness, and every AgentRun's own is one there is. */
  ghost predicate Numbered(c: Cluster) {
    && (forall name | name in c.sandboxes :: c.sandboxes[name] < |c.harnesses|)
    && (forall name | name in c.children && c.children[name].harness.Some? ::
          c.children[name].harness.value < |c.harnesses|)
  }

  function Exec(n: Namer, c: Cluster, steps: seq<Step>): Cluster
    decreases |steps|
  {
    if steps == [] then c else Exec(n, Apply(n, c, steps[0]), steps[1..])
  }

  ghost predicate Legal(n: Namer, c: Cluster, steps: seq<Step>)
    decreases |steps|
  {
    steps == [] || (Allowed(n, c, steps[0]) && Legal(n, Apply(n, c, steps[0]), steps[1..]))
  }

  lemma Onward(n: Namer, c: Cluster, s: Step, rest: seq<Step>)
    ensures Exec(n, c, [s] + rest) == Exec(n, Apply(n, c, s), rest)
    ensures Legal(n, c, [s] + rest) <==> Allowed(n, c, s) && Legal(n, Apply(n, c, s), rest)
  {
    assert ([s] + rest)[1..] == rest;
  }

  // ----- The invariant -----

  /** Succeeded stages, then at most one current stage, then untouched ones. */
  ghost predicate Shape(n: Namer, stages: seq<StageStatus>) {
    var k := Current(stages);
    && (forall i | 0 <= i < k :: stages[i].agentRunName == NameAt(n, stages, i))
    && (k < |stages| ==> stages[k].agentRunName == "" || stages[k].agentRunName == NameAt(n, stages, k))
    && (forall i | k < i < |stages| :: stages[i].phase == AgentRuns.Pending && stages[i].agentRunName == "")
  }

  /** What is known of stage i's AgentRun. */
  ghost predicate StageChildFits(n: Namer, stages: seq<StageStatus>, guide: string, children: map<string, Child>, i: nat)
    requires i < |stages|
  {
    var name := NameAt(n, stages, i);
    OwnedIn(children, name) ==>
      && i <= Current(stages)
      && children[name].spec == SpecAt(stages, guide, i)
      && (i < Current(stages) ==> children[name].status.phase == AgentRuns.Succeeded)
  }

  ghost predicate IsStageName(n: Namer, stages: seq<StageStatus>, name: string) {
    exists i :: 0 <= i < |stages| && NameAt(n, stages, i) == name
  }

  ghost predicate Fit(n: Namer, stages: seq<StageStatus>, guide: string, children: map<string, Child>) {
    && Nameable(n, stages)
    && Shape(n, stages)
    && (forall i: nat | i < |stages| :: StageChildFits(n, stages, guide, children, i))
    && (forall name | OwnedIn(children, name) :: IsStageName(n, stages, name))
  }

  /** An AgentRun that exists, or whose name is recorded whether or not it does. */
  ghost predicate Taken(c: Cluster, name: string) {
    OwnedIn(c.children, name) || (name != "" && Recorded(c.run, name))
  }

  /** Every AgentRun created is taken or was dropped. */
  ghost predicate Counted(c: Cluster) {
    forall name {:trigger c.created[name]} {:trigger c.dropped[name]} ::
      c.created[name] == c.dropped[name] + if Taken(c, name) then 1 else 0
  }

  /** The run's own AgentRuns have names, their controller keeps them coherent, and
      a Sandbox they record bears their own name. */
  ghost predicate OwnedAreCoherent(children: map<string, Child>) {
    forall name | OwnedIn(children, name) ::
      && name != "" && AgentRuns.Coherent(children[name].status)
      && (children[name].status.sandboxName == "" || children[name].status.sandboxName == name)
  }

  /** Before there is a snapshot the run owns one AgentRun at most. */
  ghost predicate OneOwned(children: map<string, Child>) {
    forall a, b | OwnedIn(children, a) && OwnedIn(children, b) :: a == b
  }

  ghost predicate Inv(n: Namer, c: Cluster) {
    && OwnedAreCoherent(c.children)
    && (Plan(c) != [] ==> Fit(n, Plan(c), PlanGuide(c), c.children))
    && (c.run.stages == [] ==> OneOwned(c.children))
    && Counted(c)
    && (c.run.phase == AgentRuns.Succeeded && c.run.stages != [] ==> Current(c.run.stages) == |c.run.stages|)
  }

  // ----- How the parts of a reconcile keep Fit -----

  lemma {:induction false} CurrentIs(stages: seq<StageStatus>, k: nat)
    requires k <= |stages|
    requires forall i | 0 <= i < k :: stages[i].phase == AgentRuns.Succeeded
    requires k < |stages| ==> stages[k].phase != AgentRuns.Succeeded
    ensures Current(stages) == k
  {
  }

  /** Changing stage k's progress leaves every name and spec where it was. */
  lemma SameNames(n: Namer, stages: seq<StageStatus>, guide: string, k: nat, stage: StageStatus)
    requires k < |stages| && stage.def == stages[k].def
    ensures forall i: nat | i < |stages| :: NameAt(n, stages[k := stage], i) == NameAt(n, stages, i)
    ensures forall i: nat | i < |stages| :: SpecAt(stages[k := stage], guide, i) == SpecAt(stages, guide, i)
    ensures Nameable(n, stages) ==> Nameable(n, stages[k := stage])
    ensures forall name :: IsStageName(n, stages, name) <==> IsStageName(n, stages[k := stage], name)
  {
    var later := stages[k := stage];
    forall i: nat | i < |stages|
      ensures NameAt(n, later, i) == NameAt(n, stages, i)
    {
    }
    forall name
      ensures IsStageName(n, stages, name) <==> IsStageName(n, later, name)
    {
      if IsStageName(n, stages, name) {
        var i: nat :| i < |stages| && NameAt(n, stages, i) == name;
        assert NameAt(n, later, i) == name;
      }
      if IsStageName(n, later, name) {
        var i: nat :| i < |later| && NameAt(n, later, i) == name;
        assert NameAt(n, stages, i) == name;
      }
    }
  }

  /** A fresh snapshot fits the AgentRuns there are exactly when its stages are
      nameable and they are all its first stage's. */
  lemma FreshSnapshotFits(n: Namer, defs: seq<StageDef>, guide: string, children: map<string, Child>)
    requires defs != []
    ensures var stages := SnapshotStages(defs);
            Fit(n, stages, guide, children) <==>
            Nameable(n, stages)
            && forall name | OwnedIn(children, name) ::
                 name == NameAt(n, stages, 0) && children[name].spec == SpecAt(stages, guide, 0)
  {
    var stages := SnapshotStages(defs);
    assert Current(stages) == 0;
    if Fit(n, stages, guide, children) {
      forall name | OwnedIn(children, name)
        ensures name == NameAt(n, stages, 0) && children[name].spec == SpecAt(stages, guide, 0)
      {
        var i: nat :| i < |stages| && NameAt(n, stages, i) == name;
        assert StageChildFits(n, stages, guide, children, i);
      }
    }
    if Nameable(n, stages) && forall name | OwnedIn(children, name) ::
         name == NameAt(n, stages, 0) && children[name].spec == SpecAt(stages, guide, 0) {
      forall i: nat | i < |stages|
        ensures StageChildFits(n, stages, guide, children, i)
      {
        assert OwnedIn(children, NameAt(n, stages, i)) ==> i == 0;
      }
      assert forall name | OwnedIn(children, name) :: IsStageName(n, stages, name);
    }
  }

  lemma CreatingFits(n: Namer, stages: seq<StageStatus>, guide: string, children: map<string, Child>, k: nat)
    requires Fit(n, stages, guide, children)
    requires k == Current(stages) < |stages| && NameAt(n, stages, k) !in children
    ensures Fit(n, stages, guide, children[NameAt(n, stages, k) := NewChild(SpecAt(stages, guide, k))])
  {
    var name := NameAt(n, stages, k);
    var later := children[name := NewChild(SpecAt(stages, guide, k))];
    forall i: nat | i < |stages|
      ensures StageChildFits(n, stages, guide, later, i)
    {
      assert StageChildFits(n, stages, guide, children, i);
      assert i != k ==> NameAt(n, stages, i) != name;
    }
    forall other | OwnedIn(later, other)
      ensures IsStageName(n, stages, other)
    {
      if other != name {
        assert OwnedIn(children, other);
      }
    }
  }

  /** Updating the current stage's phase and recorded name, short of success. */
  lemma MovingCurrentFits(
    n: Namer, stages: seq<StageStatus>, guide: string, children: map<string, Child>, k: nat, stage: StageStatus)
    requires Fit(n, stages, guide, children)
    requires k == Current(stages) < |stages| && stage.def == stages[k].def
    requires stage.phase != AgentRuns.Succeeded
    requires stage.agentRunName == stages[k].agentRunName
          || (stage.agentRunName == NameAt(n, stages, k) && OwnedIn(children, NameAt(n, stages, k)))
    ensures Fit(n, stages[k := stage], guide, children)
    ensures Current(stages[k := stage]) == k
  {
    var later := stages[k := stage];
    CurrentIs(later, k);
    SameNames(n, stages, guide, k, stage);
    forall i: nat | i < |later|
      ensures StageChildFits(n, later, guide, children, i)
    {
      assert StageChildFits(n, stages, guide, children, i);
    }
  }

  /** Recording the current stage's success, seen on its AgentRun. */
  lemma SucceedingFits(n: Namer, stages: seq<StageStatus>, guide: string, children: map<string, Child>, k: nat)
    requires Fit(n, stages, guide, children)
    requires k == Current(stages) < |stages| && stages[k].agentRunName == NameAt(n, stages, k)
    requires NameAt(n, stages, k) in children
    requires children[NameAt(n, stages, k)].status.phase == AgentRuns.Succeeded
    ensures Fit(n, stages[k := stages[k].(phase := AgentRuns.Succeeded)], guide, children)
    ensures Current(stages[k := stages[k].(phase := AgentRuns.Succeeded)]) == k + 1
  {
    var stage := stages[k].(phase := AgentRuns.Succeeded);
    var later := stages[k := stage];
    CurrentIs(later, k + 1);
    SameNames(n, stages, guide, k, stage);
    forall i: nat | i < |later|
      ensures StageChildFits(n, later, guide, children, i)
    {
      assert StageChildFits(n, stages, guide, children, i);
    }
  }

  // ----- One reconcile keeps the invariant -----

  lemma BegunIsThePlan(c: Cluster)
    requires c.workflow.Some? && !c.run.phase.Terminal()
    ensures var run := Begun(c.run, c.workflow.value.definition);
            run.stages == Plan(c) && (Plan(c) != [] ==> run.guide == PlanGuide(c))
  {
  }

  /** The AgentRuns a reconcile leaves. */
  ghost predicate ChildrenFit(n: Namer, c: Cluster, children: map<string, Child>) {
    && OwnedAreCoherent(children)
    && (c.run.stages == [] ==> OneOwned(children))
    && (Plan(c) != [] ==> Fit(n, Plan(c), PlanGuide(c), children))
  }

  /** The status a reconcile leaves for the patch. */
  ghost predicate RunFits(n: Namer, c: Cluster, work: Work) {
    && (work.run.stages != [] ==> Fit(n, work.run.stages, work.run.guide, work.children))
    && (work.run.stages == [] ==> c.run.stages == [] && (work.run.phase.Terminal() || Plan(c.(run := work.run)) == Plan(c)))
    && (work.run.phase == AgentRuns.Succeeded && work.run.stages != [] ==>
          Current(work.run.stages) == |work.run.stages|)
  }

  ghost predicate WorkFits(n: Namer, c: Cluster, work: Work) {
    ChildrenFit(n, c, work.children) && RunFits(n, c, work)
  }

  /** While nothing is recorded, only the first stage's AgentRun can be there. */
  lemma FirstIsFree(n: Namer, stages: seq<StageStatus>, guide: string, children: map<string, Child>)
    requires Fit(n, stages, guide, children) && stages != [] && Current(stages) == 0
    ensures forall name | OwnedIn(children, name) :: name == NameAt(n, stages, 0)
  {
    forall name | OwnedIn(children, name)
      ensures name == NameAt(n, stages, 0)
    {
      var i: nat :| i < |stages| && NameAt(n, stages, i) == name;
      assert StageChildFits(n, stages, guide, children, i);
    }
  }

  lemma CreatingKeepsOwned(n: Namer, c: Cluster, k: nat)
    requires Inv(n, c) && k == Current(Plan(c)) < |Plan(c)| && NameAt(n, Plan(c), k) !in c.children
    requires c.run.stages == [] ==> k == 0
    ensures ChildrenFit(n, c, c.children[NameAt(n, Plan(c), k) := NewChild(SpecAt(Plan(c), PlanGuide(c), k))])
  {
    CreatingFits(n, Plan(c), PlanGuide(c), c.children, k);
    if c.run.stages == [] {
      FirstIsFree(n, Plan(c), PlanGuide(c), c.children);
      var name := NameAt(n, Plan(c), k);
      var later := c.children[name := NewChild(SpecAt(Plan(c), PlanGuide(c), k))];
      forall x | OwnedIn(later, x)
        ensures x == name
      {
        assert x != name ==> OwnedIn(c.children, x);
      }
    }
  }

  lemma TriedFits(n: Namer, c: Cluster, run: RunStatus, k: nat, a: Attempt)
    requires Inv(n, c) && run.stages == Plan(c) && run.guide == PlanGuide(c)
    requires c.run.stages == [] ==> k == 0
    requires k == Current(run.stages) < |run.stages| && run.stages[k].agentRunName == ""
    requires run.phase == AgentRuns.Running
    ensures WorkFits(n, c, Tried(n, c, run, k, a))
  {
    var name := NameAt(n, run.stages, k);
    var work := Tried(n, c, run, k, a);
    var stage := run.stages[k];
    if Creates(name, c.children, a) {
      CreatingKeepsOwned(n, c, k);
    }
    assert Fit(n, run.stages, run.guide, work.children);
    match CreateAnswer(name, c.children, a)
    case Ready =>
      MovingCurrentFits(n, run.stages, run.guide, work.children, k, stage.(agentRunName := name, phase := AgentRuns.Pending));
    case ConfigError =>
      MovingCurrentFits(n, run.stages, run.guide, work.children, k, stage.(phase := AgentRuns.Failed));
    case TransientError =>
  }

  lemma WatchedFits(n: Namer, c: Cluster, run: RunStatus, k: nat, a: Attempt)
    requires Inv(n, c) && run.stages == Plan(c) && run.guide == PlanGuide(c)
    requires k == Current(run.stages) < |run.stages| && run.stages[k].agentRunName != ""
    requires run.phase == AgentRuns.Running
    ensures WorkFits(n, c, Watched(c, run, k, a))
  {
    var stage := run.stages[k];
    assert c.run.stages != [];
    if a.childRead {
      WatchedLeaves(c, run, k, a);
      if stage.agentRunName !in c.children {
        MovingCurrentFits(n, run.stages, run.guide, c.children, k, stage.(phase := AgentRuns.Failed));
      } else {
        FollowingFits(n, run.stages, run.guide, c.children, k);
      }
      SameChildrenFit(n, c, Watched(c, run, k, a));
    }
  }

  lemma WatchedLeaves(c: Cluster, run: RunStatus, k: nat, a: Attempt)
    requires k < |run.stages| && a.childRead && run.phase == AgentRuns.Running
    ensures var work, stage := Watched(c, run, k, a), run.stages[k];
            && work.children == c.children && work.created == c.created
            && work.run.guide == run.guide
            && work.run.phase == (if stage.agentRunName !in c.children
                                     || c.children[stage.agentRunName].status.succeeded == AgentRuns.False
                                  then AgentRuns.Failed else AgentRuns.Running)
            && work.run.stages ==
               run.stages[k := if stage.agentRunName !in c.children then stage.(phase := AgentRuns.Failed)
                               else Mirrored(stage, c.children[stage.agentRunName])]
  {
  }

  lemma SameChildrenFit(n: Namer, c: Cluster, work: Work)
    requires Inv(n, c) && work.children == c.children && work.run.stages != []
    requires Fit(n, work.run.stages, work.run.guide, c.children) && work.run.phase != AgentRuns.Succeeded
    ensures WorkFits(n, c, work)
  {
  }

  /** Mirroring whatever bears the current stage's recorded name. */
  lemma FollowingFits(n: Namer, stages: seq<StageStatus>, guide: string, children: map<string, Child>, k: nat)
    requires Fit(n, stages, guide, children)
    requires k == Current(stages) < |stages| && stages[k].agentRunName != "" && stages[k].agentRunName in children
    ensures Fit(n, stages[k := Mirrored(stages[k], children[stages[k].agentRunName])], guide, children)
  {
    var child := children[stages[k].agentRunName];
    RecordedIsOwnName(n, stages, k);
    if child.status.phase == AgentRuns.Succeeded {
      SucceedingFits(n, stages, guide, children, k);
    } else {
      MovingCurrentFits(n, stages, guide, children, k, Mirrored(stages[k], child));
    }
  }

  lemma WorkAlwaysFits(n: Namer, c: Cluster, a: Attempt)
    requires Inv(n, c)
    ensures WorkFits(n, c, WorkOf(n, c, a))
  {
    if !c.run.phase.Terminal() && a.workflowRead && c.workflow.Some? && c.workflow.value.ready {
      DrivenFits(n, c, a);
    }
  }

  lemma DrivenFits(n: Namer, c: Cluster, a: Attempt)
    requires Inv(n, c) && !c.run.phase.Terminal() && c.workflow.Some? && c.workflow.value.ready
    ensures WorkFits(n, c, Driven(n, c, Begun(c.run, c.workflow.value.definition), a))
  {
    var run := Begun(c.run, c.workflow.value.definition);
    BegunIsThePlan(c);
    var k := Current(run.stages);
    if k < |run.stages| {
      assert c.run.stages == [] ==> run.stages[0].phase == AgentRuns.Pending;
      var running := run.(currentStage := run.stages[k].def.name, phase := AgentRuns.Running);
      if run.stages[k].agentRunName == "" {
        TriedFits(n, c, running, k, a);
      } else {
        WatchedFits(n, c, running, k, a);
      }
    }
  }

  /** Names recorded by a reconcile belong to AgentRuns this run owns, and no
      recorded name is forgotten. */
  ghost predicate RecordsGrow(c: Cluster, work: Work) {
    && (forall name | name != "" && Recorded(c.run, name) :: Recorded(work.run, name))
    && (forall name | name != "" && Recorded(work.run, name) ::
          Recorded(c.run, name) || OwnedIn(work.children, name))
  }

  /** A reconcile creates nothing, or one AgentRun under a name that was free
      and not recorded. */
  ghost predicate CreatesAtMostOne(n: Namer, c: Cluster, work: Work) {
    || (work.children == c.children && work.created == c.created)
    || exists k: nat ::
         && k < |Plan(c)| && k == Current(Plan(c))
         && CreatesAt(n, c, work, k)
  }

  ghost predicate CreatesAt(n: Namer, c: Cluster, work: Work, k: nat)
    requires k < |Plan(c)|
  {
    var name := NameAt(n, Plan(c), k);
    && name !in c.children && !Taken(c, name)
    && work.children == c.children[name := NewChild(SpecAt(Plan(c), PlanGuide(c), k))]
    && work.created == c.created + multiset{name}
  }

  /** Only stages up to the current one have a recorded name. */
  lemma RecordedIsOwnName(n: Namer, stages: seq<StageStatus>, i: nat)
    requires Shape(n, stages) && i < |stages| && stages[i].agentRunName != ""
    ensures i <= Current(stages) && stages[i].agentRunName == NameAt(n, stages, i)
  {
  }

  lemma RecordedNamesAreEarlier(n: Namer, stages: seq<StageStatus>, name: string, k: nat)
    requires Nameable(n, stages) && Shape(n, stages) && k == Current(stages) < |stages|
    requires stages[k].agentRunName == ""
    ensures (exists i :: 0 <= i < |stages| && stages[i].agentRunName == name) && name != "" ==>
            name != NameAt(n, stages, k)
  {
    if i :| 0 <= i < |stages| && stages[i].agentRunName == name && name != "" {
      RecordedIsOwnName(n, stages, i);
    }
  }

  lemma SettingAStageRecords(run: RunStatus, k: nat, stage: StageStatus, before: RunStatus)
    requires k < |run.stages|
    requires stage.agentRunName == run.stages[k].agentRunName || run.stages[k].agentRunName == ""
    requires before.stages == run.stages
          || (before.stages == [] && forall i | 0 <= i < |run.stages| :: run.stages[i].agentRunName == "")
    ensures var later := run.(stages := run.stages[k := stage]);
            && (forall name | name != "" && Recorded(before, name) :: Recorded(later, name))
            && (forall name | name != "" && Recorded(later, name) ::
                  Recorded(before, name) || name == stage.agentRunName)
  {
    var later := run.(stages := run.stages[k := stage]);
    forall name | name != "" && Recorded(before, name)
      ensures Recorded(later, name)
    {
      var i :| 0 <= i < |before.stages| && before.stages[i].agentRunName == name;
      assert later.stages[i].agentRunName == name;
    }
    forall name | name != "" && Recorded(later, name)
      ensures Recorded(before, name) || name == stage.agentRunName
    {
      var i :| 0 <= i < |later.stages| && later.stages[i].agentRunName == name;
      assert i != k ==> run.stages[i].agentRunName == name;
    }
  }

  lemma BegunRecordsNothing(c: Cluster)
    requires c.workflow.Some?
    ensures var run := Begun(c.run, c.workflow.value.definition);
            c.run.stages == run.stages
            || (c.run.stages == [] && forall i | 0 <= i < |run.stages| :: run.stages[i].agentRunName == "")
  {
  }

  lemma TriedCounts(n: Namer, c: Cluster, run: RunStatus, k: nat, a: Attempt)
    requires Inv(n, c) && c.workflow.Some? && !c.run.phase.Terminal()
    requires run.stages == Plan(c) && run.guide == PlanGuide(c)
    requires run.stages == Begun(c.run, c.workflow.value.definition).stages
    requires k == Current(run.stages) < |run.stages| && run.stages[k].agentRunName == ""
    ensures RecordsGrow(c, Tried(n, c, run, k, a)) && CreatesAtMostOne(n, c, Tried(n, c, run, k, a))
  {
    var work := Tried(n, c, run, k, a);
    var name := NameAt(n, run.stages, k);
    BegunRecordsNothing(c);
    RecordedNamesAreEarlier(n, run.stages, name, k);
    if Creates(name, c.children, a) {
      assert !Taken(c, name);
      assert CreatesAt(n, c, work, k);
    }
    match CreateAnswer(name, c.children, a)
    case Ready =>
      SettingAStageRecords(run, k, run.stages[k].(agentRunName := name, phase := AgentRuns.Pending), c.run);
    case ConfigError =>
      SettingAStageRecords(run, k, run.stages[k].(phase := AgentRuns.Failed), c.run);
    case TransientError =>
      SettingAStageRecords(run, k, run.stages[k], c.run);
      assert run.stages[k := run.stages[k]] == run.stages;
  }

  lemma WatchedCounts(n: Namer, c: Cluster, run: RunStatus, k: nat, a: Attempt)
    requires run.stages == c.run.stages && k < |run.stages|
    ensures RecordsGrow(c, Watched(c, run, k, a)) && CreatesAtMostOne(n, c, Watched(c, run, k, a))
  {
    var stage := run.stages[k];
    if a.childRead {
      if stage.agentRunName !in c.children {
        SettingAStageRecords(run, k, stage.(phase := AgentRuns.Failed), c.run);
      } else {
        SettingAStageRecords(run, k, Mirrored(stage, c.children[stage.agentRunName]), c.run);
      }
    }
  }

  lemma WorkAlwaysCounts(n: Namer, c: Cluster, a: Attempt)
    requires Inv(n, c)
    ensures RecordsGrow(c, WorkOf(n, c, a)) && CreatesAtMostOne(n, c, WorkOf(n, c, a))
  {
    if !c.run.phase.Terminal() && a.workflowRead && c.workflow.Some? && c.workflow.value.ready {
      var run := Begun(c.run, c.workflow.value.definition);
      BegunIsThePlan(c);
      BegunRecordsNothing(c);
      var k := Current(run.stages);
      if k < |run.stages| {
        var running := run.(currentStage := run.stages[k].def.name, phase := AgentRuns.Running);
        if run.stages[k].agentRunName == "" {
          TriedCounts(n, c, running, k, a);
        } else {
          WatchedCounts(n, c, running, k, a);
        }
      } else {
        assert forall name | name != "" && Recorded(run, name) :: Recorded(c.run, name);
      }
    }
  }

  lemma ReconcileCounts(n: Namer, c: Cluster, a: Attempt)
    requires Inv(n, c)
    ensures Counted(Reconciled(n, c, a))
  {
    var work := WorkOf(n, c, a);
    var later := Reconciled(n, c, a);
    WorkAlwaysFits(n, c, a);
    WorkAlwaysCounts(n, c, a);
    forall name
      ensures later.created[name] == later.dropped[name] + if Taken(later, name) then 1 else 0
    {
      assert c.created[name] == c.dropped[name] + if Taken(c, name) then 1 else 0;
      if work.children == c.children && work.created == c.created {
        assert Taken(later, name) <==> Taken(c, name);
      } else {
        var k: nat :| k < |Plan(c)| && k == Current(Plan(c)) && CreatesAt(n, c, work, k);
        var born := NameAt(n, Plan(c), k);
        assert name != born ==> (OwnedIn(work.children, name) <==> OwnedIn(c.children, name));
        assert name != born ==> (Taken(later, name) <==> Taken(c, name));
        assert OwnedIn(work.children, born);
      }
    }
  }

  lemma ReconcileKeepsInv(n: Namer, c: Cluster, a: Attempt)
    requires Inv(n, c)
    ensures Inv(n, Reconciled(n, c, a))
  {
    WorkAlwaysFits(n, c, a);
    ReconcileCounts(n, c, a);
  }

  // ----- The other steps keep the invariant -----

  /** A child may change in any way that keeps its place. */
  lemma ChildChangeFits(n: Namer, stages: seq<StageStatus>, guide: string, children: map<string, Child>,
                        name: string, child: Child)
    requires Fit(n, stages, guide, children) && name in children
    requires child.owned == children[name].owned && child.spec == children[name].spec
    requires OwnedIn(children, name) && children[name].status.phase == AgentRuns.Succeeded ==>
               child.status.phase == AgentRuns.Succeeded
    ensures Fit(n, stages, guide, children[name := child])
  {
    var later := children[name := child];
    forall i: nat | i < |stages|
      ensures StageChildFits(n, stages, guide, later, i)
    {
      assert StageChildFits(n, stages, guide, children, i);
    }
    forall other | OwnedIn(later, other)
      ensures IsStageName(n, stages, other)
    {
      assert OwnedIn(children, other);
    }
  }

  lemma DeletionFits(n: Namer, stages: seq<StageStatus>, guide: string, children: map<string, Child>, name: string)
    requires Fit(n, stages, guide, children)
    ensures Fit(n, stages, guide, children - {name})
  {
    forall i: nat | i < |stages|
      ensures StageChildFits(n, stages, guide, children - {name}, i)
    {
      assert StageChildFits(n, stages, guide, children, i);
    }
    forall other | OwnedIn(children - {name}, other)
      ensures IsStageName(n, stages, other)
    {
      assert OwnedIn(children, other);
    }
  }

  lemma ForeignFits(n: Namer, stages: seq<StageStatus>, guide: string, children: map<string, Child>,
                    name: string, child: Child)
    requires Fit(n, stages, guide, children) && name !in children && !child.owned
    ensures Fit(n, stages, guide, children[name := child])
  {
    var later := children[name := child];
    forall i: nat | i < |stages|
      ensures StageChildFits(n, stages, guide, later, i)
    {
      assert StageChildFits(n, stages, guide, children, i);
    }
    forall other | OwnedIn(later, other)
      ensures IsStageName(n, stages, other)
    {
      assert OwnedIn(children, other);
    }
  }

  lemma SameOwnersSameCount(c: Cluster, later: Cluster)
    requires Counted(c) && later.run == c.run && later.created == c.created && later.dropped == c.dropped
    requires forall name :: OwnedIn(later.children, name) <==> OwnedIn(c.children, name)
    ensures Counted(later)
  {
    forall name
      ensures later.created[name] == later.dropped[name] + if Taken(later, name) then 1 else 0
    {
      assert Taken(later, name) <==> Taken(c, name);
      assert c.created[name] == c.dropped[name] + if Taken(c, name) then 1 else 0;
    }
  }

  lemma DeletionCounts(n: Namer, c: Cluster, name: string)
    requires Inv(n, c)
    ensures Counted(Apply(n, c, DeleteChild(name)))
  {
    var later := Apply(n, c, DeleteChild(name));
    forall x
      ensures later.created[x] == later.dropped[x] + if Taken(later, x) then 1 else 0
    {
      assert c.created[x] == c.dropped[x] + if Taken(c, x) then 1 else 0;
      assert x != name ==> (OwnedIn(later.children, x) <==> OwnedIn(c.children, x));
    }
  }

  /** In any state an edit keeps the invariant exactly when it is safe. */
  lemma EditKeepsInvExactlyWhenSafe(n: Namer, c: Cluster, workflow: Option<WorkflowObject>)
    requires Inv(n, c)
    ensures Inv(n, c.(workflow := workflow)) <==> SafeEdit(n, c, workflow)
  {
    var later := c.(workflow := workflow);
    SameOwnersSameCount(c, later);
    if c.run.stages == [] && !c.run.phase.Terminal() && workflow.Some? {
      var definition := workflow.value.definition;
      if definition.stages != [] {
        FreshSnapshotFits(n, definition.stages, definition.guide, c.children);
        assert Plan(later) == SnapshotStages(definition.stages) && Plan(later) != [];
      } else {
        assert SnapshotStages(definition.stages) == [];
      }
    }
  }

  lemma RunReconciledTheOne(c: Cluster, name: string, w: AgentRuns.World, patchOk: bool)
    requires name in c.children
    ensures var later := RunReconciled(c, name, w, patchOk);
            && later == c.(children := later.children, sandboxes := later.sandboxes, harnesses := later.harnesses)
            && name in later.children && later.children == c.children[name := later.children[name]]
            && later.children[name] ==
               c.children[name].(status := RunStatusAfter(c, name, w, patchOk), harness := later.children[name].harness)
  {
  }

  lemma RunStatusStaysCoherent(c: Cluster, name: string, w: AgentRuns.World, patchOk: bool)
    requires name in c.children && AgentRuns.Coherent(c.children[name].status)
    requires c.children[name].status.sandboxName == "" || c.children[name].status.sandboxName == name
    ensures var later := RunStatusAfter(c, name, w, patchOk);
            && AgentRuns.Coherent(later)
            && (later.sandboxName == "" || later.sandboxName == name)
            && (c.children[name].status.phase.Terminal() ==> later.phase == c.children[name].status.phase)
  {
    var named := if w.create.Created? then w.(create := AgentRuns.Created(name)) else w;
    AgentRuns.ReconcileKeepsCoherence(c.children[name].status, named, patchOk);
    AgentRuns.SandboxIsTheOneNamed(c.children[name].status, named, patchOk);
  }

  lemma RunReconcileKeepsInv(n: Namer, c: Cluster, name: string, w: AgentRuns.World, patchOk: bool)
    requires Inv(n, c)
    ensures Inv(n, Apply(n, c, RunReconcile(name, w, patchOk)))
  {
    if name in c.children {
      var later := RunReconciled(c, name, w, patchOk);
      RunReconciledTheOne(c, name, w, patchOk);
      if c.children[name].owned {
        RunStatusStaysCoherent(c, name, w, patchOk);
      }
      if Plan(c) != [] {
        ChildChangeFits(n, Plan(c), PlanGuide(c), c.children, name, later.children[name]);
      }
      SameOwnersSameCount(c, later);
    }
  }

  /** Whatever a stranger creates, wherever: every fact of the invariant is about
      the run's own AgentRuns and its record. */
  lemma ForeignKeepsInv(n: Namer, c: Cluster, name: string, child: Child)
    requires Inv(n, c)
    ensures Inv(n, Apply(n, c, ForeignCreate(name, child)))
  {
    if name !in c.children {
      if Plan(c) != [] {
        ForeignFits(n, Plan(c), PlanGuide(c), c.children, name, child.(owned := false, harness := None));
      }
      SameOwnersSameCount(c, Apply(n, c, ForeignCreate(name, child)));
    }
  }

  /** Harnesses and Sandboxes come and go beside what the invariant is about. */
  lemma SandboxesKeepInv(n: Namer, c: Cluster, later: Cluster)
    requires Inv(n, c) && later.run == c.run && later.children == c.children && later.workflow == c.workflow
    requires later.created == c.created && later.dropped == c.dropped
    ensures Inv(n, later)
  {
    SameOwnersSameCount(c, later);
  }

  lemma ReadinessKeepsInv(n: Namer, c: Cluster, ready: bool)
    requires Inv(n, c)
    ensures Inv(n, Apply(n, c, SetReady(ready)))
  {
    var later := Apply(n, c, SetReady(ready));
    SameOwnersSameCount(c, later);
    assert Plan(later) == Plan(c) && PlanGuide(later) == PlanGuide(c);
  }

  lemma DeletionKeepsInv(n: Namer, c: Cluster, name: string)
    requires Inv(n, c)
    ensures Inv(n, Apply(n, c, DeleteChild(name)))
  {
    if Plan(c) != [] {
      DeletionFits(n, Plan(c), PlanGuide(c), c.children, name);
    }
    DeletionCounts(n, c, name);
    assert forall x | OwnedIn(c.children - {name}, x) :: OwnedIn(c.children, x);
  }

  lemma StepKeepsInv(n: Namer, c: Cluster, s: Step)
    requires Inv(n, c) && Allowed(n, c, s)
    ensures Inv(n, Apply(n, c, s))
  {
    match s
    case Reconcile(a) => ReconcileKeepsInv(n, c, a);
    case RunReconcile(name, w, patchOk) => RunReconcileKeepsInv(n, c, name, w, patchOk);
    case HarnessExit(_, _, _) => SandboxesKeepInv(n, c, Apply(n, c, s));
    case SetReady(ready) => ReadinessKeepsInv(n, c, ready);
    case Edit(workflow) => EditKeepsInvExactlyWhenSafe(n, c, workflow);
    case DeleteChild(name) => DeletionKeepsInv(n, c, name);
    case ForeignCreate(name, child) => ForeignKeepsInv(n, c, name, child);
    case DeleteSandbox(_) => SandboxesKeepInv(n, c, Apply(n, c, s));
    case ForeignSandbox(_, _) => SandboxesKeepInv(n, c, Apply(n, c, s));
  }

  lemma InitialInv(n: Namer, c: Cluster)
    requires Initial(n, c)
    ensures Inv(n, c)
  {
    if Plan(c) != [] {
      FreshSnapshotFits(n, c.workflow.value.definition.stages, c.workflow.value.definition.guide, c.children);
    }
    forall name
      ensures c.created[name] == c.dropped[name] + if Taken(c, name) then 1 else 0
    {
      assert !Taken(c, name);
    }
  }

  lemma {:induction false} EveryRunKeepsInv(n: Namer, c: Cluster, steps: seq<Step>)
    requires Inv(n, c) && Legal(n, c, steps)
    ensures Inv(n, Exec(n, c, steps))
    decreases |steps|
  {
    if steps == [] {
    } else {
      StepKeepsInv(n, c, steps[0]);
      EveryRunKeepsInv(n, Apply(n, c, steps[0]), steps[1..]);
    }
  }
}
