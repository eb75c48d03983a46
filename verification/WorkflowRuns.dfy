/**
 Runs that do happen: from a fresh workflow run, step by step, to the states in
 which the run or its token ends otherwise than intended.
 */
module WorkflowRuns {
  import opened Wrappers
  import AgentRuns
  import opened Workflow
  import opened WorkflowSystem
  import opened WorkflowSafety
  import opened TokenLifetime

  const FIRST := StageDef("build", "agent", "", "")
  const SECOND := StageDef("test", "agent", "", "")

  function LiveWorkflow(stages: seq<StageDef>): WorkflowObject { WorkflowObject(true, Definition("", stages)) }

  /** A fresh run of these stages, in an empty namespace. */
  function Fresh(stages: seq<StageDef>): Cluster { Untouched(Some(LiveWorkflow(stages)), map[], multiset{}) }

  /** Stage names give distinct, nonempty child names. */
  predicate Names(n: Namer, stages: seq<StageDef>) {
    && (stages == [FIRST] || stages == [FIRST, SECOND])
    && n(FIRST.name) != "" && n(SECOND.name) != "" && n(FIRST.name) != n(SECOND.name)
  }

  function FirstSpec(stages: seq<StageDef>): ChildSpec
    requires stages != []
  {
    SpecAt(SnapshotStages(stages), "", 0)
  }

  // ----- Putting runs together -----

  /** These steps lead from the start to here, and are a run. */
  ghost predicate LeadTo(n: Namer, start: Cluster, steps: seq<Step>, c: Cluster) {
    Legal(n, start, steps) && Exec(n, start, steps) == c
  }

  lemma {:induction false} Extended(n: Namer, start: Cluster, steps: seq<Step>, s: Step)
    ensures Exec(n, start, steps + [s]) == Apply(n, Exec(n, start, steps), s)
    ensures Legal(n, start, steps + [s]) <==> Legal(n, start, steps) && Allowed(n, Exec(n, start, steps), s)
    ensures FairRun(n, start, steps + [s]) <==> FairRun(n, start, steps) && Fair(Exec(n, start, steps), s)
    decreases |steps|
  {
    if steps == [] {
      assert [s][1..] == [] && steps + [s] == [s];
    } else {
      assert (steps + [s])[1..] == steps[1..] + [s];
      Extended(n, Apply(n, start, steps[0]), steps[1..], s);
    }
  }

  lemma {:induction false} Joined(n: Namer, start: Cluster, steps: seq<Step>, more: seq<Step>)
    ensures Exec(n, start, steps + more) == Exec(n, Exec(n, start, steps), more)
    ensures Legal(n, start, steps + more) <==> Legal(n, start, steps) && Legal(n, Exec(n, start, steps), more)
    ensures FairRun(n, start, steps + more) <==> FairRun(n, start, steps) && FairRun(n, Exec(n, start, steps), more)
    decreases |steps|
  {
    if steps == [] {
      assert steps + more == more;
    } else {
      assert (steps + more)[1..] == steps[1..] + more;
      Joined(n, Apply(n, start, steps[0]), steps[1..], more);
    }
  }

  lemma {:induction false} OnlyEditsAreRefused(n: Namer, c: Cluster, steps: seq<Step>)
    requires NoEdits(steps)
    ensures Legal(n, c, steps)
    decreases |steps|
  {
    if steps != [] {
      OnlyEditsAreRefused(n, Apply(n, c, steps[0]), steps[1..]);
    }
  }

  lemma FreshIsInitial(n: Namer, stages: seq<StageDef>)
    requires Names(n, stages)
    ensures Initial(n, Fresh(stages))
  {
    var plan := Plan(Fresh(stages));
    assert |plan| == |stages|;
    assert forall i | 0 <= i < |plan| :: plan[i].def == stages[i];
  }

  // ----- The first steps -----

  /** The first AgentRun exists; patched says whether its name is recorded too. */
  predicate Started(n: Namer, stages: seq<StageDef>, c: Cluster, patched: bool)
    requires stages != []
  {
    && c.workflow == Some(LiveWorkflow(stages)) && !c.revoked && c.lastExit.None?
    && c.children == map[n(FIRST.name) := NewChild(FirstSpec(stages))]
    && if patched then FirstIsRecorded(n, stages, c) else c.run == FreshRun
  }

  predicate FirstIsRecorded(n: Namer, stages: seq<StageDef>, c: Cluster)
    requires stages != []
  {
    && c.run.phase == AgentRuns.Running && c.run.started && c.run.completionTime.None?
    && c.run.stages == SnapshotStages(stages)[0 := StageStatus(stages[0], AgentRuns.Pending, n(FIRST.name))]
  }

  lemma FirstStep(n: Namer, stages: seq<StageDef>, start: Cluster, patched: bool)
    requires Names(n, stages) && start == Fresh(stages).(sandboxes := start.sandboxes, harnesses := start.harnesses)
    ensures var later := Apply(n, start, Reconcile(if patched then PATCHED else UNPATCHED));
            && Started(n, stages, later, patched)
            && later.sandboxes == start.sandboxes && later.harnesses == start.harnesses
  {
    var plan := SnapshotStages(stages);
    assert plan[0] == StageStatus(FIRST, AgentRuns.Pending, "");
    assert Current(plan) == 0;
  }

  /** A reconcile of a recorded first stage, by what bears its name. */
  lemma FollowFirst(n: Namer, stages: seq<StageDef>, c: Cluster)
    requires Names(n, stages) && c.workflow == Some(LiveWorkflow(stages)) && FirstIsRecorded(n, stages, c)
    ensures var later := Apply(n, c, Reconcile(PATCHED));
            var name := n(FIRST.name);
            && later.children == c.children && later.revoked == c.revoked && later.lastExit == c.lastExit
            && later.workflow == c.workflow
            && (name !in c.children || c.children[name].status.succeeded == AgentRuns.False ==>
                  later.run.phase == AgentRuns.Failed)
            && (name in c.children && c.children[name].status.phase == AgentRuns.Succeeded
                && c.children[name].status.succeeded == AgentRuns.True ==>
                  && later.run.phase == AgentRuns.Running && later.run.started
                  && later.run.stages == c.run.stages[0 := c.run.stages[0].(phase := AgentRuns.Succeeded)])
  {
    assert Current(c.run.stages) == 0;
    var running := c.run.(currentStage := FIRST.name, phase := AgentRuns.Running);
    assert Begun(c.run, LiveWorkflow(stages).definition) == c.run;
    WatchedLeaves(c, running, 0, PATCHED);
  }

  /** A reconcile of the AgentRun that gives it a Sandbox. */
  const MAKE := AgentRuns.World(AgentRuns.AgentReady, AgentRuns.Admissible, AgentRuns.Created(""),
                                AgentRuns.SandboxMissing, false, 0, None, None)

  /** One that finds its Sandbox finished with this exit code. */
  function Finished(code: nat): AgentRuns.World {
    var pod := AgentRuns.Pod(false, None, Some(code), None);
    MAKE.(sandbox := AgentRuns.SandboxFound(AgentRuns.Sandbox(Some("PodFinished"), 0, Some(pod))))
  }

  /** The first AgentRun has a Sandbox of its own, and its harness runs. */
  predicate FirstRuns(n: Namer, stages: seq<StageDef>, c: Cluster)
    requires stages != []
  {
    var name := n(FIRST.name);
    && c.harnesses == [Harness(true, FirstSpec(stages), None)] && c.sandboxes == map[name := 0]
    && OwnedIn(c.children, name) && c.children[name].spec == FirstSpec(stages) && c.children[name].harness == Some(0)
  }

  /** The first AgentRun is made, recorded or not, and makes its Sandbox, recorded
      or not. */
  lemma FirstHarness(n: Namer, stages: seq<StageDef>, patched: bool, named: bool) returns (steps: seq<Step>, c: Cluster)
    requires Names(n, stages)
    ensures Initial(n, Fresh(stages)) && LeadTo(n, Fresh(stages), steps, c) && FairRun(n, Fresh(stages), steps)
    ensures FirstRuns(n, stages, c) && c.workflow == Some(LiveWorkflow(stages)) && !c.revoked
    ensures if patched then FirstIsRecorded(n, stages, c) else c.run == FreshRun
    ensures var status := c.children[n(FIRST.name)].status;
            if named then status.phase == AgentRuns.Pending && status.sandboxName == n(FIRST.name)
            else status == AgentRuns.FreshStatus
  {
    var name := n(FIRST.name);
    var first, second := Reconcile(if patched then PATCHED else UNPATCHED), RunReconcile(name, MAKE, named);
    FreshIsInitial(n, stages);
    FirstStep(n, stages, Fresh(stages), patched);
    var c1 := Apply(n, Fresh(stages), first);
    Extended(n, Fresh(stages), [], first);
    assert [] + [first] == [first];
    FirstMakes(n, stages, c1, named);
    Extended(n, Fresh(stages), [first], second);
    steps, c := [first] + [second], Apply(n, c1, second);
  }

  lemma FirstMakes(n: Namer, stages: seq<StageDef>, c: Cluster, named: bool)
    requires Names(n, stages) && c.children == map[n(FIRST.name) := NewChild(FirstSpec(stages))]
    requires c.sandboxes == map[] && c.harnesses == []
    ensures var make := RunReconcile(n(FIRST.name), MAKE, named);
            var later := Apply(n, c, make);
            var status := later.children[n(FIRST.name)].status;
            && Fair(c, make)
            && later == c.(children := later.children, sandboxes := later.sandboxes, harnesses := later.harnesses)
            && FirstRuns(n, stages, later)
            && if named then status.phase == AgentRuns.Pending && status.sandboxName == n(FIRST.name)
               else status == AgentRuns.FreshStatus
  {
    assert MakesSandbox(c, n(FIRST.name), MAKE);
  }

  /** And its harness exits. */
  lemma FirstExits(n: Namer, stages: seq<StageDef>, patched: bool, code: nat, cleaned: bool)
    returns (steps: seq<Step>, c: Cluster)
    requires Names(n, stages)
    ensures var start, name, spec := Fresh(stages), n(FIRST.name), FirstSpec(stages);
            && Initial(n, start) && LeadTo(n, start, steps, c)
            && (FairRun(n, start, steps) <==> cleaned || !Revokes(spec, code))
            && c.harnesses == [Harness(true, spec, Some(code))] && c.sandboxes == map[name := 0]
            && c.revoked == (cleaned && Revokes(spec, code)) && c.lastExit == Some(Exit(spec, code))
            && c.workflow == Some(LiveWorkflow(stages))
            && OwnedIn(c.children, name) && c.children[name].harness == Some(0)
            && c.children[name].status.phase == AgentRuns.Pending && c.children[name].status.sandboxName == name
            && if patched then FirstIsRecorded(n, stages, c) else c.run == FreshRun
  {
    var before: Cluster;
    steps, before := FirstHarness(n, stages, patched, true);
    var exit := HarnessExit(0, code, cleaned);
    Extended(n, Fresh(stages), steps, exit);
    steps, c := steps + [exit], Apply(n, before, exit);
    assert Running(before, 0);
  }

  // ----- A stranger's success completes the run -----

  function Stranger(): Child {
    Child(false, FirstSpec([FIRST]), AgentRuns.FreshStatus.(phase := AgentRuns.Succeeded, succeeded := AgentRuns.True), None)
  }

  /** The recorded AgentRun is deleted and a stranger's of the same name reads
      Succeeded: the run succeeds, though no harness of its own ever exited, and
      its token is never revoked. */
  lemma StrangerCompletesTheRun(n: Namer) returns (steps: seq<Step>)
    requires Names(n, [FIRST])
    ensures Initial(n, Fresh([FIRST])) && Legal(n, Fresh([FIRST]), steps)
    ensures var end := Exec(n, Fresh([FIRST]), steps);
            end.run.phase == AgentRuns.Succeeded && end.lastExit.None? && !end.revoked
  {
    var stages, name := [FIRST], n(FIRST.name);
    FreshIsInitial(n, stages);
    FirstStep(n, stages, Fresh(stages), true);
    var c1 := Apply(n, Fresh(stages), Reconcile(PATCHED));
    var c2 := Apply(n, c1, DeleteChild(name));
    var c3 := Apply(n, c2, ForeignCreate(name, Stranger()));
    assert c3.children[name] == Stranger();
    FirstSucceedsAndEnds(n, c3);
    steps := [Reconcile(PATCHED), DeleteChild(name), ForeignCreate(name, Stranger()), Reconcile(PATCHED), Reconcile(PATCHED)];
    FiveSteps(n, Fresh(stages), steps);
    OnlyEditsAreRefused(n, Fresh(stages), steps);
  }

  lemma AllBehindEnds(n: Namer, c: Cluster)
    requires c.workflow == Some(LiveWorkflow([FIRST])) && c.run.phase == AgentRuns.Running && c.run.started
    requires |c.run.stages| == 1 && c.run.stages[0].phase == AgentRuns.Succeeded
    ensures var later := Apply(n, c, Reconcile(PATCHED));
            later.run.phase == AgentRuns.Succeeded && later.revoked == c.revoked && later.lastExit == c.lastExit
  {
    CurrentIs(c.run.stages, 1);
  }

  /** A single stage whose name reads Succeeded: the run succeeds over it. */
  lemma FirstSucceedsAndEnds(n: Namer, c: Cluster)
    requires Names(n, [FIRST]) && c.workflow == Some(LiveWorkflow([FIRST])) && FirstIsRecorded(n, [FIRST], c)
    requires n(FIRST.name) in c.children
    requires c.children[n(FIRST.name)].status.phase == AgentRuns.Succeeded
    requires c.children[n(FIRST.name)].status.succeeded == AgentRuns.True
    ensures var later := Apply(n, Apply(n, c, Reconcile(PATCHED)), Reconcile(PATCHED));
            later.run.phase == AgentRuns.Succeeded && later.revoked == c.revoked && later.lastExit == c.lastExit
  {
    FollowFirst(n, [FIRST], c);
    AllBehindEnds(n, Apply(n, c, Reconcile(PATCHED)));
  }

  lemma TwoSteps(n: Namer, c: Cluster, s1: Step, s2: Step)
    ensures Exec(n, c, [s1, s2]) == Apply(n, Apply(n, c, s1), s2)
  {
    Extended(n, c, [], s1);
    assert [] + [s1] == [s1];
    Extended(n, c, [s1], s2);
    assert [s1] + [s2] == [s1, s2];
  }

  lemma FiveSteps(n: Namer, c: Cluster, steps: seq<Step>)
    requires |steps| == 5
    ensures Exec(n, c, steps) ==
            Apply(n, Apply(n, Apply(n, Apply(n, Apply(n, c, steps[0]), steps[1]), steps[2]), steps[3]), steps[4])
  {
    Extended(n, c, [], steps[0]);
    assert [] + [steps[0]] == steps[..1];
    forall i | 1 <= i < 5
      ensures steps[..i] + [steps[i]] == steps[..i + 1]
    {
    }
    Extended(n, c, steps[..1], steps[1]);
    Extended(n, c, steps[..2], steps[2]);
    Extended(n, c, steps[..3], steps[3]);
    Extended(n, c, steps[..4], steps[4]);
    assert steps[..5] == steps;
  }

  // ----- Another's Sandbox does too -----

  /** Anybody's Sandbox bears the first AgentRun's name before it is made. The
      AgentRun takes it for its own and succeeds by its exit, the run succeeds by
      that, and again no harness of its own ever ran. */
  lemma AnothersSandboxCompletesTheRun(n: Namer) returns (steps: seq<Step>)
    requires Names(n, [FIRST])
    ensures Initial(n, Fresh([FIRST])) && Legal(n, Fresh([FIRST]), steps)
    ensures var end := Exec(n, Fresh([FIRST]), steps);
            end.run.phase == AgentRuns.Succeeded && end.lastExit.None? && !end.revoked
  {
    var name := n(FIRST.name);
    var c: Cluster;
    FreshIsInitial(n, [FIRST]);
    steps, c := StartsBesideAnothersSandbox(n);
    var make, look := RunReconcile(name, MAKE, true), RunReconcile(name, Finished(0), true);
    var later := Apply(n, Apply(n, c, make), look);
    TakesTheSandbox(n, c, name, FirstSpec([FIRST]));
    FirstSucceedsAndEnds(n, later);
    TwoSteps(n, c, make, look);
    TwoSteps(n, later, Reconcile(PATCHED), Reconcile(PATCHED));
    Joined(n, c, [make, look], [Reconcile(PATCHED), Reconcile(PATCHED)]);
    Joined(n, Fresh([FIRST]), steps, [make, look] + [Reconcile(PATCHED), Reconcile(PATCHED)]);
    steps := steps + ([make, look] + [Reconcile(PATCHED), Reconcile(PATCHED)]);
    OnlyEditsAreRefused(n, Fresh([FIRST]), steps);
  }

  lemma StartsBesideAnothersSandbox(n: Namer) returns (steps: seq<Step>, c: Cluster)
    requires Names(n, [FIRST])
    ensures NoEdits(steps) && c == Exec(n, Fresh([FIRST]), steps)
    ensures Started(n, [FIRST], c, true) && n(FIRST.name) in c.sandboxes
  {
    var bring, exit := ForeignSandbox(n(FIRST.name), FirstSpec([FIRST])), HarnessExit(0, 0, true);
    TwoSteps(n, Fresh([FIRST]), bring, exit);
    c := Exec(n, Fresh([FIRST]), [bring, exit]);
    FirstStep(n, [FIRST], c, true);
    Extended(n, Fresh([FIRST]), [bring, exit], Reconcile(PATCHED));
    steps, c := [bring, exit] + [Reconcile(PATCHED)], Apply(n, c, Reconcile(PATCHED));
  }

  /** A new AgentRun beside a Sandbox of its name whose harness exited 0: two
      reconciles, and it has succeeded, having made none itself. */
  lemma TakesTheSandbox(n: Namer, c: Cluster, name: string, spec: ChildSpec)
    requires name in c.children && c.children[name] == NewChild(spec) && name in c.sandboxes && name != ""
    ensures var later := Apply(n, Apply(n, c, RunReconcile(name, MAKE, true)), RunReconcile(name, Finished(0), true));
            && later == c.(children := c.children[name := later.children[name]])
            && later.children[name] == NewChild(spec).(status := later.children[name].status)
            && later.children[name].status.phase == AgentRuns.Succeeded
            && later.children[name].status.succeeded == AgentRuns.True
  {
    var mid := Apply(n, c, RunReconcile(name, MAKE, true));
    assert mid.children[name].status.sandboxName == name && mid.children[name].status.phase == AgentRuns.Pending;
  }

  /** In a fair run too: the first harness exits 0, its AgentRun is deleted before
      its name is recorded, and the one made in its place succeeds on the Sandbox
      that is still there, without a harness of its own. */
  lemma SucceedsOnAnothersHarness(n: Namer) returns (steps: seq<Step>)
    requires Names(n, [FIRST, SECOND])
    ensures var start := Fresh([FIRST, SECOND]);
            && Initial(n, start) && Legal(n, start, steps) && FairRun(n, start, steps)
            && var end := Exec(n, start, steps);
               && OwnedIn(end.children, n(FIRST.name))
               && end.children[n(FIRST.name)].status.phase == AgentRuns.Succeeded
               && end.children[n(FIRST.name)].harness.None?
  {
    var stages, name := [FIRST, SECOND], n(FIRST.name);
    var start := Fresh(stages);
    var c: Cluster;
    steps, c := ExitsZeroAndIsDeleted(n, false);
    MadeAgain(n, stages, c);
    var c1 := Apply(n, c, Reconcile(PATCHED));
    Extended(n, start, steps, Reconcile(PATCHED));
    var more := FairlyTakesTheSandbox(n, c1, name, FirstSpec(stages));
    Joined(n, start, steps + [Reconcile(PATCHED)], more);
    steps := steps + [Reconcile(PATCHED)] + more;
  }

  lemma FairlyTakesTheSandbox(n: Namer, c: Cluster, name: string, spec: ChildSpec) returns (steps: seq<Step>)
    requires name in c.children && c.children[name] == NewChild(spec) && name in c.sandboxes && name != ""
    requires ExitIn(c, name) == Some(0) && Settled(c, IsLast(spec))
    ensures Legal(n, c, steps) && FairRun(n, c, steps)
    ensures var end := Exec(n, c, steps);
            && OwnedIn(end.children, name)
            && end.children[name].status.phase == AgentRuns.Succeeded && end.children[name].harness.None?
  {
    var make, look := RunReconcile(name, MAKE, true), RunReconcile(name, Finished(0), true);
    TakesTheSandbox(n, c, name, spec);
    Extended(n, c, [], make);
    assert [] + [make] == [make];
    var mid := Apply(n, c, make);
    assert Settled(mid, IsLast(spec)) by {
      assert forall i: nat :: Running(mid, i) <==> Running(c, i);
    }
    Extended(n, c, [make], look);
    steps := [make] + [look];
  }

  /** The first of two stages exits 0, and its AgentRun is deleted. */
  lemma ExitsZeroAndIsDeleted(n: Namer, patched: bool) returns (steps: seq<Step>, c: Cluster)
    requires Names(n, [FIRST, SECOND])
    ensures var stages, name := [FIRST, SECOND], n(FIRST.name);
            && Initial(n, Fresh(stages)) && LeadTo(n, Fresh(stages), steps, c) && FairRun(n, Fresh(stages), steps)
            && name !in c.children && c.workflow == Some(LiveWorkflow(stages))
            && Quiet(c) && c.lastExit == Some(Exit(FirstSpec(stages), 0))
            && name in c.sandboxes && ExitIn(c, name) == Some(0) && !IsLast(FirstSpec(stages))
            && if patched then FirstIsRecorded(n, stages, c) else c.run == FreshRun
  {
    var stages, name := [FIRST, SECOND], n(FIRST.name);
    var before: Cluster;
    RevokesByPosition(SnapshotStages(stages), "", 0, 0);
    steps, before := FirstExits(n, stages, patched, 0, true);
    assert Quiet(before);
    Extended(n, Fresh(stages), steps, DeleteChild(name));
    steps, c := steps + [DeleteChild(name)], Apply(n, before, DeleteChild(name));
  }

  lemma MadeAgain(n: Namer, stages: seq<StageDef>, c: Cluster)
    requires Names(n, stages) && c.workflow == Some(LiveWorkflow(stages)) && c.run == FreshRun
    requires n(FIRST.name) !in c.children
    ensures var later := Apply(n, c, Reconcile(PATCHED));
            && SameHarnesses(c, later) && !later.run.phase.Terminal()
            && n(FIRST.name) in later.children && later.children[n(FIRST.name)] == NewChild(FirstSpec(stages))
  {
    var plan := SnapshotStages(stages);
    assert plan[0] == StageStatus(FIRST, AgentRuns.Pending, "");
    assert Current(plan) == 0;
  }

  // ----- Runs that end with the token live -----

  /** The first of two stages exits 0 and is deleted before the workflow looks. */
  lemma TokenIsLeftToExpire(n: Namer) returns (steps: seq<Step>)
    requires Names(n, [FIRST, SECOND])
    ensures var start := Fresh([FIRST, SECOND]);
            && Initial(n, start) && Legal(n, start, steps) && FairRun(n, start, steps)
            && var end := Exec(n, start, steps);
               && end.run.phase == AgentRuns.Failed && !end.revoked
               && end.lastExit == Some(Exit(FirstSpec([FIRST, SECOND]), 0))
  {
    var stages := [FIRST, SECOND];
    var c: Cluster;
    steps, c := ExitsZeroAndIsDeleted(n, true);
    FollowFirst(n, stages, c);
    assert !StrangerSucceeds(c);
    Extended(n, Fresh(stages), steps, Reconcile(PATCHED));
    steps := steps + [Reconcile(PATCHED)];
  }

  const NO_AGENT := MAKE.(agent := AgentRuns.AgentMissing)

  /** The stage's Agent is missing: its AgentRun fails before any harness starts. */
  lemma FailsBeforeTheHarness(n: Namer) returns (steps: seq<Step>)
    requires Names(n, [FIRST])
    ensures var start := Fresh([FIRST]);
            && Initial(n, start) && Legal(n, start, steps) && FairRun(n, start, steps)
            && var end := Exec(n, start, steps);
               end.run.phase == AgentRuns.Failed && !end.revoked && end.lastExit.None?
  {
    var start, look := Fresh([FIRST]), RunReconcile(n(FIRST.name), NO_AGENT, true);
    FreshIsInitial(n, [FIRST]);
    FirstStep(n, [FIRST], start, true);
    var c := Apply(n, start, Reconcile(PATCHED));
    Extended(n, start, [], Reconcile(PATCHED));
    assert [] + [Reconcile(PATCHED)] == [Reconcile(PATCHED)];
    MissingAgentIsSeen(n, c);
    Extended(n, start, [Reconcile(PATCHED)], look);
    Extended(n, start, [Reconcile(PATCHED)] + [look], Reconcile(PATCHED));
    steps := [Reconcile(PATCHED)] + [look] + [Reconcile(PATCHED)];
  }

  lemma MissingAgentIsSeen(n: Namer, c: Cluster)
    requires Names(n, [FIRST]) && Started(n, [FIRST], c, true)
    ensures var look := RunReconcile(n(FIRST.name), NO_AGENT, true);
            var mid := Apply(n, c, look);
            var later := Apply(n, mid, Reconcile(PATCHED));
            && Fair(c, look) && Fair(mid, Reconcile(PATCHED))
            && later.run.phase == AgentRuns.Failed && !later.revoked && later.lastExit.None?
  {
    var mid := Apply(n, c, RunReconcile(n(FIRST.name), NO_AGENT, true));
    assert mid.children[n(FIRST.name)].status.succeeded == AgentRuns.False;
    FollowFirst(n, [FIRST], mid);
    assert !StrangerSucceeds(mid);
  }

  /** A harness killed outright runs no deferred call: the run fails and the token
      is left, though the last harness to exit failed. */
  lemma KilledHarnessLeavesTheToken(n: Namer) returns (steps: seq<Step>)
    requires Names(n, [FIRST])
    ensures var start := Fresh([FIRST]);
            && Initial(n, start) && Legal(n, start, steps)
            && var end := Exec(n, start, steps);
               end.run.phase == AgentRuns.Failed && !end.revoked && LastExitRevoked(end)
  {
    var stages, name := [FIRST], n(FIRST.name);
    var start := Fresh(stages);
    var c: Cluster;
    steps, c := FirstExits(n, stages, true, 137, false);
    var look := RunReconcile(name, Finished(137), true);
    FailureIsSeen(n, c, name);
    TwoSteps(n, c, look, Reconcile(PATCHED));
    OnlyEditsAreRefused(n, c, [look, Reconcile(PATCHED)]);
    Joined(n, start, steps, [look, Reconcile(PATCHED)]);
    steps := steps + [look, Reconcile(PATCHED)];
  }

  lemma FailureIsSeen(n: Namer, c: Cluster, name: string)
    requires Names(n, [FIRST]) && name == n(FIRST.name) && name in c.children
    requires c.workflow == Some(LiveWorkflow([FIRST])) && FirstIsRecorded(n, [FIRST], c)
    requires c.children[name].status.phase == AgentRuns.Pending && c.children[name].status.sandboxName == name
    ensures var later := Apply(n, Apply(n, c, RunReconcile(name, Finished(137), true)), Reconcile(PATCHED));
            later.run.phase == AgentRuns.Failed && later.revoked == c.revoked && later.lastExit == c.lastExit
  {
    var mid := Apply(n, c, RunReconcile(name, Finished(137), true));
    assert mid.children[name].status.succeeded == AgentRuns.False;
    FollowFirst(n, [FIRST], mid);
  }

  // ----- Harnesses without a token -----

  /** The first status patch fails, and the AgentRun is deleted, and its Sandbox
      with it, when its harness has exited 1, or before: the stage is started
      again, and its second harness runs without a token. */
  lemma RestartsWithoutToken(n: Namer, exited: bool) returns (steps: seq<Step>)
    requires Names(n, [FIRST])
    ensures Initial(n, Fresh([FIRST])) && Legal(n, Fresh([FIRST]), steps)
    ensures OneRunsWithoutToken(Exec(n, Fresh([FIRST]), steps))
  {
    var stages, name := [FIRST], n(FIRST.name);
    var start := Fresh(stages);
    var c: Cluster;
    if exited {
      steps, c := FirstExits(n, stages, false, 1, true);
    } else {
      steps, c := FirstHarness(n, stages, false, true);
      assert Running(c, 0);
    }
    InitialInv(n, start);
    EveryRunKeepsInv(n, start, steps);
    var more := RestartAfterADropHasNoToken(n, c, name, PATCHED, MAKE);
    more := [DeleteChild(name), DeleteSandbox(name)] + more;
    OnlyEditsAreRefused(n, c, more);
    Joined(n, start, steps, more);
    steps := steps + more;
  }

  /** The AgentRun's own patch fails, and its Sandbox is deleted while the harness
      runs: it makes another, whose harness runs without a token. */
  lemma SecondHarnessHasNoToken(n: Namer) returns (steps: seq<Step>)
    requires Names(n, [FIRST])
    ensures Initial(n, Fresh([FIRST])) && Legal(n, Fresh([FIRST]), steps)
    ensures OneRunsWithoutToken(Exec(n, Fresh([FIRST]), steps))
  {
    var stages, name := [FIRST], n(FIRST.name);
    var c: Cluster;
    steps, c := FirstHarness(n, stages, true, false);
    assert Running(c, 0);
    var more := SecondSandboxHasNoToken(n, c, name, MAKE);
    more := [DeleteSandbox(name)] + more;
    OnlyEditsAreRefused(n, c, more);
    Joined(n, Fresh(stages), steps, more);
    steps := steps + more;
  }
}
