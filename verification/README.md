# A model of the agentic controller and its migration harness

This project models, in Dafny, the parts of the Konveyor agentic controller whose
correctness is hardest to see from any single function: two Kubernetes
controllers that drive a run of several stages over a shared API server, the
harness that carries out one stage inside a pod, and the algorithms both rest on.
`dafny verify dfyconfig.toml` checks everything.

**Controllers.** `AgentRuns` is the AgentRun reconcile: one status, patched or
not, against whatever the world shows. `Workflow` is the AgentWorkflowRun
reconcile over an API server that creates, reads, patches and deletes.
`WorkflowSystem` interleaves it with the AgentRun controller, its Sandboxes and the
harnesses in them, deletions, strangers' objects and edits of the live workflow, and
keeps one invariant over every run; `WorkflowSafety` and `TokenLifetime` draw the
consequences: which AgentRuns ever exist and what they are made from, what is final,
how many moves a run can make, whose success a success is, and when the Hub token is
gone. `WorkflowOutcomes` says what one reconcile does, over the world's own fields,
and `WorkflowRuns` holds runs from a fresh start that end otherwise than intended.
The methods of these classes are proved equal to functions that follow the code; what
the code is for is in the lemmas about those functions.

**A pass must be measured.** `Fences`, `Handoff` and `PlanParser` read the
agent's documents line by line; `Verification` runs the plan and settles a
record; `Stage` decides how a stage ends and exits; `Termination` trims the
record to 4096 bytes; `VerifiedCondition` is what the controller then says. The
chain is closed end to end by `VerifiedCondition.ReportStage`.

**The run protocol.** `Demux` is one socket shared by many calls, `PromptFold` what a
turn's notifications add up to, `Replies` the answers to what the agent asks,
`HumanGate` what an unanswered question does to the stage,
`TeeAsks` the asks relayed to attached viewers, `ReplayRing` the ring of frames a
late viewer is shown. Mutex sections are class
methods proved against functions on values; the machines interleave those
functions with the threads that call them.

**Algorithms.** `SkillLoad` assembles the skills root with a fault at any
operation, `Capture` keeps error lines and tails of output however it is cut up,
`Substitution` resolves parameters and references, `Credentials` encodes what a
credential digest is taken over, `FileMounts` compares mount paths as strings
and as places in a tree, `VolumeNames` rewrites names. `Ordering`, `Text` and
`Wrappers` are shared.

## Where the code does less than its comments say

- A workflow edit between a failed first status patch and its retry can give stage 0
  the old definition under a snapshot of the new one
  (`internal/controller/agentworkflowrun_controller.go:163-261`):
  `WorkflowSafety.EditBeforeTheSnapshotIsPersisted`. Until the snapshot is persisted
  an edit is safe exactly when the new workflow names its stages apart and gives
  stage 0 the AgentRun that exists, by name and by spec
  (`WorkflowSystem.EditKeepsInvExactlyWhenSafe`). Of workflows that name their stages
  apart, any other leaves an AgentRun that is not of the snapshot the next patch records
  (`WorkflowSafety.UnsafeEditsDoHarm`).
  The theorems over whole runs exclude the unsafe edits and no others.
- A stage is created only under an owned name but followed by name alone
  (`internal/controller/agentworkflowrun_controller.go:263-308`): if its AgentRun is
  deleted and a stranger's of that name reads Succeeded, the stage succeeds with it
  (`WorkflowRuns.StrangerCompletesTheRun`). A stage is left behind exactly when
  something under its recorded name reads Succeeded, and on its own word exactly when
  no stranger's AgentRun bears the name (`WorkflowSafety.StagesAreLeftBehindByName`).
  Order, snapshot and counts hold whatever strangers do.
- createSandbox takes any Sandbox of the AgentRun's name for its own
  (`internal/controller/agentrun_controller.go:952-958`), so an AgentRun can succeed by
  the exit of a harness it did not start: a deleted predecessor's, in a run that is fair
  in every other way (`WorkflowRuns.SucceedsOnAnothersHarness`), or anybody's
  (`WorkflowRuns.AnothersSandboxCompletesTheRun`). Its success is its own harness's
  unless the Sandbox of its name is another's (`WorkflowSafety.SuccessIsItsSandboxs`),
  which comes about exactly when one is there as the AgentRun is made or is brought
  before it has one (`WorkflowSafety.AnothersSandboxComesAbout`).
- An AgentRun deleted before its name is recorded is started again, and a Sandbox
  deleted before its AgentRun has recorded it is made again. The first harness revokes
  on its way out, so if it has exited so or is running still, the second has no token
  (`TokenLifetime.RestartAfterADropHasNoToken`, `TokenLifetime.SecondSandboxHasNoToken`;
  from a fresh start, `WorkflowRuns.RestartsWithoutToken`,
  `WorkflowRuns.SecondHarnessHasNoToken`).
- A stage left behind on a stranger's word, or on another's Sandbox, does harm exactly
  when the run goes on with one of its harnesses still running, or with the token not as
  the stage should have left it: then a harness comes to run without a token, or the run
  succeeds and leaves one (`TokenLifetime.FollowingAStrangerDoesHarm`,
  `TokenLifetime.AnothersSandboxDoesHarm`).
- A harness killed outright runs no deferred call, and a revocation call may fail
  (`harness/cmd/migration-harness/main.go:157-175`): the token is left
  (`WorkflowRuns.KilledHarnessLeavesTheToken`).
- The token theorems exclude exactly these: the exit that should revoke and does not,
  the two deletions while a harness is running or has revoked, and the two kinds of
  borrowed success where they do harm. Of steps on Sandboxes that tell the truth these
  are all that break their invariant, and each breaks it (`TokenLifetime.StepKeepsToken`).
- A run can end with its token live: a stage with a successor that succeeds and is
  then deleted (`TokenLifetime.TokenLeftToExpire`, `WorkflowRuns.TokenIsLeftToExpire`),
  or one that fails before its harness exits
  (`TokenLifetime.FailingBeforeTheHarnessLeavesTheToken`,
  `WorkflowRuns.FailsBeforeTheHarness`). When exactly is part of
  `TokenLifetime.TokenOutlivesEveryStageAndNoLonger`.
- An unanswered question fails the stage only through the cancellation it sends
  (`harness/cmd/migration-harness/main.go:585-599`): the stage exits 0 over it exactly
  when nothing else stops it (`Stage.UnansweredQuestionSucceedsExactlyWhen`), which,
  if the agent honours a cancel it has been sent, needs a turn that ended before any
  cancel was sent, the question latched before that or between it and the reading of
  the flag (`HumanGate.SlipsThroughOnlyInTheGap`, `HumanGate.TheGapIsReal`).
- A question whose relay panics is answered with an error, one without a handler is
  refused, and neither is latched (`harness/internal/acp/wsclient.go:149-173`):
  `Replies.UnlatchedExactlyWhen`.
- Verified says that every verification command in the plan ran
  (`internal/controller/verification.go:135-138`). A fenced block of the section beside
  one list item is neither run nor asked after
  (`harness/cmd/migration-harness/verify.go:297-340`), so the pass covers the section's
  items, and the section exactly when the parser named no fence
  (`Verification.PassCoversTheSectionExactlyWhen`, `Verification.PassedBesideAnUnreadBlock`).
- An answer accepted between an ask's timer and its cleanup closes the ask twice
  on every viewer (`harness/internal/tee/tee.go:536-544`): `TeeAsks.AnswerAfterTheTimer`.
- A cost limit reached by a notification that is drained with the reply goes
  unnoticed (`harness/internal/acp/session.go:499-535`): `PromptFold.CostIsNoticedOnlyInTheWait`.
- A load with no candidates removes directories while the previous manifest still
  names them (`internal/skills/load.go:76-83`): `SkillLoad.EmptyLoadIsSoundExactlyWhen`.
- The name rewrite is called injective and is not
  (`internal/controller/agentrun_controller.go:2164-2173`):
  `VolumeNames.RewrittenNamesMeetTheirImage`; when two names meet is
  `VolumeNames.NamesMeetExactlyWhen`.
- A declared but unset workflow parameter resolves in the guide and not in stage
  text (`internal/controller/params.go:75-83`, `internal/controller/params.go:181-190`):
  `Substitution.UnsetResolvesOnlyInTheGuide`.

## Model

| member | source | states |
|---|---|---|
| AgentRuns.StoredRun.Reconcile | internal/controller/agentrun_controller.go:228-430 | one reconcile leaves the status its specification gives, unchanged when the patch fails, and deletes the run only when its TTL has passed |
| AgentRuns.StoredRun.UpdatePhaseFromSandbox | internal/controller/agentrun_controller.go:1570-1687 | what the sandbox and its pod show decides between waiting, running, stuck, expired and finished |
| AgentRuns.StoredRun.SetTerminalOutcome | internal/controller/agentrun_controller.go:1814-1851 | the exit code, or the sandbox's word when there is none, becomes phase and condition together |
| AgentRuns.ReconcileKeepsCoherence | internal/controller/agentrun_controller.go:256-430 | whatever the world, Phase and the Succeeded condition keep telling the same story, no phase goes back, a terminal outcome and a sandbox name never change |
| AgentRuns.EveryRunIsCoherent | internal/controller/agentrun_controller.go:228-430 | the same over every sequence of reconciles, failed patches included |
| AgentRuns.SuccessNeedsACleanFinish | internal/controller/agentrun_controller.go:1814-1851 | a run becomes Succeeded exactly when the Sandbox of its name, whoever made that, has finished and the agent's exit code is 0, or there is no code and the Sandbox's reason is PodSucceeded |
| AgentRuns.ExitCodesAreTold | internal/controller/agentrun_controller.go:1814-1851 | a finished Sandbox ends the run: exit code 2 as LimitReached, 3 as Refused, any other but 0 as Failed |
| AgentRuns.RunningExactlyWhen | internal/controller/agentrun_controller.go:1636-1687 | a run becomes Running exactly when its Sandbox has not finished and its pod is there, runs and has no startup problem |
| AgentRuns.RunningStaysUntil | internal/controller/agentrun_controller.go:1622-1634 | a Running run stays so until its Agent or its Sandbox is gone or the Sandbox has finished |
| AgentRuns.WaitingFailsExactlyWhen | internal/controller/agentrun_controller.go:1636-1680 | a pod that has yet to run fails the run exactly when it cannot start, or the time since its Sandbox was made has reached the startup deadline; else the run is Pending |
| AgentRuns.LaunchingFailsExactlyWhen | internal/controller/agentrun_controller.go:290-372 | before there is a Sandbox a permanent fault fails the run with its own reason, a passing one leaves it to be tried again, and a name is recorded exactly when the create is answered |
| AgentRuns.UnseenIsNotJudged | internal/controller/agentrun_controller.go:262-415 | what cannot be read leaves the run as it is; an Agent or a Sandbox that is gone fails it |
| AgentRuns.TimesAreTold | internal/controller/agentrun_controller.go:1682-1703 | a run is complete when it is seen to end and has started when its pod did, or its Sandbox was made |
| AgentRuns.FinishedRunsAreCollected | internal/controller/agentrun_controller.go:1993-2020 | a finished run lacks no completion time under a TTL and is deleted exactly when the TTL has passed since |
| Workflow.ApiServer.Reconcile | internal/controller/agentworkflowrun_controller.go:88-349 | one reconcile of the stage machine, every early return and every failed call, equals its specification on the whole cluster |
| Workflow.ApiServer.DriveStages | internal/controller/agentworkflowrun_controller.go:178-349 | from the snapshot on: finish, start the current stage, or follow it |
| Workflow.ApiServer.LaunchStage | internal/controller/agentworkflowrun_controller.go:213-261 | a stage is recorded only after its AgentRun exists; config errors end the run, transient ones leave it to be tried again |
| Workflow.ApiServer.FollowStage | internal/controller/agentworkflowrun_controller.go:263-348 | the recorded AgentRun's phase is mirrored and its condition decides |
| Workflow.ApiServer.CreateAgentRunForStage | internal/controller/agentworkflowrun_controller.go:392-557 | creates under the deterministic name, or adopts an object of that name only if this run owns it |
| Workflow.ApiServer.FindCurrentStageIndex | internal/controller/agentworkflowrun_controller.go:353-362 | the first stage not recorded Succeeded |
| Workflow.ApiServer.ReconcileTTL | internal/controller/agentworkflowrun_controller.go:605-632 | a finished run without a completion time is given one; it is deleted exactly when its TTL has passed since |
| WorkflowOutcomes.SucceedsExactlyWhen | internal/controller/agentworkflowrun_controller.go:182-197 | a reconcile ends the run Succeeded exactly when every stage of its plan reads Succeeded |
| WorkflowOutcomes.FailsExactlyWhen | internal/controller/agentworkflowrun_controller.go:112-336 | it ends the run Failed exactly when the workflow is gone, the current stage cannot be configured, or what bears its recorded name is gone or has failed, and says which |
| WorkflowOutcomes.CreatesExactlyWhen | internal/controller/agentworkflowrun_controller.go:392-557 | it creates one AgentRun exactly when the current stage has none recorded, its Agent is read, its configuration holds, the name is free and the call gets through, and nothing otherwise |
| WorkflowOutcomes.StartingRecordsExactlyWhen | internal/controller/agentworkflowrun_controller.go:213-261 | a stage's name is recorded exactly when it can count on its AgentRun: made and answered, or there, readable and this run's own; a permanent fault fails the stage, a passing one leaves it |
| WorkflowOutcomes.FollowingMirrors | internal/controller/agentworkflowrun_controller.go:285-348 | a followed stage takes the phase that bears its name, unless that has none yet, and the run goes on unless the condition is False |
| WorkflowOutcomes.EndsAreTimed | internal/controller/agentworkflowrun_controller.go:112-336 | a run that ends is complete then, and one that does not keeps what it had |
| WorkflowOutcomes.UnreadIsNotJudged | internal/controller/agentworkflowrun_controller.go:112-156 | what cannot be read, or is not ready, ends nothing |
| WorkflowOutcomes.FinishedRunsAreCollected | internal/controller/agentworkflowrun_controller.go:605-632 | a finished run is deleted exactly when its TTL has passed since its completion time, and given one if it has none |
| WorkflowSystem.EditKeepsInvExactlyWhenSafe | internal/controller/agentworkflowrun_controller.go:158-176 | in any state an edit of the live workflow keeps the invariant if and only if the run has its snapshot or is over, or the new workflow is nameable and gives its first stage the AgentRun that exists, by name and spec |
| WorkflowSystem.ForeignKeepsInv | internal/controller/agentworkflowrun_controller.go:537-557 | a stranger may create anything under any free name, recorded ones included |
| WorkflowSystem.StepKeepsInv | internal/controller/agentworkflowrun_controller.go:88-349 | reconciles, AgentRun reconciles, exits, safe edits, deletions and strangers' creations, of AgentRuns and of Sandboxes, all keep the invariant: shape of the stages, fit of every own AgentRun, and conservation of AgentRuns created, dropped and taken |
| WorkflowSystem.EveryRunKeepsInv | internal/controller/agentworkflowrun_controller.go:88-349 | the invariant over every interleaving whose edits are safe |
| WorkflowSafety.StagesRunInOrderFromTheSnapshot | internal/controller/agentworkflowrun_controller.go:158-261 | over every run whose edits are safe: stages read Succeeded, then one current, then untouched; each owned AgentRun is of a stage up to the current one, with that stage's own definition, the snapshot's guide and the stage's place among all, field by field; a name is created again only as often as it was dropped unrecorded |
| WorkflowSafety.CreationWaitsForItsPredecessors | internal/controller/agentworkflowrun_controller.go:178-261 | an AgentRun comes into being only for the stage all of whose predecessors are recorded Succeeded, in a run that has not ended, with that stage's definition, guide and place, field by field |
| WorkflowSafety.TheSnapshotIsTheDefinition | internal/controller/agentworkflowrun_controller.go:158-176 | the patch that persists the snapshot persists the live definition: each stage's own in its place, and the guide |
| WorkflowSafety.SnapshotAndEndAreFinal | internal/controller/agentworkflowrun_controller.go:112-176 | a persisted snapshot and guide survive every step, edits included; a finished run changes at most in a completion time it lacked |
| WorkflowSafety.EndedRunsAreStamped | internal/controller/agentworkflowrun_controller.go:605-632 | the reconciler ends no run without a completion time, so a run that began fresh never changes once it has ended |
| WorkflowSafety.StepMoves | internal/controller/agentworkflowrun_controller.go:182-348 | no step loses progress, and a step gains some exactly when it records an AgentRun, leaves a stage behind or ends the run |
| WorkflowSafety.MovesAreBounded | internal/controller/agentworkflowrun_controller.go:213-348 | an N-stage run records, leaves behind or ends at most 2N + 1 times over any run |
| WorkflowSafety.UntroubledReconcileMoves | internal/controller/agentworkflowrun_controller.go:182-348 | a reconcile whose calls work makes progress if and only if the workflow is gone or the current stage waits for nothing: its name is free or its own, or what bears its recorded name is gone, succeeded or failed; on the run's own recorded AgentRun it waits exactly until that has ended |
| WorkflowSafety.TheConditionDecides | internal/controller/agentworkflowrun_controller.go:285-348 | over any object of the recorded name the index moves exactly on phase Succeeded and the run fails exactly on a False condition; over the run's own AgentRun these are the two ends of one condition |
| WorkflowSafety.StagesAreLeftBehindByName | internal/controller/agentworkflowrun_controller.go:263-310 | a step leaves a stage behind if and only if it is a working reconcile that finds phase Succeeded under the recorded name, which is the run's own AgentRun if and only if no stranger's bears it |
| WorkflowSafety.SuccessIsItsSandboxs | internal/controller/agentrun_controller.go:952-958 | an AgentRun succeeds only by an exit 0 of the harness in the Sandbox of its name, which unless the Sandbox is another's is the one it started |
| WorkflowSafety.AnothersSandboxComesAbout | internal/controller/agentrun_controller.go:952-958 | at any point of any run, an AgentRun comes to have another's Sandbox if and only if one is there when it is made or is brought while it has none |
| WorkflowRuns.AnothersSandboxCompletesTheRun | internal/controller/agentrun_controller.go:952-958 | a run from a fresh start that succeeds by anybody's Sandbox of its AgentRun's name, no harness of its own having exited, its token live |
| WorkflowRuns.SucceedsOnAnothersHarness | internal/controller/agentrun_controller.go:952-958 | a fair run from a fresh start in which an AgentRun made in the place of a deleted one succeeds by that one's harness |
| WorkflowRuns.StrangerCompletesTheRun | internal/controller/agentworkflowrun_controller.go:263-310 | a run from a fresh start that succeeds on a stranger's AgentRun, no harness of its own having exited |
| WorkflowSafety.UnsafeEditsDoHarm | internal/controller/agentworkflowrun_controller.go:163-261 | before the snapshot is persisted an edit is safe if and only if the next reconcile that patches leaves a run that follows its snapshot |
| WorkflowSafety.EditBeforeTheSnapshotIsPersisted | internal/controller/agentworkflowrun_controller.go:163-261 | a three-step run in which stage 0 runs a definition its snapshot does not have |
| TokenLifetime.StepKeepsToken | harness/cmd/migration-harness/main.go:153-175 | where finished Sandboxes tell the truth, a step keeps what ties the token to the stages (harnesses run one at a time with the token live, nothing is to start beside one or after a revocation, the last exit decides) if and only if it is fair: no exit that fails to revoke, no deletion of an unrecorded AgentRun or Sandbox while a harness is running or has revoked, no borrowed success where it does harm |
| TokenLifetime.TokenOutlivesEveryStageAndNoLonger | harness/cmd/migration-harness/main.go:1051-1072 | over every fair run, ended or not, harnesses of deleted AgentRuns included: the token is revoked if and only if the last harness to exit exited nonzero or was the last stage's; at most one harness runs, and with the token live; every AgentRun and every Sandbox is made with the token live and no harness running; a run that succeeded has no token left |
| TokenLifetime.TokenGoneExactlyWhen | harness/cmd/migration-harness/main.go:153-175 | while the current stage's AgentRun exists, the token is gone if and only if the harness it started has exited and failed or was the last stage's |
| TokenLifetime.FailingBeforeTheHarnessLeavesTheToken | internal/controller/agentworkflowrun_controller.go:312-336 | a stage whose AgentRun fails before its harness has exited ends the run with the token live |
| TokenLifetime.TokenLeftToExpire | internal/controller/agentworkflowrun_controller.go:266-281 | a stage with a successor that exited 0 and is then deleted ends the run with the token live |
| WorkflowRuns.TokenIsLeftToExpire | internal/controller/agentworkflowrun_controller.go:266-281 | a fair run from a fresh start that ends so |
| WorkflowRuns.FailsBeforeTheHarness | internal/controller/agentworkflowrun_controller.go:312-336 | a fair run from a fresh start that fails before any harness exits, its token live |
| WorkflowRuns.KilledHarnessLeavesTheToken | harness/cmd/migration-harness/main.go:157-175 | a run from a fresh start whose last harness was killed: it fails with the token live |
| TokenLifetime.RestartAfterADropHasNoToken | internal/controller/agentworkflowrun_controller.go:537-557 | from every state, once an unrecorded AgentRun is deleted, and its Sandbox with it, while its harness is running or has revoked, steps lead to a harness that runs without a token |
| WorkflowRuns.RestartsWithoutToken | internal/controller/agentworkflowrun_controller.go:537-557 | runs from a fresh start that reach one, the first harness having exited or still running at the deletion |
| TokenLifetime.SecondSandboxHasNoToken | internal/controller/agentrun_controller.go:952-958 | from every state, once a Sandbox its AgentRun has not recorded is deleted while its harness is running or has revoked, steps lead to a harness that runs without a token |
| WorkflowRuns.SecondHarnessHasNoToken | internal/controller/agentrun_controller.go:952-958 | a run from a fresh start that reaches one |
| TokenLifetime.FollowingAStrangerDoesHarm | internal/controller/agentworkflowrun_controller.go:263-310 | a reconcile that leaves a stage behind on a stranger's word, where fairness excludes it, leads to a harness without a token or to success with the token live |
| TokenLifetime.AnothersSandboxDoesHarm | internal/controller/agentrun_controller.go:952-958 | so does an AgentRun's success on another's Sandbox, where fairness excludes it, once it is recorded |
| Stage.StampedPositionReadsBack | harness/cmd/migration-harness/main.go:1051-1072 | the position the controller stamps is the one the harness reads, and it is intermediate exactly when a stage follows |
| Stage.IntermediateExactlyWhen | harness/cmd/migration-harness/main.go:1051-1072 | a stage is intermediate exactly when both numerals are read and stage and count are 1 or more, the first the smaller |
| Stage.ClassifiedByTheTurn | harness/cmd/migration-harness/outcome.go:130-180 | the ordered tests of the turn, said without their order: success, limit or failure, and which limit was met, each exactly when, over the turn's own fields |
| Stage.RunStage | harness/cmd/migration-harness/main.go:112-925 | exit codes 0, 2 and 3 exactly when; the blob's outcome agrees with the exit code; it names maxTurns exactly when the turn stopped by turns, maxCost exactly when by cost or over cost without an enforced failure; it carries the measured record or that none was, handoff status, usage and the first reason that applies; the cause likewise; the token is revoked unless an intermediate stage exits 0 |
| Stage.RevokeOnExit | harness/cmd/migration-harness/main.go:153-175 | the deferred revocation fails closed on every path but an intermediate success |
| Stage.EnforcedSuccessIsNotUnmet | harness/cmd/migration-harness/main.go:1090-1092 | under enforcement the last stage exits 0 only over a verification that is not unmet |
| HumanGate.SlipsThroughOnlyInTheGap | harness/internal/acp/session.go:673-681 | under every interleaving before the turn's end and between it and the reading of the flag, if the agent honours a cancel it was sent: a stage that exits 0 over an unanswered question had sent no cancel when its turn ended, and some question latched by the reading was without its cancel then |
| HumanGate.FailsOnceTheCancelIsSent | harness/internal/acp/session.go:673-681 | where every question latched by the reading had its cancel sent before the turn ended, an unanswered question fails the stage |
| HumanGate.TheGapIsReal | harness/cmd/migration-harness/main.go:585-599 | interleavings with the latch before and after the turn's end, and a stage that succeeds in each |
| Stage.UnansweredQuestionMaySucceed | harness/cmd/migration-harness/main.go:585-599 | a stage that succeeds over an unanswered question |
| Fences.ProseLines | harness/cmd/migration-harness/handoff.go:201-224 | the stateful loop over lines equals the recursive meaning of fenced prose |
| Fences.MarkerExactlyWhen | harness/cmd/migration-harness/handoff.go:79-81 | a line carries a fence exactly when it is at most three spaces, three or more of one of the two characters, and not one more of it |
| Fences.ClosesExactlyWhen | harness/cmd/migration-harness/handoff.go:215-220 | a line closes a fence exactly when it is at most three spaces, the fence's character at least as often, and white space |
| Fences.ProseSplits | harness/cmd/migration-harness/handoff.go:201-224 | a document can be read in two parts, the second under the fence the first leaves open |
| Fences.BlockContributesItsOpening | harness/cmd/migration-harness/handoff.go:201-224 | a closed block contributes its opening line and nothing of its interior |
| Fences.OpenBlockSwallowsTheRest | harness/cmd/migration-harness/handoff.go:201-224 | a block left open hides everything after it |
| Handoff.LastSectionIsTheHeadinglessEnd | harness/cmd/migration-harness/handoff.go:148-157 | the section read is the longest ending of the prose without another section heading |
| Handoff.FindLastSection | harness/cmd/migration-harness/handoff.go:148-157 | the backward loop finds that section |
| Handoff.ParseSection | harness/cmd/migration-harness/handoff.go:110-142 | the one-pass loop takes the first status line, then its own detail, a failed row or a reason, in that order of preference |
| Handoff.VerdictIsTheFirstStatus | harness/cmd/migration-harness/handoff.go:110-143 | there is a verdict exactly when some line is a status line; it is the first one's, with the detail of its own line, else of the first failed row elsewhere in the section, else of the first reason |
| Handoff.ParseHandoffVerdict | harness/cmd/migration-harness/handoff.go:110-142 | the verdict is a function of the document's prose |
| Handoff.FencedBlocksHaveNoSay | harness/cmd/migration-harness/handoff.go:110-224 | replacing the inside of a fenced block by any lines that do not close it never changes the verdict |
| PlanParser.ParsePlanVerification | harness/cmd/migration-harness/verify.go:686-759 | the loop with its section, nesting and cap state equals a fold over prose entries |
| PlanParser.OnlyTheLastSectionCounts | harness/cmd/migration-harness/verify.go:686-759 | nothing before the last Verification heading and nothing after the heading that ends it reaches the plan |
| PlanParser.EveryItemIsKeptOrTheCapIsReported | harness/cmd/migration-harness/verify.go:686-759 | the steps are the section's first twelve items in order, truncated is set exactly when there are more, and an item is skipped as nested exactly when it is indented deeper than a manual item before it that no heading, and no item as shallow, has closed; every other is just what it was classified as |
| PlanParser.CommandsAreClassifiedItems | harness/cmd/migration-harness/verify.go:686-759 | every command that will be run is, as classified, an unfenced item of the section that is nested under no manual one |
| PlanParser.IndentCounts | harness/cmd/migration-harness/verify.go:793-807 | indentation is a space for one and a tab for four up to the first character that is neither |
| PlanParser.FencedBlocksAreNotRead | harness/cmd/migration-harness/verify.go:686-759 | replacing the inside of a fenced block never changes the plan |
| Verification.RunPlanVerification | harness/cmd/migration-harness/verify.go:278-396 | the record is true of the world: passed, failed and not run each exactly when deserved, the commit is tip and HEAD, the commands mirror the steps in order |
| Verification.VerifyTarget | harness/cmd/migration-harness/verify.go:489-506 | a commit is named exactly when the branch tip is HEAD |
| Verification.WorktreeGap | harness/cmd/migration-harness/verify.go:539-563 | no gap is reported exactly when nothing but the exempt paths is uncommitted |
| Verification.RunVerifyStep | harness/cmd/migration-harness/verify.go:577-652 | a step's record says how its process ended, its exit code if it had one, and, redacted and bounded, what was run and what a step that did not pass put out |
| Verification.OneMoreLine | harness/cmd/migration-harness/verify.go:936-947 | the output on one line: one more line adds itself behind a bar, without its carriage returns, unless it is blank |
| Verification.TheEndIsKept | harness/cmd/migration-harness/verify.go:948-953 | of what is too long the last 199 characters are kept, behind an ellipsis |
| Verification.ClipCuts | harness/cmd/migration-harness/verify.go:915-921 | what is short enough is only trimmed; what is not is cut to the length with an ellipsis |
| Verification.Settle | harness/cmd/migration-harness/verify.go:425-470 | failures outrank gaps, gaps outrank passes, and a pass needs a command that ran |
| Verification.RecordsMirrorRuns | harness/cmd/migration-harness/verify.go:425-470 | the statuses recorded decide exactly what the processes did |
| Termination.TruncateRuneSafe | harness/cmd/migration-harness/outcome.go:393-402 | the loop over byte starts cuts to the longest prefix of whole characters that fits |
| Termination.FittingIsLongest | harness/cmd/migration-harness/outcome.go:393-402 | no longer prefix of the string fits |
| Termination.BackingUpFits | harness/cmd/migration-harness/outcome.go:393-402 | backing up from the byte limit to a character start is that prefix |
| Termination.VerdictOnlyIsSmall | harness/cmd/migration-harness/verify.go:139-162 | at six bytes a character the verdict without evidence is at most 1500 bytes |
| Termination.MinimalBlobFits | harness/cmd/migration-harness/outcome.go:347-388 | once the clipped fields are gone the blob fits, so the rung that drops the verdict is never reached |
| Termination.StopReasonGrows | harness/cmd/migration-harness/outcome.go:348-352 | more text in the stop reason costs what encoding/json writes for it |
| Termination.SizeOfACommand | harness/cmd/migration-harness/outcome.go:348-352 | one more command costs its own text and a comma, and an output its name, its text and four bytes |
| Termination.RecordCosts | harness/cmd/migration-harness/outcome.go:348-352 | a record that is not there is not written at all, its name included |
| Termination.JsonLenIs | harness/cmd/migration-harness/outcome.go:348-352 | what single characters cost: six bytes, two or one |
| Termination.WriteTerminationLog | harness/cmd/migration-harness/outcome.go:347-388 | at most 4096 bytes are written, and exit code, outcome, limit, the verdict and a beginning of the warning survive every rung; a blob that fits is written as it is; one that fits once its outputs are shed and its stop reason is cut is written so, all the rest intact; else the verdict is saved |
| PlanParser.FenceTellsOfUnreadBlocks | harness/cmd/migration-harness/verify.go:686-759 | the plan names a fence if and only if its section holds a fenced block that is nested under no manual item |
| Verification.PassCoversTheSectionExactlyWhen | harness/cmd/migration-harness/verify.go:297-396 | a measured pass ran every item of the last Verification section with exit 0, and left a fenced block of it unread if and only if the parser named a fence |
| Verification.PassedBesideAnUnreadBlock | harness/cmd/migration-harness/verify.go:297-340 | a section of one command and one fenced block, whatever that holds, for which a pass is measured |
| VerifiedCondition.TrueOnlyFromAnExplicitPass | internal/controller/verification.go:126-184 | the condition is True exactly for a readable record whose status is passed |
| VerifiedCondition.FalseOnlyFromALesserReport | internal/controller/verification.go:126-184 | the condition is False exactly for an object that reports failed, incomplete or notRun, and Unknown for everything else that is no pass |
| VerifiedCondition.StatusIsReadBack | internal/controller/verification.go:126-168 | each verdict the harness writes comes back as its own condition and reason |
| VerifiedCondition.VerifiedMeansMeasured | internal/controller/verification.go:126-184 | a truthful record stays truthful through trimming to the condition: True exactly for a measured pass over the listed commands, False exactly for less, not run exactly when there was nothing to measure |
| VerifiedCondition.ReportStage | harness/cmd/migration-harness/main.go:712-832 | a whole stage from its plan to its condition: True if and only if verification was called for and every listed command of an untruncated list ran and exited 0 on the pushed commit with only exempt paths uncommitted, fenced blocks beside the list not counting; Unknown if and only if the stage ended before it had anything to record |
| VerifiedCondition.SilenceIsNotAPass | internal/controller/verification.go:126-184 | without a record the condition is Unknown |
| Demux.WSClient.FanOutNotification | harness/internal/acp/wsclient.go:120-142 | every sink with room gets the notification and exactly the full ones miss it |
| Demux.WSClient.Claim | harness/internal/acp/wsclient.go:176-197 | the first response to a registered id claims it, later ones find nothing |
| Demux.WSClient.AddNotifSink | harness/internal/acp/wsclient.go:216-224 | a sink gets a number no sink had before |
| Demux.StepKeepsInv | harness/internal/acp/wsclient.go:90-197 | every step of the reader and of any calling thread keeps each call's reply in one place and each sink's contents equal to what was read since it was added |
| Demux.MissesExactlyWhenFull | harness/internal/acp/wsclient.go:120-130 | a sink misses a notification exactly when it holds 256; every other listening sink gets it, and nothing else enters one |
| Demux.WholeExactlyWhenNothingMissed | harness/internal/acp/wsclient.go:120-130 | a call counts as whole exactly when its sink had missed nothing as it ended |
| Demux.EndedCallsAreForgotten | harness/internal/acp/wsclient.go:209-230 | the deferred calls leave neither a pending id nor a sink with the client |
| Demux.AnswersAreWhole | harness/internal/acp/session.go:450-542 | under every schedule an answered call returns the first response to its own id and has folded, in wire order, exactly the notifications from its sink's registration to a point after that response |
| Demux.LostMeansNeverAnswered | harness/internal/acp/session.go:450-542 | a lost connection is reported only if no response to the call was ever read, and everything read has then been folded |
| Demux.NobodyIsStuck | harness/internal/acp/wsclient.go:176-197 | the reader never blocks on a response, and no call whose reply was read or whose connection ended is left waiting |
| Demux.HeardCallsEndAnswered | harness/internal/acp/session.go:489-542 | from wherever any run has left a waiting call whose reply has been read and handed on, steps of its own fold what its sink holds and return it that reply |
| PromptFold.PromptResult.Process | harness/internal/acp/session.go:469-476 | one notification changes the result as its kind says, the tool call counted and the closing text restarted together |
| PromptFold.PromptResult.AppendClosing | harness/internal/acp/session.go:378-385 | a chunk joins the last message or starts the next |
| PromptFold.PromptResult.MaybeCancelForCost | harness/internal/acp/session.go:478-486 | the cancellation is sent once, when the cost has reached a limit that is set |
| PromptFold.ClosingIsTheTail | harness/internal/acp/session.go:766-818 | the closing messages are exactly what was said after the last tool call or steer, grouped by message, under every schedule |
| PromptFold.MessagesHoldTheText | harness/internal/acp/session.go:378-385 | grouping chunks into messages neither loses nor adds text |
| PromptFold.TotalsAreOfTheWholeTurn | harness/internal/acp/session.go:489-497 | every chunk and every notice is kept in order, every tool call counted, cost and context are the last reported |
| PromptFold.OnlyTheCostFlagDependsOnTheSchedule | harness/internal/acp/session.go:490-542 | which notifications are folded in the wait and which are drained with the reply changes nothing in the result but the cost flag |
| PromptFold.CostIsNoticedOnlyInTheWait | harness/internal/acp/session.go:478-542 | the limit is noticed exactly when the cost had reached it after a notification folded in the wait |
| Replies.Session.Dispatch | harness/internal/acp/wsclient.go:144-174 | without a handler a request is refused; with one, the handler and its recovery do what the request's script says, and latch exactly for an unanswered question |
| Replies.Session.AnswerAgentRequest | harness/internal/acp/session.go:566-631 | every path replies once, except the panic, which replies nothing |
| Replies.Session.AnswerElicitation | harness/internal/acp/session.go:642-681 | an unanswered question is latched, then cancelled, then the turn is cancelled |
| Replies.FirstRejectIsFirst | harness/internal/acp/session.go:619-626 | the option chosen is the first one-shot rejection, and none is chosen only if there is none |
| Replies.OnlyViewersGrant | harness/internal/acp/session.go:566-631 | a permission reply is a viewer's answer verbatim exactly when there is one, otherwise the first one-shot rejection offered exactly when there is one, otherwise the cancelled outcome |
| Replies.OthersAreAnswered | harness/internal/acp/session.go:566-681 | what each other request is answered, by handler, method and what became of the relay |
| Replies.ThroughIsDone | harness/internal/acp/session.go:642-681 | under every interleaving a thread that is through has given its reply and no more, but for an unanswered question's, which has latched it, cancelled it and, in a session, cancelled the turn, in that order |
| Replies.EveryRequestIsAnsweredOnce | harness/internal/acp/wsclient.go:144-174 | under every interleaving each request gets at most one reply, exactly one once its thread is through, and only its own |
| Replies.LatchedBeforeItIsCancelled | harness/internal/acp/session.go:642-681 | under every interleaving an unanswered question's cancellation comes after the latch, and the turn's after the cancellation |
| Replies.UnlatchedExactlyWhen | harness/internal/acp/wsclient.go:149-173 | a question no viewer answered goes unlatched exactly when it has no handler or forwarding it panicked |
| TeeAsks.Server.Register | harness/internal/tee/tee.go:481-547 | an ask is offered exactly when a responsive viewer is attached to a server not stopped |
| TeeAsks.Server.TakeAnswer | harness/internal/tee/tee.go:1017-1046 | the first result takes the ask out of both maps at once; later ones and errors take nothing |
| TeeAsks.Server.AddViewer | harness/internal/tee/tee.go:949-959 | a viewer attaches exactly while the server is not stopped |
| TeeAsks.StepKeepsInv | harness/internal/tee/tee.go:481-547 | every step of askers, answerers, timers, viewers and Stop keeps an accepted answer in exactly one place and every frame broadcast once |
| TeeAsks.AsksAreOfferedExactlyWhen | harness/internal/tee/tee.go:481-515 | an ask parks and is open, with its frame and an empty channel, exactly when a responsive viewer is attached to a server not stopped; else nothing but the counter moves |
| TeeAsks.AsksCloseExactlyWhen | harness/internal/tee/tee.go:515-547 | an open ask is closed exactly by a result for it or its thread's cleanup, and keeps its frame until then |
| TeeAsks.ResponsiveExactlyUntil | harness/internal/tee/tee.go:1017-1046 | viewers count as gone exactly from a timeout to the next sign of one, a late or refused answer included |
| TeeAsks.AsksAreAnsweredOnce | harness/internal/tee/tee.go:1017-1046 | in every reachable state the two maps list the same asks, a thread holding an accepted answer can send it at once, and an answered asker got the accepted result |
| TeeAsks.FirstAnswerAndOutcomeStand | harness/internal/tee/tee.go:481-547 | over every run an accepted result is never replaced and an outcome never changes |
| TeeAsks.ResolutionFrames | harness/internal/tee/tee.go:526-582 | a finished ask is closed by a cancellation exactly when its asker gave up and by the accepted result exactly when there is one, each once and nothing else |
| TeeAsks.AnswerAfterTheTimer | harness/internal/tee/tee.go:536-544 | the run in which viewers see both |
| TeeAsks.StopReleasesEveryAsk | harness/internal/tee/tee.go:529-535 | after Stop every parked asker may leave at once and nothing parks again |
| ReplayRing.Server.EmitRunFrame | harness/internal/tee/tee.go:411-442 | splicing the two parallel sequences does what replacing and appending an entry means |
| ReplayRing.Server.TrimReplayLocked | harness/internal/tee/tee.go:451-463 | the trimming loop is repeated eviction of the oldest unkeyed entry |
| ReplayRing.RingIsItsSurvivors | harness/internal/tee/tee.go:411-463 | after any history with at most 32 keys the ring is the last frame of each key and the latest unkeyed frames that fit beside them, in order of emission |
| ReplayRing.SurvivorsAreCounted | harness/internal/tee/tee.go:444-463 | that is one frame a key and the smaller of the unkeyed frames and the room left |
| ReplayRing.EveryKeyIsKept | harness/internal/tee/tee.go:444-463 | every key stays represented exactly when there are at most 32 of them |
| ReplayRing.ReplacesExactlyWhen | harness/internal/tee/tee.go:358-409 | emissions share a key exactly when both are plans, outcomes, own pushes or updates to one; frames go in as they are |
| ReplayRing.LateViewersSeeTheState | harness/internal/tee/tee.go:352-409 | the harness's own emissions use at most four keys, so a late viewer always sees the latest of each |
| SkillLoad.Check | internal/skills/load.go:157-211 | no problem is reported exactly when every candidate is readable with a known type and no two share a name; then all are loaded in order and found by name |
| SkillLoad.LoadedAsDeclared | internal/skills/load.go:157-211 | a skill is loaded under the name and description of its SKILL.md, as a rule exactly when its source says so |
| SkillLoad.Root.PruneDirs | internal/skills/load.go:572-590 | what is removed, or begun to be, is a beginning of the directories there are that nothing keeps |
| SkillLoad.Root.AssembleSkills | internal/skills/load.go:114-126 | each skill's directory is replaced in turn; a fault stops within the one it struck |
| SkillLoad.Root.Load | internal/skills/load.go:68-135 | a failed check changes nothing; with a candidate, wherever a fault strikes, a manifest that exists names only fully assembled directories; on success the directories are exactly the manifest's, with their sources' content |
| SkillLoad.Rules | internal/skills/load.go:128-134 | the loop collects the names the specification reads off skill by skill |
| SkillLoad.RulesAreInOrder | internal/skills/load.go:128-134 | the rules of two runs of skills are those of the one and then those of the other, and of one skill its name if it is a rule |
| SkillLoad.SoundAtEveryStop | internal/skills/load.go:98-126 | the manifest is dropped before anything it describes and written after everything it names |
| SkillLoad.WholeProgram | internal/skills/load.go:68-135 | the whole sequence of operations leaves what it set out to leave, from any disk |
| SkillLoad.EmptyLoadIsSoundExactlyWhen | internal/skills/load.go:76-83 | without candidates every stop is sound exactly when the previous manifest named nothing |
| Capture.LinesRebuildTheOutput | harness/internal/goose/output.go:84-98 | the completed lines and the rest are the output, cut at every newline, and hold none |
| Capture.StripANSI | harness/internal/goose/output.go:160-183 | the byte loop removes exactly the control sequences |
| Capture.StrippedOfEscapes | harness/internal/goose/output.go:160-183 | no escape byte is left, and a line without one is left alone |
| Capture.SequencesAreTakenOut | harness/internal/goose/output.go:160-183 | the first control sequence is taken out whole, and nothing on either side of it |
| Capture.UnendedIsTakenOut | harness/internal/goose/output.go:160-183 | one that does not end takes the rest of the line with it |
| Capture.KeptExactlyWhen | harness/internal/goose/output.go:100-126 | a line leaves something exactly when its head of 4096 bytes, cleaned and trimmed, reports an error, and then that, marked if it was cut |
| Capture.ContainsExactlyWhen | harness/internal/goose/output.go:147-152 | a line holds a word exactly when it is that word between two others |
| Capture.OutputCapture.Scan | harness/internal/goose/output.go:84-126 | after any writes the state is a function of the bytes alone: the last eight error lines, each cut to 4096 bytes, and the cut head of the unfinished line |
| Capture.OutputCapture.Record | harness/internal/goose/output.go:114-126 | a line that reports no failure changes nothing, one that does pushes out the oldest of eight |
| Capture.OutputCapture.LastErrorSince | harness/internal/goose/output.go:134-143 | the latest kept line read after the given time, or none when there is none |
| Capture.TailBuffer.Write | harness/cmd/migration-harness/verify.go:963-973 | after any writes the buffer is the last min(limit, total) bytes and dropped is set exactly when more was written |
| Capture.ChunksDoNotMatter | harness/internal/goose/output.go:84-126 | two captures, and two tails, of the same bytes agree however the bytes were cut into writes |
| Capture.TailOfTheTail | harness/cmd/migration-harness/verify.go:963-973 | cutting before and after joining loses nothing of the tail |
| Substitution.RecognisesTheSpelling | internal/controller/params.go:46-49 | the recogniser finds a reference exactly where one is spelled |
| Substitution.SpelledAs | internal/controller/params.go:46-49 | the two spellings there are |
| Substitution.Substitute | internal/controller/params.go:126-150 | succeeds exactly when every reference mentioned anywhere resolves; otherwise lists exactly the unresolved ones, in ascending order, none twice |
| Substitution.ReplaceAll | internal/controller/params.go:131-141 | one pass from left to right computes the rendering and the unresolved references |
| Substitution.ValuesAreNotRescanned | internal/controller/params.go:131-141 | around any reference the text is rendered on its own and the value goes in as it is |
| Substitution.NothingToRender | internal/controller/params.go:127-129 | without an opening there is no reference and the text is its own rendering |
| Substitution.TextIsLeftAlone | internal/controller/params.go:126-150 | text that spells no reference is its own rendering, whatever else it looks like |
| Substitution.UnresolvedAreMentioned | internal/controller/params.go:131-141 | a reference is collected exactly when it is spelled in the text and does not resolve |
| Substitution.CoerceParams | internal/controller/params.go:60-108 | fails exactly when some set parameter is not of its declared type, naming one |
| Substitution.CoercedByItsType | internal/controller/params.go:60-108 | a supplied value stands for the default even if empty; a number is an integer if it reads as one, else a fraction; a boolean what reads as one; a string itself |
| Substitution.ValuesAreOfTheDeclared | internal/controller/params.go:60-108 | exactly the declared parameters render, exactly those with a value are passed on |
| Substitution.ValuesAreCoerced | internal/controller/params.go:60-108 | a parameter declared once has its own coerced value, rendered by the one rule |
| Substitution.UnsetResolvesOnlyInTheGuide | internal/controller/params.go:167-197 | in the guide only undeclared references fail, in stage text exactly the unset ones fail too |
| Credentials.CredentialBytes | internal/controller/gateway_controller.go:645-662 | the loop over sorted keys feeds the digest the fields in order, for one key or for all |
| Credentials.WalkDoesNotMatter | internal/controller/gateway_controller.go:651-655 | the order in which the map was walked does not reach the bytes |
| Credentials.FieldsReadBack | internal/controller/gateway_controller.go:674-681 | the length-prefixed fields decode to the pairs they were made from |
| Credentials.FieldIs | internal/controller/gateway_controller.go:674-681 | a field is eight bytes of length, the highest first, and the bytes |
| Credentials.BindingIs | internal/controller/gateway_controller.go:674-681 | a key and a value are fed as their two fields, the key first |
| Credentials.BytesDetermineTheSecret | internal/controller/gateway_controller.go:645-662 | two keyless credentials feed the same bytes exactly when the whole Secrets are equal |
| Credentials.BytesDetermineTheKey | internal/controller/gateway_controller.go:645-662 | two keyed credentials feed the same bytes exactly when key and value are, an absent key counting as an empty one |
| Ordering.OrderIsUnique | internal/controller/gateway_controller.go:651-655 | only one arrangement of the same keys is in order |
| Ordering.BelowExactlyWhen | internal/controller/gateway_controller.go:651-655 | a string is before another exactly when it is smaller at the first difference or a beginning of it |
| Ordering.CompactedIsAscending | internal/controller/params.go:143-147 | sorting and compacting leaves the same entries in ascending order |
| Ordering.AscendingHasNoRepeats | internal/controller/params.go:143-147 | nothing is in an ascending list twice |
| FileMounts.ValidateFileMounts | internal/controller/agentrun_controller.go:559-590 | a list is accepted exactly when every mount is well formed and all places, reserved ones included, are pairwise incomparable; a refusal is of the first mount at fault, all before it accepted |
| FileMounts.CheckMount | internal/controller/agentrun_controller.go:559-590 | one mount passes exactly when it fits and is apart from all before it, and what a refusal says is so |
| FileMounts.AncestorsAreSegmentPrefixes | internal/controller/agentrun_controller.go:680-693 | the string-prefix test on cleaned absolute paths is the prefix order of their segments, root included |
| FileMounts.PlaceOfOneMore | internal/controller/agentrun_controller.go:568 | a name leads down to it, a dot or an empty name nowhere, two dots up, though not above the root |
| FileMounts.DetoursComeBack | internal/controller/agentrun_controller.go:568 | a path that goes down to a name and up again names the place of the direct one |
| FileMounts.DetoursDoNotHelp | internal/controller/agentrun_controller.go:559-590 | a list fares the same whether a mount is spelled directly or by such a detour |
| FileMounts.WorkspaceIsReserved | internal/controller/agentrun_controller.go:559-590 | a mount that goes down to any name, up again and to the workspace is refused |
| FileMounts.ItemFitsExactlyWhen | internal/controller/agentrun_controller.go:666-674 | an item's path fits exactly when it is not empty, not absolute, and no name of it is two dots |
| FileMounts.CleaningIsIdempotent | internal/controller/agentrun_controller.go:568 | a cleaned path names the same place and is clean |
| VolumeNames.SanitizedIsValid | internal/controller/agentrun_controller.go:2174-2187 | a nonempty name becomes 1 to 63 characters of lower-case letters, digits and hyphens with alphanumeric ends |
| VolumeNames.MappedEach | internal/controller/agentrun_controller.go:2174-2176 | what each character becomes: letters are lowered, digits and hyphens stay, anything else is a hyphen |
| VolumeNames.RewrittenIs | internal/controller/agentrun_controller.go:2174-2187 | a rewritten name is what is between the outer hyphens of its mapped form, or an x, cut to 54 characters and freed of hyphens at its end, a hyphen, and eight digits of its hash |
| VolumeNames.ExactlyValidNamesAreFixed | internal/controller/agentrun_controller.go:2174-2187 | a name is left as it is exactly when it is empty or already valid |
| VolumeNames.SanitizingIsIdempotent | internal/controller/agentrun_controller.go:2174-2187 | rewriting a rewritten name changes nothing |
| VolumeNames.NamesMeetExactlyWhen | internal/controller/agentrun_controller.go:2164-2187 | two different names meet exactly when one is the other's rewriting or both were rewritten to one stem with colliding hashes |
| VolumeNames.RewrittenNamesMeetTheirImage | internal/controller/agentrun_controller.go:2164-2187 | every name that is rewritten meets a different name |
| VolumeNames.StagesAreNameable | internal/controller/agentworkflowrun_controller.go:367-369 | what the workflow theorems assume of stage names: the AgentRun names of the stages are distinct if and only if no two stages share a name or have long forms that meet as above |

## Left out

- Cached reads: the reconciles read objects fresh. A stale NotFound of a child fails a
  workflow run without an uncached second look
  (`internal/controller/agentworkflowrun_controller.go:266-281`).
- Concurrent patches of one object: each reconcile is one step, and its patch lands
  whole or not at all.
- The rest of a workflow run's life after TTL deletion; the modelled history ends there.
- Resource-deletion cleanup, RBAC, informers, label and index plumbing, and the
  building of Sandbox, Job and ConfigMap manifests.
- resolveExecution, gateway readiness and provider checks, condition messages: single
  branches; message texts are shortened to the reason they give.
- Git, HTTP, WebSocket, process and clock calls are inputs: what they return, in any
  combination.
- JSON, YAML, SHA-256, regular expressions and Unicode tables: records are read
  directly, JSON sizes are an upper bound a character, the hash and the letter
  mapping outside ASCII are arbitrary functions.
- The heuristics that tell a command from prose, a heading, a list item, a status line
  or a failed row: arbitrary total functions, so the theorems hold for any of them.
- Redaction: an arbitrary function on strings.
- Splitting a document into lines.
- The snapshot a viewer is caught up from and its registration are separate steps in
  the code, so a frame or an ask in between is missed
  (`harness/internal/tee/tee.go:693-711`); the model says what the ring and the maps
  hold, not what one viewer received.
- In `TeeAsks`, the counter and the responsive flag, which the code changes just
  outside the mutex, change with the section they belong to.
- Raw subscribers, and CallRPC, which does not look for a reply after the connection
  ends.
- Recognising a provider's failure in the closing text, a scan for fixed phrases.
- harness/internal/askuser: the same pending map once more.
- Source collection, cloning and the copying of a tree with its links: a skill's
  content is one value, and a copy is whole or torn.
- validateFileMountSources and validateFileMountProjection: what the mounted object holds.
- A finished Sandbox that misreports the exit of the harness it held, and an agent that
  ends its turn in the ordinary way after a cancel was sent: `TokenLifetime` and
  `HumanGate` assume neither.
- The start of a pod: a harness counts as running from when its Sandbox is made. What
  the Sandbox controller does with a pod deleted under it is not part of this model; a
  Sandbox holds one harness.
- Floating-point spellings: a number renders by one unspecified rule in both scopes.
