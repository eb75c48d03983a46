/**
 The harness's own verification pass (harness/cmd/migration-harness/verify.go):
 run the plan's commands on the commit being pushed and settle one verdict.
 The world it runs in (the plan file, the repository, how each command ended)
 is a parameter; log lines are left out.
 */
module Verification {
  import opened Wrappers
  import opened Text
  import opened Fences
  import opened PlanParser
  import Capture

  datatype Status = Passed | Failed | NotRun | Incomplete {
    function Name(): string {
      match this
      case Passed => "passed"
      case Failed => "failed"
      case NotRun => "notRun"
      case Incomplete => "incomplete"
    }
  }

  datatype StepStatus = StepPassed | StepFailed | StepTimedOut | StepSkipped | StepError | StepAborted {
    predicate Failing() { StepFailed? || StepTimedOut? || StepError? }

    function Name(): string {
      match this
      case StepPassed => "passed"
      case StepFailed => "failed"
      case StepTimedOut => "timedOut"
      case StepSkipped => "skipped"
      case StepError => "error"
      case StepAborted => "aborted"
    }
  }

  datatype StepRecord = StepRecord(
    name: string,
    command: string,
    status: StepStatus,
    exitCode: Option<int>,
    seconds: string,
    reason: string,
    output: string)

  datatype Record = Record(status: Status, reason: string, commit: string, commands: seq<StepRecord>) {
    /** Anything but a measured pass over work there was to measure. */
    predicate Unmet() { status == Failed || status == Incomplete }
  }

  const COMMAND_LEN := 120
  const REASON_LEN := 160
  const OUTPUT_LEN := 200

  const PLAN_PATH := "docs/plan.md"

  /** The two stage-bookkeeping files no build reads. */
  const EXEMPT: set<string> := {".konveyor/analysis.json", ".konveyor/handoff.md"}

  /** How one command ended. PassOver: the pass itself had stopped, before or
      under the command. */
  datatype End =
    | PassOver(before: bool, why: string)
    | TimedOut
    | Exited(code: int)
    | Unstartable(error: string)
    | Clean

  datatype StepRun = StepRun(end: End, output: string, seconds: string)

  datatype PlanFile = NoFile | Unreadable(error: string) | Content(lines: seq<string>)

  datatype World = World(
    file: PlanFile,
    repoKnown: bool,
    branch: string,
    tip: Result<string, string>,
    head: Result<string, string>,
    uncommitted: Result<seq<string>, string>,
    runs: nat -> StepRun)

  /** Bounds s to n characters with an ellipsis. */
  function Clip(s: string, n: nat): (r: string)
    requires n > 0
    ensures |r| <= n
  {
    var t := TrimSpace(s);
    if |t| > n then TrimSpace(t[..n - 1]) + "\U{2026}" else t
  }

  /** What is short enough is only trimmed; what is not is cut to fit, with a mark. */
  lemma ClipCuts(s: string, n: nat)
    requires n > 0
    ensures |TrimSpace(s)| <= n ==> Clip(s, n) == TrimSpace(s)
    ensures |TrimSpace(s)| > n ==> CutWithAMark(TrimSpace(s), n - 1, Clip(s, n))
  {
    if |TrimSpace(s)| > n {
      var cut := TrimSpace(s)[..n - 1];
      assert cut <= TrimSpace(s) && |cut| == n - 1;
    }
  }

  ghost predicate CutWithAMark(s: string, n: nat, clipped: string) {
    exists cut: string :: cut <= s && |cut| == n && clipped == TrimSpace(cut) + "\U{2026}"
  }

  function ShortSha(sha: string): string {
    if |sha| > 12 then sha[..12] else if sha == "" then "unknown" else sha
  }

  function Join(parts: seq<string>, separator: string): string {
    if parts == [] then "" else if |parts| == 1 then parts[0] else parts[0] + separator + Join(parts[1..], separator)
  }

  method NotRunRecord(reason: string) returns (v: Record)
    ensures v.status == NotRun && v.commit == "" && v.commands == [] && |v.reason| <= REASON_LEN
  {
    v := Record(NotRun, Clip(reason, REASON_LEN), "", []);
  }

  method IncompleteRecord(red: string -> string, reason: string) returns (v: Record)
    ensures v.status == Incomplete && v.commit == "" && v.commands == [] && |v.reason| <= REASON_LEN
  {
    v := Record(Incomplete, Clip(red(reason), REASON_LEN), "", []);
  }

  // ----- Is the working tree the commit being pushed? -----

  predicate OnTarget(w: World) { w.repoKnown && w.branch != "" && w.tip.Ok? && w.head.Ok? && w.tip == w.head }

  method VerifyTarget(w: World) returns (commit: string, mismatch: string)
    ensures mismatch == "" <==> OnTarget(w)
    ensures OnTarget(w) ==> commit == w.tip.value
  {
    if !w.repoKnown || w.branch == "" {
      return "", "the harness could not identify the commit being pushed";
    }
    if w.tip.Err? {
      return "", "resolve branch " + w.branch + ": " + w.tip.error;
    }
    if w.head.Err? {
      return "", "resolve HEAD: " + w.head.error;
    }
    if w.head.value != w.tip.value {
      return "", "the working tree is at " + ShortSha(w.head.value) + " but branch " + w.branch + " points at "
        + ShortSha(w.tip.value) + " - the harness cannot verify the commit being pushed";
    }
    return w.tip.value, "";
  }

  method WorktreeGap(paths: seq<string>, commit: string) returns (gap: string)
    ensures gap == "" <==> forall i | 0 <= i < |paths| :: paths[i] in EXEMPT
  {
    var kept: seq<string> := [];
    for i := 0 to |paths|
      invariant kept == [] <==> forall j | 0 <= j < i :: paths[j] in EXEMPT
    {
      if paths[i] !in EXEMPT {
        kept := kept + [paths[i]];
      }
    }
    if |kept| == 0 {
      return "";
    }
    var shown, more := kept, "";
    if |shown| > 3 {
      shown := shown[..3];
    }
    if |kept| > |shown| {
      more := ", and " + Decimal(|kept| - |shown|) + " more";
    }
    gap := Decimal(|kept|) + " path(s) in the working tree are not in commit " + ShortSha(commit) + " ("
      + Join(shown, ", ") + more + "), so the commands did not run on the tree being pushed";
  }

  // ----- What is kept of a command's output -----

  function WithoutReturns(l: string): (r: string)
    ensures r <= l && (forall i | |r| <= i < |l| :: l[i] == '\r') && (r != "" ==> r[|r| - 1] != '\r')
  {
    if l != "" && l[|l| - 1] == '\r' then WithoutReturns(l[..|l| - 1]) else l
  }

  /** A list of the line, or of nothing if it is blank. */
  function InkOf(l: string): seq<string> {
    if TrimSpace(l) == "" then [] else [WithoutReturns(l)]
  }

  /** The lines that are not blank, without their carriage returns. */
  function Inked(lines: seq<string>): seq<string> {
    if lines == [] then []
    else
      var l := lines[|lines| - 1];
      Inked(lines[..|lines| - 1]) + InkOf(l)
  }

  function LinesOf(output: string): seq<string> {
    Capture.Complete(output) + [Capture.Rest(output)]
  }

  /** The output on one line. */
  function OnOneLine(output: string): string {
    Join(Inked(LinesOf(output)), " | ")
  }

  function LastPart(s: string, n: nat): (r: string)
    requires n > 0
    ensures |r| <= n
  {
    if |s| > n then "\U{2026}" + s[|s| - n + 1..] else s
  }

  /** Its end: a compiler's summary comes last. */
  function Excerpt(output: string): string {
    LastPart(OnOneLine(output), OUTPUT_LEN)
  }

  method LastLines(output: string) returns (r: string)
    ensures r == Excerpt(output)
  {
    var ended := WithoutNewlines(output);
    var kept := InkedLines(LinesOf(ended));
    r := LastPart(Join(kept, " | "), OUTPUT_LEN);
  }

  method WithoutNewlines(output: string) returns (r: string)
    ensures Inked(LinesOf(r)) == Inked(LinesOf(output))
    ensures r <= output && (r != "" ==> r[|r| - 1] != '\n')
  {
    r := output;
    while r != "" && r[|r| - 1] == '\n'
      invariant r <= output && Inked(LinesOf(r)) == Inked(LinesOf(output))
      decreases |r|
    {
      var shorter := r[..|r| - 1];
      EndedLine(r, shorter);
      r := shorter;
    }
  }

  lemma EndedLine(r: string, shorter: string)
    requires r != "" && r[|r| - 1] == '\n' && shorter == r[..|r| - 1]
    ensures Inked(LinesOf(shorter)) == Inked(LinesOf(r))
  {
    var lines := LinesOf(shorter);
    OneMoreInked(lines, "");
    EndedByNothing(r, shorter);
  }

  lemma EndedByNothing(r: string, shorter: string)
    requires r != "" && r[|r| - 1] == '\n' && shorter == r[..|r| - 1]
    ensures LinesOf(r) == LinesOf(shorter) + [""]
  {}

  method InkedLines(lines: seq<string>) returns (kept: seq<string>)
    ensures kept == Inked(lines)
  {
    kept := [];
    for i := 0 to |lines|
      invariant kept == Inked(lines[..i])
    {
      InkedUpTo(lines, i);
      if TrimSpace(lines[i]) != "" {
        kept := kept + [WithoutReturns(lines[i])];
      }
    }
    assert lines[..|lines|] == lines;
  }

  lemma OneMoreInked(lines: seq<string>, l: string)
    ensures Inked(lines + [l]) == Inked(lines) + InkOf(l)
  {
    assert (lines + [l])[..|lines|] == lines;
  }

  lemma InkedUpTo(lines: seq<string>, i: nat)
    requires i < |lines|
    ensures Inked(lines[..i + 1]) == Inked(lines[..i]) + InkOf(lines[i])
  {
    var l := lines[i];
    assert lines[..i + 1] == lines[..i] + [l];
    OneMoreInked(lines[..i], l);
  }

  lemma {:induction false} JoinOneMore(parts: seq<string>, x: string, separator: string)
    ensures Join(parts + [x], separator) == if parts == [] then x else Join(parts, separator) + separator + x
  {
    if |parts| > 0 {
      assert (parts + [x])[1..] == parts[1..] + [x];
      JoinOneMore(parts[1..], x, separator);
      if |parts| > 1 {
        Regroup(parts[0], separator, Join(parts[1..], separator), separator + x);
      }
    }
  }

  lemma Regroup(a: string, b: string, c: string, d: string)
    ensures a + b + (c + d) == (a + b + c) + d
  {}

  lemma InkStays(l: string)
    requires TrimSpace(l) != ""
    ensures WithoutReturns(l) != ""
  {
    var from, end := TrimIsTight(l);
    assert !IsSpace(l[from]);
  }

  /** One more line adds itself behind a bar, unless it is blank. */
  lemma OneMoreLine(output: string, line: string)
    requires '\n' !in line
    ensures OnOneLine(line) == if TrimSpace(line) == "" then "" else WithoutReturns(line)
    ensures OnOneLine(output + "\n" + line)
         == if TrimSpace(line) == "" then OnOneLine(output)
            else if OnOneLine(output) == "" then WithoutReturns(line)
            else OnOneLine(output) + " | " + WithoutReturns(line)
  {
    LinesOfOneMore(output, line);
    JoinOneMoreInked([], line);
    assert [] + [line] == [line];
    JoinOneMoreInked(LinesOf(output), line);
  }

  lemma JoinOneMoreInked(lines: seq<string>, l: string)
    ensures Join(Inked(lines + [l]), " | ")
         == if TrimSpace(l) == "" then Join(Inked(lines), " | ")
            else if Join(Inked(lines), " | ") == "" then WithoutReturns(l)
            else Join(Inked(lines), " | ") + " | " + WithoutReturns(l)
  {
    OneMoreInked(lines, l);
    var inked := Inked(lines);
    if TrimSpace(l) == "" {
      assert inked + [] == inked;
    } else {
      NothingOnlyOfNothing(lines);
      JoinOneMore(inked, WithoutReturns(l), " | ");
    }
  }

  lemma LinesOfOneMore(output: string, line: string)
    requires '\n' !in line
    ensures LinesOf(line) == [line]
    ensures LinesOf(output + "\n" + line) == LinesOf(output) + [line]
  {
    Capture.MoreOfTheLine("", line);
    Capture.MoreOfTheLine(output + "\n", line);
    Capture.EndOfTheLine(output);
    assert "" + line == line;
  }

  lemma {:induction false} NothingOnlyOfNothing(lines: seq<string>)
    ensures Join(Inked(lines), " | ") == "" ==> Inked(lines) == []
  {
    if lines != [] {
      var init, l := lines[..|lines| - 1], lines[|lines| - 1];
      if TrimSpace(l) != "" {
        InkStays(l);
        JoinOneMore(Inked(init), WithoutReturns(l), " | ");
      } else {
        NothingOnlyOfNothing(init);
      }
    }
  }

  /** What is short enough is all there; of what is not, the end, behind a mark. */
  lemma TheEndIsKept(s: string, n: nat)
    requires n > 0
    ensures |s| <= n ==> LastPart(s, n) == s
    ensures |s| > n ==> exists head: string, tail: string ::
              head + tail == s && |tail| == n - 1 && LastPart(s, n) == "\U{2026}" + tail
  {
    if |s| > n {
      assert s[..|s| - n + 1] + s[|s| - n + 1..] == s;
    }
  }

  method OutputTold(output: string) returns (r: string)
    ensures r == TrimSpace(Excerpt(output))
  {
    var excerpt := LastLines(output);
    r := Clip(excerpt, OUTPUT_LEN);
  }

  // ----- One command -----

  /** What a run of a step leaves in the record: how it ended. */
  ghost predicate Records(r: StepRecord, step: PlanStep, run: StepRun) {
    && r.name == step.name
    && (r.status == StepSkipped <==> !step.Runnable())
    && (r.exitCode.Some? <==> step.Runnable() && (run.end.Clean? || run.end.Exited?))
    && (step.Runnable() ==>
          && (r.status == StepPassed <==> run.end.Clean?)
          && (r.status == StepAborted <==> run.end.PassOver?)
          && (r.status == StepTimedOut <==> run.end.TimedOut?)
          && (r.status == StepFailed <==> run.end.Exited?)
          && (r.status == StepError <==> run.end.Unstartable?)
          && (run.end.Clean? ==> r.exitCode == Some(0))
          && (run.end.Exited? ==> r.exitCode == Some(run.end.code)))
  }

  /** And of a command, redacted and bounded, what was run, why it could not be, and
      what it put out if it did not pass. */
  ghost predicate Tells(red: string -> string, r: StepRecord, step: PlanStep, run: StepRun) {
    var started := !(run.end.PassOver? && run.end.before);
    && r.command == Clip(red(step.command), 120)
    && r.seconds == (if started then run.seconds else "")
    && r.output == (if started && !run.end.Clean? && red(run.output) != "" then TrimSpace(Excerpt(red(run.output))) else "")
    && (run.end.Unstartable? ==> r.reason == Clip(red(run.end.error), 160))
    && (run.end.Clean? || run.end.Exited? ==> r.reason == "")
  }

  method RunVerifyStep(red: string -> string, step: PlanStep, run: StepRun) returns (r: StepRecord)
    requires step.Runnable()
    ensures Records(r, step, run) && Tells(red, r, step, run)
  {
    r := StepRecord(step.name, Clip(red(step.command), COMMAND_LEN), StepAborted, None, run.seconds, "", "");
    match run.end {
      case PassOver(before, why) =>
        if before {
          return r.(reason := why + " before this command", seconds := "");
        }
        r := r.(reason := why + " during this command");
      case TimedOut => r := r.(status := StepTimedOut, reason := "no exit in time");
      case Exited(code) => r := r.(status := StepFailed, exitCode := Some(code));
      case Unstartable(error) => r := r.(status := StepError, reason := Clip(red(error), REASON_LEN));
      case Clean => r := r.(status := StepPassed, exitCode := Some(0));
    }
    var output := red(run.output);
    if r.status != StepPassed && output != "" {
      var told := OutputTold(output);
      r := r.(output := told);
    }
  }

  // ----- The verdict over the recorded steps -----

  ghost predicate SomeFailing(commands: seq<StepRecord>) {
    exists i :: 0 <= i < |commands| && commands[i].status.Failing()
  }

  ghost predicate SomeAborted(commands: seq<StepRecord>) {
    exists i :: 0 <= i < |commands| && commands[i].status == StepAborted
  }

  ghost predicate SomePassed(commands: seq<StepRecord>) {
    exists i :: 0 <= i < |commands| && commands[i].status == StepPassed
  }

  predicate FirstFailing(commands: seq<StepRecord>, i: nat) {
    i < |commands| && commands[i].status.Failing() && forall j | 0 <= j < i :: !commands[j].status.Failing()
  }

  /** What is said of a command that failed. */
  function FailureOf(c: StepRecord): string { c.name + " " + c.status.Name() + ": " + c.command }

  /** A failure outranks a gap, and a gap outranks a pass; the first failure is named. */
  method Settle(v: Record, red: string -> string, gap: string, cap: string) returns (r: Record)
    requires v.status == Passed && v.reason == ""
    ensures r.commands == v.commands && r.commit == v.commit && |r.reason| <= REASON_LEN
    ensures r.status == Failed <==> SomeFailing(v.commands)
    ensures r.status == Passed <==>
            && gap == "" && cap == ""
            && !SomeFailing(v.commands) && !SomeAborted(v.commands) && SomePassed(v.commands)
    ensures r.status != NotRun
    ensures r.status == Passed ==> r.reason == Clip(red(""), 160)
    ensures r.status == Failed ==> exists i: nat :: FirstFailing(v.commands, i) && r.reason == Clip(red(FailureOf(v.commands[i])), 160)
  {
    r := v;
    var gaps: seq<string> := [];
    if gap != "" {
      gaps := gaps + [gap];
    }
    if cap != "" {
      gaps := gaps + [cap];
    }
    var ran := 0;
    for i := 0 to |v.commands|
      invariant r.commands == v.commands && r.commit == v.commit
      invariant r.status == (if SomeFailing(v.commands[..i]) then Failed else Passed)
      invariant r.status == Passed ==> r.reason == ""
      invariant r.status == Failed ==> exists k: nat :: k < i && FirstFailing(v.commands, k) && r.reason == FailureOf(v.commands[k])
      invariant gaps == [] <==> gap == "" && cap == "" && !SomeAborted(v.commands[..i])
      invariant ran >= 0 && (ran == 0 <==> !SomePassed(v.commands[..i]) && !SomeFailing(v.commands[..i]))
    {
      var c := v.commands[i];
      StatusGrows(v.commands, i);
      if c.status == StepPassed {
        ran := ran + 1;
      } else if c.status.Failing() {
        ran := ran + 1;
        if r.status != Failed {
          r := r.(status := Failed, reason := c.name + " " + c.status.Name() + ": " + c.command);
          assert FirstFailing(v.commands, i);
        }
      } else if c.status == StepAborted {
        gaps := gaps + [c.name + " was not measured (" + c.reason + ")"];
      }
    }
    assert v.commands[..|v.commands|] == v.commands;
    if r.status != Failed {
      if |gaps| > 0 {
        r := r.(status := Incomplete, reason := Join(gaps, "; "));
      } else if ran == 0 {
        r := r.(status := Incomplete, reason := "no verification command produced a result");
      }
    }
    r := r.(reason := Clip(red(r.reason), REASON_LEN));
  }

  lemma StatusGrows(commands: seq<StepRecord>, i: nat)
    requires i < |commands|
    ensures SomeFailing(commands[..i + 1]) <==> SomeFailing(commands[..i]) || commands[i].status.Failing()
    ensures SomeAborted(commands[..i + 1]) <==> SomeAborted(commands[..i]) || commands[i].status == StepAborted
    ensures SomePassed(commands[..i + 1]) <==> SomePassed(commands[..i]) || commands[i].status == StepPassed
  {
    var shorter, longer := commands[..i], commands[..i + 1];
    assert longer[i] == commands[i];
    assert forall j | 0 <= j < i :: shorter[j] == longer[j];
  }

  // ----- The whole pass -----

  /** What the plan file says; NO_PLAN when there is no readable file. */
  ghost function PlanOf(rd: Reader, w: World): Plan {
    if w.file.Content? then Parsed(rd, Prose(w.file.lines, "")) else NO_PLAN
  }

  /** There was something to run, and it ran on a tree the harness knows. */
  ghost predicate Attempted(rd: Reader, w: World) {
    PlanOf(rd, w).found && PlanOf(rd, w).Runnable() && OnTarget(w) && w.uncommitted.Ok?
  }

  ghost predicate AllExempt(paths: seq<string>) { forall i | 0 <= i < |paths| :: paths[i] in EXEMPT }

  ghost predicate EveryCommandClean(rd: Reader, w: World) {
    var steps := PlanOf(rd, w).steps;
    forall i: nat | i < |steps| && steps[i].Runnable() :: w.runs(i).end.Clean?
  }

  ghost predicate SomeCommandFailed(rd: Reader, w: World) {
    var steps := PlanOf(rd, w).steps;
    exists i: nat ::
      && i < |steps| && steps[i].Runnable()
      && (w.runs(i).end.TimedOut? || w.runs(i).end.Exited? || w.runs(i).end.Unstartable?)
  }

  /** A measured pass: at least one command, none of those listed left out, each ran
      and exited 0, on the tip of the branch, with nothing uncommitted that a build
      reads. A fenced block of the section is not listed and is not asked after. */
  ghost predicate Measured(rd: Reader, w: World) {
    && Attempted(rd, w)
    && !PlanOf(rd, w).truncated
    && AllExempt(w.uncommitted.value)
    && EveryCommandClean(rd, w)
  }

  /** There was nothing to measure, and the section was read. */
  ghost predicate NothingToMeasure(rd: Reader, w: World) {
    var plan := PlanOf(rd, w);
    !plan.found || (!plan.Runnable() && !plan.truncated && plan.fence == "")
  }

  /** The record is true of the world: each verdict is given exactly when it
      is deserved, and the commit named is the one being pushed. */
  ghost predicate Truthful(rd: Reader, w: World, v: Record) {
    && |v.reason| <= REASON_LEN
    && (v.status == Passed <==> Measured(rd, w))
    && (v.status == Failed <==> Attempted(rd, w) && SomeCommandFailed(rd, w))
    && (v.status == NotRun <==> NothingToMeasure(rd, w))
    && (Attempted(rd, w) ==>
          && v.commit == w.tip.value == w.head.value
          && |v.commands| == |PlanOf(rd, w).steps|
          && forall i | 0 <= i < |v.commands| :: Records(v.commands[i], PlanOf(rd, w).steps[i], w.runs(i)))
    && (!Attempted(rd, w) ==> v.commit == "" && v.commands == [])
  }

  method RecordStep(red: string -> string, step: PlanStep, run: StepRun) returns (r: StepRecord)
    ensures Records(r, step, run)
  {
    if !step.Runnable() {
      return StepRecord(step.name, "", StepSkipped, None, "", Clip(red(step.skip), REASON_LEN), "");
    }
    r := RunVerifyStep(red, step, run);
  }

  method RunCommands(red: string -> string, steps: seq<PlanStep>, runs: nat -> StepRun)
    returns (commands: seq<StepRecord>)
    ensures |commands| == |steps|
    ensures forall i | 0 <= i < |steps| :: Records(commands[i], steps[i], runs(i))
  {
    commands := [];
    for i := 0 to |steps|
      invariant |commands| == i
      invariant forall j | 0 <= j < i :: Records(commands[j], steps[j], runs(j))
    {
      var r := RecordStep(red, steps[i], runs(i));
      commands := commands + [r];
    }
  }

  method AnyRunnable(steps: seq<PlanStep>) returns (any: bool)
    ensures any <==> exists i :: 0 <= i < |steps| && steps[i].Runnable()
  {
    any := false;
    for i := 0 to |steps|
      invariant any <==> exists j :: 0 <= j < i && steps[j].Runnable()
    {
      if steps[i].Runnable() {
        any := true;
      }
    }
  }

  const CAP_GAP := "the ## Verification section lists more than 12 commands; the rest were not run"

  method RunPlanVerification(rd: Reader, red: string -> string, w: World) returns (v: Record)
    ensures Truthful(rd, w, v)
  {
    if w.file.NoFile? {
      v := NotRunRecord(PLAN_PATH + " not found - no verification commands to run");
      return;
    }
    if w.file.Unreadable? {
      v := NotRunRecord("read " + PLAN_PATH + ": " + red(w.file.error));
      return;
    }
    var parsed := ParsePlanVerification(rd, w.file.lines);
    if !parsed.found {
      v := NotRunRecord(PLAN_PATH + " has no ## Verification section");
      return;
    }
    var runnable := AnyRunnable(parsed.steps);
    if !runnable {
      if parsed.truncated {
        v := IncompleteRecord(red, CAP_GAP);
        return;
      }
      if parsed.fence != "" {
        v := IncompleteRecord(red, "the ## Verification section of " + PLAN_PATH
          + " names no command outside a fenced " + parsed.fence
          + " block, which the harness does not read - nothing was measured");
        return;
      }
      if |parsed.steps| == 0 {
        v := NotRunRecord("the ## Verification section of " + PLAN_PATH + " is empty");
        return;
      }
      v := NotRunRecord("the ## Verification section of " + PLAN_PATH + " names no command to run");
      return;
    }
    var target, mismatch := VerifyTarget(w);
    if mismatch != "" {
      v := IncompleteRecord(red, mismatch);
      return;
    }
    if w.uncommitted.Err? {
      v := IncompleteRecord(red, "inspect the working tree: " + w.uncommitted.error);
      return;
    }
    var gap := WorktreeGap(w.uncommitted.value, target);
    var commands := RunCommands(red, parsed.steps, w.runs);
    RecordsMirrorRuns(rd, w, commands);
    v := Settle(Record(Passed, "", target, commands), red, gap, if parsed.truncated then CAP_GAP else "");
  }

  lemma RecordsMirrorRuns(rd: Reader, w: World, commands: seq<StepRecord>)
    requires |commands| == |PlanOf(rd, w).steps|
    requires forall i | 0 <= i < |commands| :: Records(commands[i], PlanOf(rd, w).steps[i], w.runs(i))
    requires PlanOf(rd, w).Runnable()
    ensures SomeFailing(commands) <==> SomeCommandFailed(rd, w)
    ensures EveryCommandClean(rd, w) <==> !SomeFailing(commands) && !SomeAborted(commands)
    ensures EveryCommandClean(rd, w) ==> SomePassed(commands)
  {
    var steps := PlanOf(rd, w).steps;
    if SomeFailing(commands) {
      var i :| 0 <= i < |commands| && commands[i].status.Failing();
      assert Records(commands[i], steps[i], w.runs(i));
    }
    if SomeCommandFailed(rd, w) {
      var i: nat :| i < |steps| && steps[i].Runnable()
        && (w.runs(i).end.TimedOut? || w.runs(i).end.Exited? || w.runs(i).end.Unstartable?);
      assert Records(commands[i], steps[i], w.runs(i));
    }
    if !EveryCommandClean(rd, w) {
      var i: nat :| i < |steps| && steps[i].Runnable() && !w.runs(i).end.Clean?;
      assert Records(commands[i], steps[i], w.runs(i));
    } else {
      forall i | 0 <= i < |commands|
        ensures !commands[i].status.Failing() && commands[i].status != StepAborted
      {
        assert Records(commands[i], steps[i], w.runs(i));
      }
      var i :| 0 <= i < |steps| && steps[i].Runnable();
      assert Records(commands[i], steps[i], w.runs(i));
    }
  }

  // ----- What a pass does not cover -----

  /** A measured pass covers every item of the plan's last Verification section: each
      that is classified as a command, and is no part of a manual item, was run and
      exited 0. It covers the whole section exactly when the parser named no fence: any fenced
      block in it, save within a manual item, was left unread, and the pass was
      given beside it. */
  lemma PassCoversTheSectionExactlyWhen(rd: Reader, w: World)
    returns (before: seq<Entry>, heading: Entry, body: seq<Entry>, rest: seq<Entry>)
    requires Measured(rd, w)
    ensures SectionIn(rd, Prose(w.file.lines, ""), before, heading, body, rest)
    ensures forall i: nat | i < |body| && IsItem(rd, body[i]) && !IsNested(rd, body, i) ::
              Classified(rd, body[i]).Runnable() ==> w.runs(ItemCount(rd, body[..i])).end.Clean?
    ensures PlanOf(rd, w).fence == "" <==> forall i: nat :: !UnreadBlock(rd, body, i)
  {
    var entries := Prose(w.file.lines, "");
    var at := FoundIsThere(rd, entries);
    before, heading, body, rest := FindSection(rd, entries, at);
    OnlyTheLastSectionCounts(rd, before, heading, body, rest);
    EveryItemIsKeptOrTheCapIsReported(rd, entries, before, heading, body, rest);
    forall i: nat | i < |body| && IsItem(rd, body[i]) && !IsNested(rd, body, i) && Classified(rd, body[i]).Runnable()
      ensures w.runs(ItemCount(rd, body[..i])).end.Clean?
    {
      ItemsBefore(rd, body, i);
      assert Reads(rd, body, i);
    }
    forall i | 0 <= i < |body| && body[i].fence
      ensures TrimSpace(body[i].text) != ""
    {
      assert body[i] == entries[|before| + 1 + i];
      DroppedBlocksShow(w.file.lines, "", |before| + 1 + i);
    }
    FenceTellsOfUnreadBlocks(rd, body);
  }

  /** Such a pass there is, whatever the unread block holds. */
  lemma PassedBesideAnUnreadBlock(
    rd: Reader, heading: string, item: string, open: string, unread: seq<string>, close: string, lines: seq<string>)
    requires rd.heading(heading) > 0 && rd.verification(heading) && Marker(heading).None?
    requires rd.heading(item) == 0 && rd.item(item).Some? && Marker(item).None?
    requires rd.classify(rd.item(item).value.0, rd.item(item).value.1).Runnable()
    requires Marker(open).Some? && Indent(open) == 0
    requires StaysOpen(unread, Marker(open).value) && Closes(close, Marker(open).value)
    requires lines == [heading, item] + [open] + unread + [close] + []
    ensures exists w: World :: w.file == Content(lines) && Measured(rd, w) && PlanOf(rd, w).fence != ""
  {
    FencesShow(open);
    ProseOfTheBlock(heading, item, open, unread, close);
    PlanOfTheThree(rd, heading, item, open);
    PassesWith(rd, lines);
  }

  /** Whatever a plan lists, there is a world in which it all passes. */
  lemma PassesWith(rd: Reader, lines: seq<string>)
    requires var plan := Parsed(rd, Prose(lines, "")); plan.found && plan.Runnable() && !plan.truncated
    ensures exists w: World ::
              w.file == Content(lines) && Measured(rd, w) && PlanOf(rd, w) == Parsed(rd, Prose(lines, ""))
  {
    var w := World(Content(lines), true, "main", Ok("c"), Ok("c"), Ok([]), (i: nat) => StepRun(Clean, "", ""));
    assert Measured(rd, w);
  }

  lemma ProseOfTheBlock(heading: string, item: string, open: string, unread: seq<string>, close: string)
    requires Marker(heading).None? && Marker(item).None? && Marker(open).Some?
    requires StaysOpen(unread, Marker(open).value) && Closes(close, Marker(open).value)
    ensures Prose([heading, item] + [open] + unread + [close] + [], "")
         == [Entry(heading, false), Entry(item, false), Entry(open, true)]
  {
    PlainLines(heading, item);
    BlockContributesItsOpening([heading, item], open, unread, close, []);
  }

  lemma PlainLines(heading: string, item: string)
    requires Marker(heading).None? && Marker(item).None?
    ensures Prose([heading, item], "") == [Entry(heading, false), Entry(item, false)]
    ensures FenceAfter([heading, item], "") == ""
  {
    ProseGrows([], heading);
    ProseGrows([heading], item);
    assert [] + [heading] == [heading] && [heading] + [item] == [heading, item];
  }

  lemma PlanOfTheThree(rd: Reader, heading: string, item: string, open: string)
    requires rd.heading(heading) > 0 && rd.verification(heading)
    requires rd.heading(item) == 0 && rd.item(item).Some? && Indent(open) == 0
    ensures Parsed(rd, [Entry(heading, false), Entry(item, false), Entry(open, true)])
         == Plan([rd.classify(rd.item(item).value.0, rd.item(item).value.1)], true, false, TrimSpace(open))
    ensures rd.classify(rd.item(item).value.0, rd.item(item).value.1).Runnable() ==>
              Parsed(rd, [Entry(heading, false), Entry(item, false), Entry(open, true)]).Runnable()
  {
    var h, i, f := Entry(heading, false), Entry(item, false), Entry(open, true);
    assert [h, i, f][1..] == [i, f] && [i, f][1..] == [f] && [f][1..] == [];
    var s1 := ReadEntry(rd, START, h);
    var s2 := ReadEntry(rd, s1, i);
    var s3 := ReadEntry(rd, s2, f);
    assert ReadAll(rd, s3, []) == s3 && ReadAll(rd, s2, [f]) == s3 && ReadAll(rd, s1, [i, f]) == s3;
    assert s3.plan.steps[0] == rd.classify(rd.item(item).value.0, rd.item(item).value.1);
  }
}
