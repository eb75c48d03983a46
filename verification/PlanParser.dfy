/**
 Reading the plan's Verification section
 (harness/cmd/migration-harness/verify.go, parsePlanVerification): a parser
 that carries the open section, the open manual item and the step cap from
 line to line.
 */
module PlanParser {
  import opened Wrappers
  import opened Text
  import opened Fences

  /** One parsed line: a command to run, or the reason it is skipped. */
  datatype PlanStep = PlanStep(name: string, command: string, skip: string) {
    predicate Runnable() { command != "" }
  }

  /** The line readers: heading gives a heading's level (0 for none), item the
      label and value of a list item. Any functions will do. */
  datatype Reader = Reader(
    heading: string -> nat,
    verification: string -> bool,
    item: string -> Option<(string, string)>,
    classify: (string, string) -> PlanStep,
    manual: string -> bool,
    nested: string -> string)

  datatype Plan = Plan(steps: seq<PlanStep>, found: bool, truncated: bool, fence: string) {
    predicate Runnable() { exists i :: 0 <= i < |steps| && steps[i].Runnable() }
  }

  const NO_PLAN := Plan([], false, false, "")
  const OPENED := Plan([], true, false, "")

  const MAX_STEPS := 12

  /** The manual item whose nested lines are part of it. */
  datatype Manual = Manual(indent: int, name: string)

  const NO_MANUAL := Manual(-1, "")

  datatype State = State(plan: Plan, inSection: bool, manual: Manual)

  const START := State(NO_PLAN, false, NO_MANUAL)
  const IN_SECTION := State(OPENED, true, NO_MANUAL)

  /** Visual indentation; a tab counts as four columns. */
  function Indent(line: string): nat {
    if line == "" then 0
    else if line[0] == ' ' then 1 + Indent(line[1..])
    else if line[0] == '\t' then 4 + Indent(line[1..])
    else 0
  }

  /** A space counts one, a tab four, up to the first character that is neither. */
  lemma {:induction false} IndentCounts(space: string, rest: string)
    requires (forall i | 0 <= i < |space| :: space[i] == ' ' || space[i] == '\t') && (rest == "" || (rest[0] != ' ' && rest[0] != '\t'))
    ensures Indent(space + rest) == multiset(space)[' '] + 4 * multiset(space)['\t']
  {
    if space == "" {
      assert space + rest == rest;
    } else {
      assert (space + rest)[1..] == space[1..] + rest;
      assert space == [space[0]] + space[1..];
      IndentCounts(space[1..], rest);
    }
  }

  predicate UnderManual(line: string, manual: Manual) { manual.indent >= 0 && Indent(line) > manual.indent }

  function StepOf(rd: Reader, line: string, manual: Manual): PlanStep
    requires rd.item(line).Some?
  {
    var (name, value) := rd.item(line).value;
    var step := rd.classify(name, value);
    if UnderManual(line, manual) then PlanStep(step.name, "", rd.nested(manual.name)) else step
  }

  function ManualAfter(rd: Reader, line: string, manual: Manual): Manual
    requires rd.item(line).Some?
  {
    var (name, value) := rd.item(line).value;
    var step := rd.classify(name, value);
    if UnderManual(line, manual) then manual
    else if rd.manual(step.name) then Manual(Indent(line), step.name)
    else NO_MANUAL
  }

  function ReadFence(st: State, text: string): State {
    if st.inSection && st.plan.fence == "" && !UnderManual(text, st.manual)
    then st.(plan := st.plan.(fence := TrimSpace(text))) else st
  }

  function ReadHeading(rd: Reader, st: State, line: string): State {
    if rd.verification(line) then State(OPENED, true, NO_MANUAL)
    else if rd.heading(line) <= 2 then State(st.plan, false, NO_MANUAL)
    else st.(manual := NO_MANUAL)
  }

  function ReadItem(rd: Reader, st: State, line: string): State
    requires rd.item(line).Some?
  {
    if |st.plan.steps| >= MAX_STEPS then st.(plan := st.plan.(truncated := true))
    else State(st.plan.(steps := st.plan.steps + [StepOf(rd, line, st.manual)]), st.inSection,
               ManualAfter(rd, line, st.manual))
  }

  function ReadEntry(rd: Reader, st: State, entry: Entry): State {
    if entry.fence then ReadFence(st, entry.text)
    else if rd.heading(entry.text) > 0 then ReadHeading(rd, st, entry.text)
    else if st.inSection && rd.item(entry.text).Some? then ReadItem(rd, st, entry.text)
    else st
  }

  function ReadAll(rd: Reader, st: State, entries: seq<Entry>): State
    decreases |entries|
  {
    if entries == [] then st else ReadAll(rd, ReadEntry(rd, st, entries[0]), entries[1..])
  }

  function Parsed(rd: Reader, entries: seq<Entry>): Plan { ReadAll(rd, START, entries).plan }

  lemma {:induction false} ReadAllSplits(rd: Reader, st: State, a: seq<Entry>, b: seq<Entry>)
    ensures ReadAll(rd, st, a + b) == ReadAll(rd, ReadAll(rd, st, a), b)
    decreases |a|
  {
    if a == [] {
      assert a + b == b;
    } else {
      assert (a + b)[0] == a[0] && (a + b)[1..] == a[1..] + b;
      ReadAllSplits(rd, ReadEntry(rd, st, a[0]), a[1..], b);
    }
  }

  method ParsePlanVerification(rd: Reader, lines: seq<string>) returns (parsed: Plan)
    ensures parsed == Parsed(rd, Prose(lines, ""))
  {
    parsed := NO_PLAN;
    var inSection := false;
    var proseIndent: int, proseParent := -1, "";
    var entries := ProseLines(lines);
    for i := 0 to |entries|
      invariant State(parsed, inSection, Manual(proseIndent, proseParent)) == ReadAll(rd, START, entries[..i])
    {
      var entry := entries[i];
      assert entries[..i] + [entry] == entries[..i + 1];
      ReadAllSplits(rd, START, entries[..i], [entry]);
      assert ReadAll(rd, START, entries[..i + 1]) == ReadEntry(rd, ReadAll(rd, START, entries[..i]), entry);
      if entry.fence {
        if inSection && parsed.fence == "" && !(proseIndent >= 0 && Indent(entry.text) > proseIndent) {
          parsed := parsed.(fence := TrimSpace(entry.text));
        }
        continue;
      }
      var line := entry.text;
      if rd.heading(line) > 0 {
        proseIndent, proseParent := -1, "";
        if rd.verification(line) {
          inSection := true;
          parsed := OPENED;
        } else if rd.heading(line) <= 2 {
          inSection := false;
        }
        continue;
      }
      if !inSection {
        continue;
      }
      var m := rd.item(line);
      if m.None? {
        continue;
      }
      if |parsed.steps| >= MAX_STEPS {
        parsed := parsed.(truncated := true);
        continue;
      }
      var step := rd.classify(m.value.0, m.value.1);
      var indent := Indent(line);
      if proseIndent >= 0 && indent > proseIndent {
        step := PlanStep(step.name, "", rd.nested(proseParent));
      } else if rd.manual(step.name) {
        proseIndent, proseParent := indent, step.name;
      } else {
        proseIndent, proseParent := -1, "";
      }
      parsed := parsed.(steps := parsed.steps + [step]);
    }
    assert entries[..|entries|] == entries;
  }

  // ----- Which part of the document is read -----

  ghost predicate OpensSection(rd: Reader, entry: Entry) {
    !entry.fence && rd.heading(entry.text) > 0 && rd.verification(entry.text)
  }

  ghost predicate EndsSection(rd: Reader, entry: Entry) {
    !entry.fence && 0 < rd.heading(entry.text) <= 2 && !rd.verification(entry.text)
  }

  /** Inside the section: neither a Verification heading nor one that ends it. */
  ghost predicate IsBody(rd: Reader, entries: seq<Entry>) {
    forall i | 0 <= i < |entries| :: !OpensSection(rd, entries[i]) && !EndsSection(rd, entries[i])
  }

  lemma {:induction false} ClosedSectionStaysClosed(rd: Reader, st: State, rest: seq<Entry>)
    requires !st.inSection
    requires forall i | 0 <= i < |rest| :: !OpensSection(rd, rest[i])
    ensures ReadAll(rd, st, rest).plan == st.plan
    decreases |rest|
  {
    if rest == [] {
    } else {
      assert !OpensSection(rd, rest[0]);
      ClosedSectionStaysClosed(rd, ReadEntry(rd, st, rest[0]), rest[1..]);
    }
  }

  /** The plan is whatever the body of the last Verification section says:
      nothing before that heading, and nothing after the heading that ends the
      section, reaches it. */
  lemma OnlyTheLastSectionCounts(
    rd: Reader, before: seq<Entry>, heading: Entry, body: seq<Entry>, rest: seq<Entry>)
    requires OpensSection(rd, heading) && IsBody(rd, body)
    requires rest == [] || EndsSection(rd, rest[0])
    requires forall i | 0 <= i < |rest| :: !OpensSection(rd, rest[i])
    ensures Parsed(rd, before + [heading] + body + rest) == ReadAll(rd, IN_SECTION, body).plan
  {
    var start := IN_SECTION;
    assert before + [heading] + body + rest == before + ([heading] + (body + rest));
    ReadAllSplits(rd, START, before, [heading] + (body + rest));
    var reached := ReadAll(rd, START, before);
    ReadAllSplits(rd, reached, [heading], body + rest);
    assert ReadAll(rd, reached, [heading]) == start;
    ReadAllSplits(rd, start, body, rest);
    if rest != [] {
      var atEnd := ReadAll(rd, start, body);
      assert ReadAll(rd, atEnd, rest) == ReadAll(rd, ReadEntry(rd, atEnd, rest[0]), rest[1..]);
      ClosedSectionStaysClosed(rd, ReadEntry(rd, atEnd, rest[0]), rest[1..]);
    }
  }

  // ----- Nothing in that part is lost silently -----

  predicate IsItem(rd: Reader, e: Entry) { !e.fence && rd.heading(e.text) == 0 && rd.item(e.text).Some? }

  predicate IsHeading(rd: Reader, e: Entry) { !e.fence && rd.heading(e.text) > 0 }

  function Classified(rd: Reader, e: Entry): PlanStep
    requires IsItem(rd, e)
  {
    rd.classify(rd.item(e.text).value.0, rd.item(e.text).value.1)
  }

  function ItemCount(rd: Reader, body: seq<Entry>): nat {
    if body == [] then 0
    else ItemCount(rd, body[..|body| - 1]) + if IsItem(rd, body[|body| - 1]) then 1 else 0
  }

  /** Entry i is one of the twelve items that are read. */
  predicate Reads(rd: Reader, body: seq<Entry>, i: nat) {
    i < |body| && IsItem(rd, body[i]) && ItemCount(rd, body[..i]) < 12
  }

  /** Item j is a manual one, no heading comes between it and i, and every item that
      does is indented deeper than it. */
  predicate OpenAt(rd: Reader, body: seq<Entry>, j: nat, i: nat)
    requires i <= |body|
  {
    && j < i && Reads(rd, body, j) && rd.manual(Classified(rd, body[j]).name)
    && forall k | j < k < i ::
         !IsHeading(rd, body[k]) && (Reads(rd, body, k) ==> Indent(body[k].text) > Indent(body[j].text))
  }

  /** Entry i is part of a manual item: it is indented deeper than one that is open. */
  ghost predicate IsNested(rd: Reader, body: seq<Entry>, i: nat)
    requires i < |body|
  {
    exists j: nat :: OpenAt(rd, body, j, i) && Indent(body[i].text) > Indent(body[j].text)
  }

  /** The first manual item that is open before i. */
  ghost predicate FirstOpen(rd: Reader, body: seq<Entry>, j: nat, i: nat)
    requires i <= |body|
  {
    OpenAt(rd, body, j, i) && forall other: nat | other < j :: !OpenAt(rd, body, other, i)
  }

  /** What the section makes of item i: a step that the harness skips, on account of
      the first manual item open there, or what it was classified as. */
  ghost predicate StepIs(rd: Reader, body: seq<Entry>, i: nat, step: PlanStep)
    requires i < |body| && IsItem(rd, body[i])
  {
    if IsNested(rd, body, i) then
      exists j: nat ::
        FirstOpen(rd, body, j, i)
        && step == PlanStep(Classified(rd, body[i]).name, "", rd.nested(Classified(rd, body[j]).name))
    else step == Classified(rd, body[i])
  }

  lemma OpenInThePart(rd: Reader, body: seq<Entry>, more: seq<Entry>, j: nat, i: nat)
    requires i <= |body|
    ensures OpenAt(rd, body + more, j, i) <==> OpenAt(rd, body, j, i)
  {
    forall k: nat | k < |body|
      ensures (body + more)[k] == body[k] && (Reads(rd, body + more, k) <==> Reads(rd, body, k))
    {
      assert (body + more)[..k] == body[..k];
    }
  }

  /** The manual item the parser holds open is the first open one. */
  ghost predicate ManualIs(rd: Reader, body: seq<Entry>, m: Manual) {
    || (m == NO_MANUAL && forall j: nat :: !OpenAt(rd, body, j, |body|))
    || exists j: nat ::
         FirstOpen(rd, body, j, |body|) && m == Manual(Indent(body[j].text), Classified(rd, body[j]).name)
  }

  /** Which of the open items stay open after one more entry, and which opens. */
  lemma OneMoreOpen(rd: Reader, pre: seq<Entry>, e: Entry, j: nat)
    ensures OpenAt(rd, pre + [e], j, |pre| + 1) <==>
            || (OpenAt(rd, pre, j, |pre|) && !IsHeading(rd, e)
                && (IsItem(rd, e) && ItemCount(rd, pre) < 12 ==> Indent(e.text) > Indent(pre[j].text)))
            || (j == |pre| && IsItem(rd, e) && ItemCount(rd, pre) < 12 && rd.manual(Classified(rd, e).name))
  {
    var body := pre + [e];
    assert body[..|pre|] == pre && body[|pre|] == e;
    OpenInThePart(rd, pre, [e], j, |pre|);
    if j < |pre| {
      assert body[j] == pre[j];
      assert OpenAt(rd, body, j, |pre| + 1) <==>
          OpenAt(rd, body, j, |pre|) && !IsHeading(rd, e) && (Reads(rd, body, |pre|) ==> Indent(e.text) > Indent(pre[j].text));
    }
  }

  lemma FirstIsShallowest(rd: Reader, body: seq<Entry>, first: nat, j: nat, i: nat)
    requires i <= |body| && FirstOpen(rd, body, first, i) && OpenAt(rd, body, j, i)
    ensures first == j || Indent(body[j].text) > Indent(body[first].text)
  {
  }

  lemma NestedUnderTheManual(rd: Reader, pre: seq<Entry>, e: Entry, m: Manual)
    requires ManualIs(rd, pre, m)
    ensures UnderManual(e.text, m) <==> IsNested(rd, pre + [e], |pre|)
  {
    var body := pre + [e];
    forall j: nat
      ensures OpenAt(rd, body, j, |pre|) <==> OpenAt(rd, pre, j, |pre|)
    {
      OpenInThePart(rd, pre, [e], j, |pre|);
    }
    if m != NO_MANUAL || exists j: nat :: OpenAt(rd, pre, j, |pre|) {
      var first: nat :| FirstOpen(rd, pre, first, |pre|) && m == Manual(Indent(pre[first].text), Classified(rd, pre[first]).name);
      if j: nat :| OpenAt(rd, body, j, |pre|) && Indent(e.text) > Indent(body[j].text) {
        FirstIsShallowest(rd, pre, first, j, |pre|);
      }
      assert body[first] == pre[first];
      assert UnderManual(e.text, m) ==> OpenAt(rd, body, first, |pre|) && Indent(e.text) > Indent(body[first].text);
    }
  }

  /** Where the open items stay as they are, so does the first. */
  lemma SameOpen(rd: Reader, pre: seq<Entry>, body: seq<Entry>, m: Manual)
    requires ManualIs(rd, pre, m) && pre <= body
    requires forall j: nat :: OpenAt(rd, body, j, |body|) <==> OpenAt(rd, pre, j, |pre|)
    ensures ManualIs(rd, body, m)
  {
    if exists j: nat :: OpenAt(rd, pre, j, |pre|) {
      var j: nat :| FirstOpen(rd, pre, j, |pre|) && m == Manual(Indent(pre[j].text), Classified(rd, pre[j]).name);
      assert body[j] == pre[j];
      assert FirstOpen(rd, body, j, |body|);
    }
  }

  lemma ManualStaysRight(rd: Reader, pre: seq<Entry>, e: Entry, st: State)
    requires ManualIs(rd, pre, st.manual) && st.inSection
    requires |st.plan.steps| < MAX_STEPS <==> ItemCount(rd, pre) < 12
    requires !OpensSection(rd, e) && !EndsSection(rd, e)
    ensures ManualIs(rd, pre + [e], ReadEntry(rd, st, e).manual)
  {
    var body := pre + [e];
    if IsItem(rd, e) && ItemCount(rd, pre) < 12 {
      ManualAfterAnItem(rd, pre, e, st.manual);
    } else {
      forall j: nat
        ensures OpenAt(rd, body, j, |body|) <==> !IsHeading(rd, e) && OpenAt(rd, pre, j, |pre|)
      {
        OneMoreOpen(rd, pre, e, j);
      }
      if !IsHeading(rd, e) {
        SameOpen(rd, pre, body, st.manual);
      }
    }
  }

  lemma ManualAfterAnItem(rd: Reader, pre: seq<Entry>, e: Entry, m: Manual)
    requires ManualIs(rd, pre, m) && IsItem(rd, e) && ItemCount(rd, pre) < 12
    ensures ManualIs(rd, pre + [e], ManualAfter(rd, e.text, m))
  {
    var body := pre + [e];
    forall j: nat
      ensures OpenAt(rd, body, j, |body|) <==>
              || (OpenAt(rd, pre, j, |pre|) && Indent(e.text) > Indent(pre[j].text))
              || (j == |pre| && rd.manual(Classified(rd, e).name))
    {
      OneMoreOpen(rd, pre, e, j);
    }
    if first: nat :| FirstOpen(rd, pre, first, |pre|) && m == Manual(Indent(pre[first].text), Classified(rd, pre[first]).name) {
      forall j: nat | OpenAt(rd, pre, j, |pre|)
        ensures Indent(pre[j].text) >= Indent(pre[first].text)
      {
        FirstIsShallowest(rd, pre, first, j, |pre|);
      }
      assert body[first] == pre[first];
      if UnderManual(e.text, m) {
        assert FirstOpen(rd, body, first, |body|);
      }
    }
    assert body[|pre|] == e;
    if !UnderManual(e.text, m) && rd.manual(Classified(rd, e).name) {
      assert FirstOpen(rd, body, |pre|, |body|);
    }
  }

  /** What the parser has made of the entries of a section so far. */
  ghost predicate HasRead(rd: Reader, body: seq<Entry>, st: State) {
    && st.inSection && st.plan.found && ManualIs(rd, body, st.manual)
    && |st.plan.steps| == (if ItemCount(rd, body) < 12 then ItemCount(rd, body) else 12)
    && (st.plan.truncated <==> ItemCount(rd, body) > 12)
    && (forall i: nat | Reads(rd, body, i) ::
          var at := ItemCount(rd, body[..i]);
          at < |st.plan.steps| && StepIs(rd, body, i, st.plan.steps[at]))
  }

  lemma StepInThePart(rd: Reader, body: seq<Entry>, more: seq<Entry>, i: nat, step: PlanStep)
    requires i < |body| && IsItem(rd, body[i])
    ensures StepIs(rd, body + more, i, step) <==> StepIs(rd, body, i, step)
  {
    NestedInThePart(rd, body, more, i);
    forall j: nat
      ensures OpenAt(rd, body + more, j, i) <==> OpenAt(rd, body, j, i)
      ensures j < |body| ==> (body + more)[j] == body[j]
    {
      OpenInThePart(rd, body, more, j, i);
    }
    assert forall j: nat :: FirstOpen(rd, body + more, j, i) <==> FirstOpen(rd, body, j, i);
  }

  lemma OneMoreRead(rd: Reader, pre: seq<Entry>, e: Entry, st: State)
    requires HasRead(rd, pre, st) && !OpensSection(rd, e) && !EndsSection(rd, e)
    ensures HasRead(rd, pre + [e], ReadEntry(rd, st, e))
  {
    var body, later := pre + [e], ReadEntry(rd, st, e);
    assert body[..|pre|] == pre && body[|pre|] == e;
    ManualStaysRight(rd, pre, e, st);
    if IsItem(rd, e) && ItemCount(rd, pre) < 12 {
      NewStepIs(rd, pre, e, st.manual);
      assert later.plan.steps == st.plan.steps + [StepOf(rd, e.text, st.manual)];
    }
    forall i: nat | Reads(rd, body, i)
      ensures var at := ItemCount(rd, body[..i]);
              at < |later.plan.steps| && StepIs(rd, body, i, later.plan.steps[at])
    {
      if i < |pre| {
        assert body[..i] == pre[..i] && Reads(rd, pre, i);
        StepInThePart(rd, pre, [e], i, st.plan.steps[ItemCount(rd, pre[..i])]);
      }
    }
  }

  lemma NewStepIs(rd: Reader, pre: seq<Entry>, e: Entry, m: Manual)
    requires ManualIs(rd, pre, m) && IsItem(rd, e)
    ensures (pre + [e])[|pre|] == e && StepIs(rd, pre + [e], |pre|, StepOf(rd, e.text, m))
  {
    var body := pre + [e];
    NestedUnderTheManual(rd, pre, e, m);
    if UnderManual(e.text, m) {
      var first: nat :| FirstOpen(rd, pre, first, |pre|) && m == Manual(Indent(pre[first].text), Classified(rd, pre[first]).name);
      forall j: nat
        ensures OpenAt(rd, body, j, |pre|) <==> OpenAt(rd, pre, j, |pre|)
      {
        OpenInThePart(rd, pre, [e], j, |pre|);
      }
      assert FirstOpen(rd, body, first, |pre|) && body[first] == pre[first];
    }
  }

  lemma {:induction false} BodyIsRead(rd: Reader, body: seq<Entry>)
    requires IsBody(rd, body)
    ensures HasRead(rd, body, ReadAll(rd, IN_SECTION, body))
    decreases |body|
  {
    if body != [] {
      var k := |body| - 1;
      assert body == body[..k] + [body[k]] && IsBody(rd, body[..k]);
      BodyIsRead(rd, body[..k]);
      ReadAllSplits(rd, IN_SECTION, body[..k], [body[k]]);
      var before := ReadAll(rd, IN_SECTION, body[..k]);
      assert ReadAll(rd, before, [body[k]]) == ReadEntry(rd, before, body[k]);
      assert !OpensSection(rd, body[k]) && !EndsSection(rd, body[k]);
      OneMoreRead(rd, body[..k], body[k], before);
    }
  }

  /** The plan of a document with a section: a step for each of the section's first
      twelve items, in order; truncated exactly when there are more; each item skipped
      as part of a manual one exactly when it is indented deeper than a manual item
      before it that no heading and no item as shallow has closed, and otherwise just
      what it was classified as. */
  lemma EveryItemIsKeptOrTheCapIsReported(
    rd: Reader, entries: seq<Entry>, before: seq<Entry>, heading: Entry, body: seq<Entry>, rest: seq<Entry>)
    requires SectionIn(rd, entries, before, heading, body, rest)
    ensures var plan := Parsed(rd, entries);
            && plan.found
            && |plan.steps| == (if ItemCount(rd, body) < 12 then ItemCount(rd, body) else 12)
            && (plan.truncated <==> ItemCount(rd, body) > 12)
            && forall i: nat | Reads(rd, body, i) ::
                 var at := ItemCount(rd, body[..i]);
                 at < |plan.steps| && StepIs(rd, body, i, plan.steps[at])
  {
    OnlyTheLastSectionCounts(rd, before, heading, body, rest);
    BodyIsRead(rd, body);
  }

  /** Each count below the number of items is that of one of them. */
  lemma {:induction false} ItemAt(rd: Reader, body: seq<Entry>, at: nat) returns (i: nat)
    requires at < ItemCount(rd, body)
    ensures i < |body| && IsItem(rd, body[i]) && ItemCount(rd, body[..i]) == at
  {
    var k := |body| - 1;
    if at < ItemCount(rd, body[..k]) {
      i := ItemAt(rd, body[..k], at);
      assert body[..k][..i] == body[..i];
    } else {
      i := k;
    }
  }

  lemma {:induction false} ItemsBefore(rd: Reader, body: seq<Entry>, i: nat)
    requires i < |body| && IsItem(rd, body[i])
    ensures ItemCount(rd, body[..i]) < ItemCount(rd, body)
  {
    var k := |body| - 1;
    if i < k {
      ItemsBefore(rd, body[..k], i);
      assert body[..k][..i] == body[..i];
    }
  }

  /** A command reaches the shell only as the classifier gave it, from an item of the
      section that is part of no manual one. */
  lemma CommandsAreClassifiedItems(
    rd: Reader, entries: seq<Entry>, before: seq<Entry>, heading: Entry, body: seq<Entry>, rest: seq<Entry>, at: nat)
    requires SectionIn(rd, entries, before, heading, body, rest)
    requires at < |Parsed(rd, entries).steps| && Parsed(rd, entries).steps[at].Runnable()
    ensures exists i: nat ::
              && Reads(rd, body, i) && ItemCount(rd, body[..i]) == at && !IsNested(rd, body, i)
              && Parsed(rd, entries).steps[at] == Classified(rd, body[i])
  {
    EveryItemIsKeptOrTheCapIsReported(rd, entries, before, heading, body, rest);
    var i := ItemAt(rd, body, at);
    assert Reads(rd, body, i);
  }

  /** Replacing the inside of a fenced block changes nothing in the plan. */
  lemma FencedBlocksAreNotRead(
    rd: Reader, pre: seq<string>, open: string, inside: seq<string>, other: seq<string>, close: string, post: seq<string>)
    requires FenceAfter(pre, "") == "" && Marker(open).Some? && Closes(close, Marker(open).value)
    requires StaysOpen(inside, Marker(open).value) && StaysOpen(other, Marker(open).value)
    ensures Parsed(rd, Prose(pre + [open] + inside + [close] + post, ""))
         == Parsed(rd, Prose(pre + [open] + other + [close] + post, ""))
  {
    BlockContributesItsOpening(pre, open, inside, close, post);
    BlockContributesItsOpening(pre, open, other, close, post);
  }

  // ----- What in that part is not read -----

  /** A fenced block of the section that is no part of a manual item. */
  ghost predicate UnreadBlock(rd: Reader, body: seq<Entry>, i: nat) {
    i < |body| && body[i].fence && !IsNested(rd, body, i)
  }

  /** The plan names a fence exactly when the section holds a block it did not read. */
  lemma {:induction false} FenceTellsOfUnreadBlocks(rd: Reader, body: seq<Entry>)
    requires IsBody(rd, body)
    requires forall i | 0 <= i < |body| && body[i].fence :: TrimSpace(body[i].text) != ""
    ensures ReadAll(rd, IN_SECTION, body).plan.fence != "" <==> exists i: nat :: UnreadBlock(rd, body, i)
    decreases |body|
  {
    if body != [] {
      var k := |body| - 1;
      var pre, last := body[..k], body[k];
      assert body == pre + [last] && IsBody(rd, pre);
      FenceTellsOfUnreadBlocks(rd, pre);
      BodyIsRead(rd, pre);
      ReadAllSplits(rd, IN_SECTION, pre, [last]);
      var before := ReadAll(rd, IN_SECTION, pre);
      assert ReadAll(rd, before, [last]) == ReadEntry(rd, before, last);
      assert !OpensSection(rd, last) && !EndsSection(rd, last);
      UnreadOneMore(rd, pre, last, before.manual);
      FenceOneMore(rd, before, last);
    }
  }

  lemma FenceOneMore(rd: Reader, st: State, last: Entry)
    requires st.inSection && !OpensSection(rd, last) && !EndsSection(rd, last)
    requires last.fence ==> TrimSpace(last.text) != ""
    ensures ReadEntry(rd, st, last).plan.fence != "" <==>
            st.plan.fence != "" || (last.fence && !UnderManual(last.text, st.manual))
  {
  }

  lemma UnreadOneMore(rd: Reader, pre: seq<Entry>, last: Entry, m: Manual)
    requires ManualIs(rd, pre, m)
    ensures (exists i: nat :: UnreadBlock(rd, pre + [last], i)) <==>
            (exists i: nat :: UnreadBlock(rd, pre, i)) || (last.fence && !UnderManual(last.text, m))
  {
    var body := pre + [last];
    NestedUnderTheManual(rd, pre, last, m);
    forall i: nat | i < |pre|
      ensures UnreadBlock(rd, body, i) <==> UnreadBlock(rd, pre, i)
    {
      NestedInThePart(rd, pre, [last], i);
    }
    assert UnreadBlock(rd, body, |pre|) <==> last.fence && !UnderManual(last.text, m);
    if i: nat :| UnreadBlock(rd, pre, i) {
      assert UnreadBlock(rd, body, i);
    }
  }

  lemma NestedInThePart(rd: Reader, body: seq<Entry>, more: seq<Entry>, i: nat)
    requires i < |body|
    ensures IsNested(rd, body + more, i) <==> IsNested(rd, body, i)
  {
    forall j: nat
      ensures OpenAt(rd, body + more, j, i) <==> OpenAt(rd, body, j, i)
      ensures j < |body| ==> (body + more)[j] == body[j]
    {
      OpenInThePart(rd, body, more, j, i);
    }
    if j: nat :| OpenAt(rd, body, j, i) && Indent(body[i].text) > Indent(body[j].text) {
      assert OpenAt(rd, body + more, j, i);
    }
    if j: nat :| OpenAt(rd, body + more, j, i) && Indent((body + more)[i].text) > Indent((body + more)[j].text) {
      assert OpenAt(rd, body, j, i);
    }
  }

  /** The parts of a document that has a Verification section. */
  ghost predicate SectionIn(rd: Reader, entries: seq<Entry>, before: seq<Entry>, heading: Entry, body: seq<Entry>, rest: seq<Entry>) {
    && entries == before + [heading] + body + rest
    && OpensSection(rd, heading) && IsBody(rd, body)
    && (rest == [] || EndsSection(rd, rest[0]))
    && (forall i | 0 <= i < |rest| :: !OpensSection(rd, rest[i]))
  }

  lemma {:induction false} FindSection(rd: Reader, entries: seq<Entry>, at: nat)
    returns (before: seq<Entry>, heading: Entry, body: seq<Entry>, rest: seq<Entry>)
    requires at < |entries| && OpensSection(rd, entries[at])
    ensures SectionIn(rd, entries, before, heading, body, rest)
    decreases |entries|
  {
    var tail := entries[1..];
    if i: nat :| i < |tail| && OpensSection(rd, tail[i]) {
      before, heading, body, rest := FindSection(rd, tail, i);
      assert [entries[0]] + before + [heading] + body + rest == [entries[0]] + (before + [heading] + body + rest);
      before := [entries[0]] + before;
    } else {
      heading, before := entries[0], [];
      body, rest := FindEnd(rd, tail);
      assert before + [heading] + body + rest == [heading] + (body + rest);
    }
  }

  lemma {:induction false} FindEnd(rd: Reader, entries: seq<Entry>) returns (body: seq<Entry>, rest: seq<Entry>)
    requires forall i | 0 <= i < |entries| :: !OpensSection(rd, entries[i])
    ensures entries == body + rest && IsBody(rd, body) && (rest == [] || EndsSection(rd, rest[0]))
    ensures forall i | 0 <= i < |rest| :: !OpensSection(rd, rest[i])
    decreases |entries|
  {
    if entries == [] || EndsSection(rd, entries[0]) {
      body, rest := [], entries;
    } else {
      body, rest := FindEnd(rd, entries[1..]);
      body := [entries[0]] + body;
    }
  }

  /** A plan is found only where there is a section. */
  lemma FoundIsThere(rd: Reader, entries: seq<Entry>) returns (at: nat)
    requires Parsed(rd, entries).found
    ensures at < |entries| && OpensSection(rd, entries[at])
  {
    if i: nat :| i < |entries| && OpensSection(rd, entries[i]) {
      at := i;
    } else {
      ClosedSectionStaysClosed(rd, START, entries);
      assert false;
    }
  }
}
