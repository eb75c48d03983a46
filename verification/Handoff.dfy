/**
 The verdict a stage records in its handoff file
 (harness/cmd/migration-harness/handoff.go): the first Status line of the last
 section, with a reason taken from that line, a failed table row or a reason
 line, in that order of preference.
 */
module Handoff {
  import opened Wrappers
  import opened Fences

  /** The line readers the parser is built on; any functions will do. */
  datatype Reader = Reader(
    status: string -> Option<string>,
    split: string -> (string, string),
    failedRow: string -> string,
    reason: string -> Option<string>,
    clip: string -> string)

  datatype Verdict = Verdict(status: string, detail: string)

  function SkipBlanks(s: string): string {
    if s != "" && (s[0] == ' ' || s[0] == '\t') then SkipBlanks(s[1..]) else s
  }

  predicate SectionHeading(line: string) { "## " <= SkipBlanks(line) }

  /** The lines after the last section heading, or all of them. */
  function LastSection(lines: seq<string>): seq<string> {
    if lines == [] || SectionHeading(lines[|lines| - 1]) then []
    else LastSection(lines[..|lines| - 1]) + [lines[|lines| - 1]]
  }

  lemma {:induction false} LastSectionIsTheHeadinglessEnd(lines: seq<string>)
    ensures var section := LastSection(lines);
            var start := |lines| - |section|;
            && 0 <= start && section == lines[start..]
            && (forall i | start <= i < |lines| :: !SectionHeading(lines[i]))
            && (start > 0 ==> SectionHeading(lines[start - 1]))
  {
    if lines == [] || SectionHeading(lines[|lines| - 1]) {
    } else {
      LastSectionIsTheHeadinglessEnd(lines[..|lines| - 1]);
    }
  }

  method FindLastSection(lines: seq<string>) returns (section: seq<string>)
    ensures section == LastSection(lines)
  {
    var start := 0;
    for i := 0 to |lines|
      invariant 0 <= start <= i && LastSection(lines[..i]) == lines[start..i]
    {
      assert lines[..i + 1][..i] == lines[..i];
      if SectionHeading(lines[i]) {
        start := i + 1;
      }
    }
    assert lines[..|lines|] == lines;
    section := lines[start..];
  }

  function FirstStatus(rd: Reader, lines: seq<string>): (k: nat)
    ensures k <= |lines|
    ensures forall i | 0 <= i < k :: rd.status(lines[i]).None?
    ensures k < |lines| ==> rd.status(lines[k]).Some?
  {
    if lines == [] || rd.status(lines[0]).Some? then 0 else 1 + FirstStatus(rd, lines[1..])
  }

  /** Every line but the one the status was read from. */
  function Others(rd: Reader, lines: seq<string>): seq<string> {
    var k := FirstStatus(rd, lines);
    if k == |lines| then lines else lines[..k] + lines[k + 1..]
  }

  function FirstRow(rd: Reader, lines: seq<string>): string {
    if lines == [] then ""
    else if rd.failedRow(lines[0]) != "" then rd.failedRow(lines[0])
    else FirstRow(rd, lines[1..])
  }

  function FirstReason(rd: Reader, lines: seq<string>): string {
    if lines == [] then ""
    else
      var m := rd.reason(lines[0]);
      if m.Some? && m.value != "" then m.value else FirstReason(rd, lines[1..])
  }

  function SectionVerdict(rd: Reader, section: seq<string>): Option<Verdict> {
    var k := FirstStatus(rd, section);
    if k == |section| then None
    else
      var (status, rest) := rd.split(rd.status(section[k]).value);
      var row, reason := FirstRow(rd, Others(rd, section)), FirstReason(rd, Others(rd, section));
      Some(Verdict(status, rd.clip(if rest != "" then rest else if row != "" then row else reason)))
  }

  lemma {:induction false} FirstStatusGrows(rd: Reader, lines: seq<string>, line: string)
    ensures FirstStatus(rd, lines + [line]) ==
            if FirstStatus(rd, lines) < |lines| || rd.status(line).Some? then FirstStatus(rd, lines) else |lines| + 1
  {
    if lines == [] {
      assert (lines + [line])[1..] == [];
    } else {
      assert (lines + [line])[1..] == lines[1..] + [line];
      FirstStatusGrows(rd, lines[1..], line);
    }
  }

  lemma OthersGrow(rd: Reader, lines: seq<string>, line: string)
    ensures Others(rd, lines + [line]) ==
            if FirstStatus(rd, lines) == |lines| && rd.status(line).Some? then Others(rd, lines)
            else Others(rd, lines) + [line]
  {
    FirstStatusGrows(rd, lines, line);
    var k := FirstStatus(rd, lines);
    if k < |lines| {
      DroppedThenMore(lines, k, line);
    } else if rd.status(line).Some? {
      assert (lines + [line])[..k] == lines && (lines + [line])[k + 1..] == [];
    }
  }

  lemma DroppedThenMore(lines: seq<string>, k: nat, line: string)
    requires k < |lines|
    ensures (lines + [line])[..k] + (lines + [line])[k + 1..] == lines[..k] + lines[k + 1..] + [line]
  {
    assert (lines + [line])[k + 1..] == lines[k + 1..] + [line];
    assert (lines + [line])[..k] == lines[..k];
  }

  lemma {:induction false} FirstRowGrows(rd: Reader, lines: seq<string>, line: string)
    ensures FirstRow(rd, lines + [line]) == if FirstRow(rd, lines) != "" then FirstRow(rd, lines) else rd.failedRow(line)
  {
    if lines == [] {
      assert (lines + [line])[1..] == [];
    } else {
      assert (lines + [line])[1..] == lines[1..] + [line];
      FirstRowGrows(rd, lines[1..], line);
    }
  }

  lemma {:induction false} FirstReasonGrows(rd: Reader, lines: seq<string>, line: string)
    ensures FirstReason(rd, lines + [line]) ==
            if FirstReason(rd, lines) != "" then FirstReason(rd, lines)
            else if rd.reason(line).Some? then rd.reason(line).value else ""
  {
    if lines == [] {
      assert (lines + [line])[1..] == [];
    } else {
      assert (lines + [line])[1..] == lines[1..] + [line];
      FirstReasonGrows(rd, lines[1..], line);
    }
  }

  method ParseSection(rd: Reader, section: seq<string>) returns (verdict: Option<Verdict>)
    ensures verdict == SectionVerdict(rd, section)
  {
    var status, detail, ok := "", "", false;
    var tableDetail, lineDetail := "", "";
    for i := 0 to |section|
      invariant ok == (FirstStatus(rd, section[..i]) < i)
      invariant ok ==> (status, detail) == rd.split(rd.status(section[FirstStatus(rd, section[..i])]).value)
      invariant tableDetail == FirstRow(rd, Others(rd, section[..i]))
      invariant lineDetail == FirstReason(rd, Others(rd, section[..i]))
    {
      var line := section[i];
      ghost var others := Others(rd, section[..i]);
      assert section[..i] + [line] == section[..i + 1];
      FirstStatusGrows(rd, section[..i], line);
      OthersGrow(rd, section[..i], line);
      FirstRowGrows(rd, others, line);
      FirstReasonGrows(rd, others, line);
      if !ok && rd.status(line).Some? {
        var parts := rd.split(rd.status(line).value);
        status, detail, ok := parts.0, parts.1, true;
        continue;
      }
      if tableDetail == "" {
        tableDetail := rd.failedRow(line);
      }
      if lineDetail == "" {
        var m := rd.reason(line);
        if m.Some? {
          lineDetail := m.value;
        }
      }
    }
    assert section[..|section|] == section;
    if !ok {
      return None;
    }
    if detail == "" {
      detail := tableDetail;
    }
    if detail == "" {
      detail := lineDetail;
    }
    return Some(Verdict(status, rd.clip(detail)));
  }

  /** A line that bears a detail: not the one the status was read from. */
  predicate BearsRow(rd: Reader, section: seq<string>, k: nat, i: nat) {
    i < |section| && i != k && rd.failedRow(section[i]) != ""
  }

  predicate BearsReason(rd: Reader, section: seq<string>, k: nat, i: nat) {
    i < |section| && i != k && rd.reason(section[i]).Some? && rd.reason(section[i]).value != ""
  }

  /** Where the detail comes from: what follows the status on its own line; failing
      that, the first failed row of the section, before the status or after it; failing
      that, the first reason; failing that, nothing. */
  ghost predicate DetailIs(rd: Reader, section: seq<string>, k: nat, rest: string, detail: string) {
    if rest != "" then detail == rest
    else if exists i: nat :: BearsRow(rd, section, k, i) then
      exists i: nat ::
        && BearsRow(rd, section, k, i) && detail == rd.failedRow(section[i])
        && forall j: nat | j < i :: !BearsRow(rd, section, k, j)
    else if exists i: nat :: BearsReason(rd, section, k, i) then
      exists i: nat ::
        && BearsReason(rd, section, k, i) && detail == rd.reason(section[i]).value
        && forall j: nat | j < i :: !BearsReason(rd, section, k, j)
    else detail == ""
  }

  /** There is a verdict exactly when some line is a status line, and it is the first
      one's, with a detail from where it is to come from. */
  lemma VerdictIsTheFirstStatus(rd: Reader, section: seq<string>)
    ensures SectionVerdict(rd, section).None? <==> forall i | 0 <= i < |section| :: rd.status(section[i]).None?
    ensures SectionVerdict(rd, section).Some? ==>
              exists k: nat, detail: string ::
                && k < |section| && rd.status(section[k]).Some?
                && (forall j | 0 <= j < k :: rd.status(section[j]).None?)
                && var parts := rd.split(rd.status(section[k]).value);
                   && DetailIs(rd, section, k, parts.1, detail)
                   && SectionVerdict(rd, section) == Some(Verdict(parts.0, rd.clip(detail)))
  {
    var k := FirstStatus(rd, section);
    if k < |section| {
      var parts := rd.split(rd.status(section[k]).value);
      var row, reason := FirstRow(rd, Others(rd, section)), FirstReason(rd, Others(rd, section));
      var detail := if parts.1 != "" then parts.1 else if row != "" then row else reason;
      RowIsTheFirst(rd, section, k);
      ReasonIsTheFirst(rd, section, k);
      assert DetailIs(rd, section, k, parts.1, detail);
    }
  }

  /** Line i of the others is line i of the section, or the one after it. */
  lemma OthersAt(section: seq<string>, k: nat, i: nat)
    requires k < |section| && i < |section| - 1
    ensures (section[..k] + section[k + 1..])[i] == section[if i < k then i else i + 1]
  {
  }

  lemma {:induction false} FirstRowAt(rd: Reader, lines: seq<string>) returns (i: nat)
    ensures FirstRow(rd, lines) == "" <==> forall j | 0 <= j < |lines| :: rd.failedRow(lines[j]) == ""
    ensures FirstRow(rd, lines) != "" ==>
              && i < |lines| && FirstRow(rd, lines) == rd.failedRow(lines[i])
              && forall j | 0 <= j < i :: rd.failedRow(lines[j]) == ""
  {
    i := 0;
    if lines != [] && rd.failedRow(lines[0]) == "" {
      var rest := FirstRowAt(rd, lines[1..]);
      assert forall j | 0 < j < |lines| :: lines[j] == lines[1..][j - 1];
      i := rest + 1;
    }
  }

  lemma {:induction false} FirstReasonAt(rd: Reader, lines: seq<string>) returns (i: nat)
    ensures FirstReason(rd, lines) == "" <==>
            forall j | 0 <= j < |lines| :: rd.reason(lines[j]).None? || rd.reason(lines[j]).value == ""
    ensures FirstReason(rd, lines) != "" ==>
              && i < |lines| && rd.reason(lines[i]) == Some(FirstReason(rd, lines))
              && forall j | 0 <= j < i :: rd.reason(lines[j]).None? || rd.reason(lines[j]).value == ""
  {
    i := 0;
    if lines != [] && (rd.reason(lines[0]).None? || rd.reason(lines[0]).value == "") {
      var rest := FirstReasonAt(rd, lines[1..]);
      assert forall j | 0 < j < |lines| :: lines[j] == lines[1..][j - 1];
      i := rest + 1;
    }
  }

  lemma RowIsTheFirst(rd: Reader, section: seq<string>, k: nat)
    requires k == FirstStatus(rd, section) < |section|
    ensures var row := FirstRow(rd, Others(rd, section));
            if row == "" then forall i: nat :: !BearsRow(rd, section, k, i)
            else exists i: nat ::
                   && BearsRow(rd, section, k, i) && row == rd.failedRow(section[i])
                   && forall j: nat | j < i :: !BearsRow(rd, section, k, j)
  {
    var others := Others(rd, section);
    forall i: nat | i < |others|
      ensures others[i] == section[if i < k then i else i + 1]
    {
      OthersAt(section, k, i);
    }
    var at := FirstRowAt(rd, others);
    forall i: nat | BearsRow(rd, section, k, i)
      ensures others[if i < k then i else i - 1] == section[i]
    {
    }
    if FirstRow(rd, others) != "" {
      assert BearsRow(rd, section, k, if at < k then at else at + 1);
    }
  }

  lemma ReasonIsTheFirst(rd: Reader, section: seq<string>, k: nat)
    requires k == FirstStatus(rd, section) < |section|
    ensures var reason := FirstReason(rd, Others(rd, section));
            if reason == "" then forall i: nat :: !BearsReason(rd, section, k, i)
            else exists i: nat ::
                   && BearsReason(rd, section, k, i) && reason == rd.reason(section[i]).value
                   && forall j: nat | j < i :: !BearsReason(rd, section, k, j)
  {
    var others := Others(rd, section);
    forall i: nat | i < |others|
      ensures others[i] == section[if i < k then i else i + 1]
    {
      OthersAt(section, k, i);
    }
    var at := FirstReasonAt(rd, others);
    forall i: nat | BearsReason(rd, section, k, i)
      ensures others[if i < k then i else i - 1] == section[i]
    {
    }
    if FirstReason(rd, others) != "" {
      assert BearsReason(rd, section, k, if at < k then at else at + 1);
    }
  }

  /** The verdict of a whole document, line by line. */
  function DocumentVerdict(rd: Reader, lines: seq<string>): Option<Verdict> {
    SectionVerdict(rd, LastSection(ProseOnly(Prose(lines, ""))))
  }

  method ParseHandoffVerdict(rd: Reader, lines: seq<string>) returns (verdict: Option<Verdict>)
    ensures verdict == DocumentVerdict(rd, lines)
  {
    var entries := ProseLines(lines);
    var section := FindLastSection(ProseOnly(entries));
    verdict := ParseSection(rd, section);
  }

  lemma {:induction false} ProseOnlySplits(a: seq<Entry>, b: seq<Entry>)
    ensures ProseOnly(a + b) == ProseOnly(a) + ProseOnly(b)
  {
    if a == [] {
      assert a + b == b;
    } else {
      assert (a + b)[0] == a[0] && (a + b)[1..] == a[1..] + b;
      ProseOnlySplits(a[1..], b);
    }
  }

  lemma MarkersAreNotProse(a: seq<Entry>, marker: Entry, b: seq<Entry>)
    requires marker.fence
    ensures ProseOnly(a + [marker] + b) == ProseOnly(a + b)
  {
    ProseOnlySplits(a + [marker], b);
    ProseOnlySplits(a, [marker]);
    ProseOnlySplits(a, b);
  }

  lemma QuotedBlockLeavesNoProse(
    pre: seq<string>, open: string, interior: seq<string>, close: string, post: seq<string>)
    requires FenceAfter(pre, "") == "" && Marker(open).Some?
    requires StaysOpen(interior, Marker(open).value) && Closes(close, Marker(open).value)
    ensures ProseOnly(Prose(pre + [open] + interior + [close] + post, "")) == ProseOnly(Prose(pre + post, ""))
  {
    var doc := pre + [open] + interior + [close] + post;
    assert Prose(doc, "") == Prose(pre, "") + [Entry(open, true)] + Prose(post, "") by {
      BlockContributesItsOpening(pre, open, interior, close, post);
    }
    assert Prose(pre + post, "") == Prose(pre, "") + Prose(post, "") by {
      ProseSplits(pre, post, "");
    }
    MarkersAreNotProse(Prose(pre, ""), Entry(open, true), Prose(post, ""));
  }

  /** A fenced block has no say in the verdict: the document reads as if the
      block, fences included, were not there. A quoted heading inside it cannot
      hide a refusal above it, and a quoted status cannot stand in for one. */
  lemma FencedBlocksHaveNoSay(
    rd: Reader, pre: seq<string>, open: string, interior: seq<string>, close: string, post: seq<string>)
    requires FenceAfter(pre, "") == "" && Marker(open).Some?
    requires StaysOpen(interior, Marker(open).value) && Closes(close, Marker(open).value)
    ensures DocumentVerdict(rd, pre + [open] + interior + [close] + post) == DocumentVerdict(rd, pre + post)
  {
    QuotedBlockLeavesNoProse(pre, open, interior, close, post);
  }
}
