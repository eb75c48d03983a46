/**
 Reading a Markdown document as prose (harness/cmd/migration-harness/handoff.go):
 fenced blocks (CommonMark, section 4.5) are dropped, each leaving one marker
 entry that holds its opening line.
 */
module Fences {
  import opened Wrappers
  import opened Text

  /** A prose line, or the place where a fenced block was dropped. */
  datatype Entry = Entry(text: string, fence: bool)

  /** The fence a line carries: three or more backticks or tildes, indented by
      at most three spaces. */
  function Marker(line: string): (m: Option<string>)
    ensures m.Some? ==> |m.value| >= 3
  {
    var indent := LeadingRun(line, ' ');
    var rest := line[indent..];
    if indent > 3 then None
    else if LeadingRun(rest, '`') >= 3 then Some(rest[..LeadingRun(rest, '`')])
    else if LeadingRun(rest, '~') >= 3 then Some(rest[..LeadingRun(rest, '~')])
    else None
  }

  /** A line closes an open fence when it is a bare run of the same character,
      at least as long. */
  predicate Closes(line: string, fence: string)
    requires fence != ""
  {
    var m := Marker(line);
    m.Some? && m.value[0] == fence[0] && |m.value| >= |fence| && TrimSpace(line) == m.value
  }

  /** The fence that is open after a line; "" means none. */
  function After(line: string, fence: string): string {
    if fence == "" then (if Marker(line).Some? then Marker(line).value else "")
    else if Closes(line, fence) then "" else fence
  }

  /** What a line leaves in the prose. */
  function Leaves(line: string, fence: string): seq<Entry> {
    if fence == "" then [Entry(line, Marker(line).Some?)] else []
  }

  function Prose(lines: seq<string>, fence: string): seq<Entry> {
    if lines == [] then [] else Leaves(lines[0], fence) + Prose(lines[1..], After(lines[0], fence))
  }

  function FenceAfter(lines: seq<string>, fence: string): string {
    if lines == [] then fence else FenceAfter(lines[1..], After(lines[0], fence))
  }

  /** The entries that are prose, without the markers. */
  function ProseOnly(entries: seq<Entry>): seq<string> {
    if entries == [] then []
    else (if entries[0].fence then [] else [entries[0].text]) + ProseOnly(entries[1..])
  }

  predicate Repeats(s: string, c: char) { forall i | 0 <= i < |s| :: s[i] == c }

  /** After k spaces, at most three, comes m: three or more of one of the two
      characters, and not one more of it. */
  predicate FenceAt(line: string, k: nat, m: string) {
    && k <= 3 && k + |m| <= |line| && (forall i | 0 <= i < k :: line[i] == ' ') && line[k..k + |m|] == m
    && |m| >= 3 && (Repeats(m, '`') || Repeats(m, '~')) && (k + |m| < |line| ==> line[k + |m|] != m[0])
  }

  /** A line carries a fence exactly when there is one after at most three spaces. */
  lemma MarkerExactlyWhen(line: string, m: string)
    ensures Marker(line) == Some(m) <==> exists k: nat :: FenceAt(line, k, m)
  {
    if Marker(line) == Some(m) {
      MarkerHasAPlace(line, m);
    }
    if k: nat :| FenceAt(line, k, m) {
      PlaceIsMarked(line, k, m);
    }
  }

  lemma MarkerHasAPlace(line: string, m: string)
    requires Marker(line) == Some(m)
    ensures exists k: nat :: FenceAt(line, k, m)
  {
    var k := LeadingRun(line, ' ');
    var rest := line[k..];
    assert rest[..|m|] == line[k..k + |m|];
    assert FenceAt(line, k, m);
  }

  lemma PlaceIsMarked(line: string, k: nat, m: string)
    requires FenceAt(line, k, m)
    ensures Marker(line) == Some(m)
  {
    assert line[k] == m[0];
    RunIs(line, k, ' ');
    var rest := line[k..];
    assert rest[..|m|] == m;
    assert forall i | 0 <= i < |m| :: rest[i] == m[i];
    RunIs(rest, |m|, m[0]);
  }

  lemma RunIs(s: string, n: nat, c: char)
    requires n <= |s| && (forall i | 0 <= i < n :: s[i] == c) && (n < |s| ==> s[n] != c)
    ensures LeadingRun(s, c) == n
  {
  }

  /** After k spaces, at most three, comes the fence's character, up to e, at least as
      often as in the fence, and then nothing but white space. */
  predicate ClosingAt(line: string, fence: string, k: nat, e: nat)
    requires fence != ""
  {
    && k <= 3 && k + |fence| <= e <= |line| && (forall i | 0 <= i < k :: line[i] == ' ')
    && (forall i | k <= i < e :: line[i] == fence[0]) && (forall i | e <= i < |line| :: IsSpace(line[i]))
  }

  lemma ClosesExactlyWhen(line: string, fence: string)
    requires |fence| >= 3 && (Repeats(fence, '`') || Repeats(fence, '~'))
    ensures Closes(line, fence) <==> exists k: nat, e: nat :: ClosingAt(line, fence, k, e)
  {
    if Closes(line, fence) {
      ClosingHasAPlace(line, fence);
    }
    if k: nat, e: nat :| ClosingAt(line, fence, k, e) {
      PlaceCloses(line, fence, k, e);
    }
  }

  lemma ClosingHasAPlace(line: string, fence: string)
    requires |fence| >= 3 && (Repeats(fence, '`') || Repeats(fence, '~')) && Closes(line, fence)
    ensures exists k: nat, e: nat :: ClosingAt(line, fence, k, e)
  {
    var m := Marker(line).value;
    MarkerHasAPlace(line, m);
    var k: nat :| FenceAt(line, k, m);
    var from, to := TrimIsTight(line);
    ClosingPlace(line, fence, m, k, from, to);
  }

  lemma ClosingPlace(line: string, fence: string, m: string, k: nat, from: nat, to: nat)
    requires FenceAt(line, k, m) && fence != "" && m[0] == fence[0] && |m| >= |fence|
    requires from <= to <= |line| && line[from..to] == m
    requires forall i | 0 <= i < from || to <= i < |line| :: IsSpace(line[i])
    ensures ClosingAt(line, fence, k, k + |m|)
  {
    assert line[k] == line[k..k + |m|][0] == m[0];
    assert line[from] == line[from..to][0] == m[0];
    assert from == k;
    forall i | k <= i < k + |m|
      ensures line[i] == fence[0]
    {
      assert line[i] == line[k..k + |m|][i - k] == m[i - k];
    }
  }

  lemma PlaceCloses(line: string, fence: string, k: nat, e: nat)
    requires |fence| >= 3 && (Repeats(fence, '`') || Repeats(fence, '~')) && ClosingAt(line, fence, k, e)
    ensures Closes(line, fence)
  {
    var m := line[k..e];
    assert m[0] == fence[0];
    assert FenceAt(line, k, m);
    MarkerExactlyWhen(line, m);
    var from, to := TrimIsTight(line);
    assert !IsSpace(line[k]) && !IsSpace(line[e - 1]);
    assert from == k && to == e;
  }

  lemma FencesShow(line: string)
    requires Marker(line).Some?
    ensures TrimSpace(line) != ""
  {
    var indent := LeadingRun(line, ' ');
    assert line[indent..][0] == line[indent];
    TrimKeepsInk(line, indent);
  }

  /** Where a block was dropped, its opening line shows. */
  lemma {:induction false} DroppedBlocksShow(lines: seq<string>, fence: string, i: nat)
    requires i < |Prose(lines, fence)| && Prose(lines, fence)[i].fence
    ensures TrimSpace(Prose(lines, fence)[i].text) != ""
  {
    var left, rest := Leaves(lines[0], fence), Prose(lines[1..], After(lines[0], fence));
    assert Prose(lines, fence) == left + rest;
    if i < |left| {
      LeftShows(lines[0], fence, i);
    } else {
      assert Prose(lines, fence)[i] == rest[i - |left|];
      DroppedBlocksShow(lines[1..], After(lines[0], fence), i - |left|);
    }
  }

  lemma LeftShows(line: string, fence: string, i: nat)
    requires i < |Leaves(line, fence)| && Leaves(line, fence)[i].fence
    ensures TrimSpace(Leaves(line, fence)[i].text) != ""
  {
    FencesShow(line);
  }

  // ----- What is inside a fenced block is never read -----

  lemma {:induction false} ProseSplits(a: seq<string>, b: seq<string>, fence: string)
    ensures Prose(a + b, fence) == Prose(a, fence) + Prose(b, FenceAfter(a, fence))
    ensures FenceAfter(a + b, fence) == FenceAfter(b, FenceAfter(a, fence))
  {
    if a == [] {
      assert a + b == b;
    } else {
      assert (a + b)[0] == a[0] && (a + b)[1..] == a[1..] + b;
      ProseSplits(a[1..], b, After(a[0], fence));
    }
  }

  lemma ProseGrows(lines: seq<string>, line: string)
    ensures Prose(lines + [line], "") == Prose(lines, "") + Leaves(line, FenceAfter(lines, ""))
    ensures FenceAfter(lines + [line], "") == After(line, FenceAfter(lines, ""))
  {
    ProseSplits(lines, [line], "");
  }

  method ProseLines(lines: seq<string>) returns (prose: seq<Entry>)
    ensures prose == Prose(lines, "")
  {
    prose := [];
    var fence := "";
    for i := 0 to |lines|
      invariant prose == Prose(lines[..i], "") && fence == FenceAfter(lines[..i], "")
    {
      var line := lines[i];
      var marker := Marker(line);
      ProseGrows(lines[..i], line);
      assert lines[..i] + [line] == lines[..i + 1];
      if fence == "" {
        if marker.Some? {
          fence := marker.value;
          prose := prose + [Entry(line, true)];
        } else {
          prose := prose + [Entry(line, false)];
        }
      } else if Closes(line, fence) {
        fence := "";
      }
    }
    assert lines[..|lines|] == lines;
  }

  ghost predicate StaysOpen(interior: seq<string>, fence: string)
    requires fence != ""
  {
    forall i | 0 <= i < |interior| :: !Closes(interior[i], fence)
  }

  lemma {:induction false} InteriorLeavesNothing(interior: seq<string>, fence: string)
    requires fence != "" && StaysOpen(interior, fence)
    ensures Prose(interior, fence) == [] && FenceAfter(interior, fence) == fence
  {
    if interior == [] {
    } else {
      assert !Closes(interior[0], fence);
      InteriorLeavesNothing(interior[1..], fence);
    }
  }

  lemma OpenedBlock(open: string, rest: seq<string>)
    requires Marker(open).Some?
    ensures Prose([open] + rest, "") == [Entry(open, true)] + Prose(rest, Marker(open).value)
  {
    assert ([open] + rest)[1..] == rest;
  }

  lemma ClosedBlock(interior: seq<string>, close: string, post: seq<string>, fence: string)
    requires fence != "" && StaysOpen(interior, fence) && Closes(close, fence)
    ensures Prose(interior + ([close] + post), fence) == Prose(post, "")
  {
    ProseSplits(interior, [close] + post, fence);
    InteriorLeavesNothing(interior, fence);
    assert ([close] + post)[1..] == post;
  }

  /** A closed block contributes one entry, its opening line, whatever it holds. */
  lemma BlockContributesItsOpening(
    pre: seq<string>, open: string, interior: seq<string>, close: string, post: seq<string>)
    requires FenceAfter(pre, "") == "" && Marker(open).Some?
    requires StaysOpen(interior, Marker(open).value) && Closes(close, Marker(open).value)
    ensures Prose(pre + [open] + interior + [close] + post, "")
         == Prose(pre, "") + [Entry(open, true)] + Prose(post, "")
  {
    var block := interior + ([close] + post);
    Regroup(pre + [open] + interior, [close], post);
    Regroup(pre + [open], interior, [close] + post);
    Regroup(pre, [open], block);
    ProseSplits(pre, [open] + block, "");
    OpenedBlock(open, block);
    ClosedBlock(interior, close, post, Marker(open).value);
    Regroup(Prose(pre, ""), [Entry(open, true)], Prose(post, ""));
  }

  /** A block left open swallows the rest of the document, whatever that is. */
  lemma OpenBlockSwallowsTheRest(pre: seq<string>, open: string, interior: seq<string>)
    requires FenceAfter(pre, "") == "" && Marker(open).Some?
    requires StaysOpen(interior, Marker(open).value)
    ensures Prose(pre + [open] + interior, "") == Prose(pre, "") + [Entry(open, true)]
  {
    assert pre + [open] + interior == pre + ([open] + interior);
    ProseSplits(pre, [open] + interior, "");
    OpenedBlock(open, interior);
    InteriorLeavesNothing(interior, Marker(open).value);
  }
}
