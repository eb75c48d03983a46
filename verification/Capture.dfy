/**
 What is kept of a process's output, whatever pieces it arrives in:
 harness/internal/goose/output.go (outputCapture) and
 harness/cmd/migration-harness/verify.go (tailBuffer). A byte is the character
 of its code.
 */
module Capture {
  import opened Wrappers

  // ----- Lines -----

  /** What follows the last newline. */
  function Rest(s: string): string {
    if s == "" || s[|s| - 1] == '\n' then "" else Rest(s[..|s| - 1]) + [s[|s| - 1]]
  }

  /** The lines that have been ended, without their newlines. */
  function Complete(s: string): seq<string> {
    if s == "" then []
    else if s[|s| - 1] == '\n' then Complete(s[..|s| - 1]) + [Rest(s[..|s| - 1])]
    else Complete(s[..|s| - 1])
  }

  function Joined(lines: seq<string>): string {
    if lines == [] then "" else Joined(lines[..|lines| - 1]) + lines[|lines| - 1] + "\n"
  }

  lemma JoinedOneMore(lines: seq<string>, l: string)
    ensures Joined(lines + [l]) == Joined(lines) + l + "\n"
  {
    assert (lines + [l])[..|lines|] == lines;
  }

  /** The lines and the rest are the output, cut at every newline. */
  lemma {:induction false} LinesRebuildTheOutput(s: string)
    ensures s == Joined(Complete(s)) + Rest(s)
    ensures '\n' !in Rest(s) && forall l | l in Complete(s) :: '\n' !in l
  {
    LinesHoldNoNewline(s);
    if s == "" {
    } else {
      var init, last := s[..|s| - 1], s[|s| - 1];
      LinesRebuildTheOutput(init);
      assert s == init + [last];
      if last == '\n' {
        JoinedOneMore(Complete(init), Rest(init));
        assert "\n" == [last];
      } else {
        assert Rest(s) == Rest(init) + [last];
        Regroup(Joined(Complete(init)), Rest(init), [last]);
      }
    }
  }

  lemma {:induction false} LinesHoldNoNewline(s: string)
    ensures '\n' !in Rest(s) && forall l | l in Complete(s) :: '\n' !in l
  {
    if s == "" {
    } else {
      LinesHoldNoNewline(s[..|s| - 1]);
    }
  }

  lemma {:induction false} MoreOfTheLine(s: string, b: string)
    requires '\n' !in b
    ensures Complete(s + b) == Complete(s) && Rest(s + b) == Rest(s) + b
  {
    if b == "" {
      assert s + b == s;
    } else {
      var init := b[..|b| - 1];
      assert (s + b)[..|s + b| - 1] == s + init;
      assert b[|b| - 1] in b;
      assert b == init + [b[|b| - 1]];
      MoreOfTheLine(s, init);
    }
  }

  lemma EndOfTheLine(s: string)
    ensures Complete(s + "\n") == Complete(s) + [Rest(s)] && Rest(s + "\n") == ""
  {
    assert (s + "\n")[..|s|] == s;
  }

  function LastOf<T>(xs: seq<T>, n: nat): (r: seq<T>)
    ensures |r| == if |xs| < n then |xs| else n
  {
    if |xs| <= n then xs else xs[|xs| - n..]
  }

  /** Keeping the last n of what was kept and what is new loses nothing. */
  lemma LastOfLast<T>(xs: seq<T>, more: seq<T>, n: nat)
    ensures LastOf(LastOf(xs, n) + more, n) == LastOf(xs + more, n)
  {
    var kept := LastOf(xs, n);
    assert xs == xs[..|xs| - |kept|] + kept;
    assert xs + more == xs[..|xs| - |kept|] + (kept + more);
  }

  // ----- Error lines -----

  const CAPTURED_LINES := 8
  const CAPTURED_LINE_BYTES := 4096
  const ESC := '\U{1b}'
  /** The ellipsis in UTF-8. */
  const ELLIPSIS := "\U{E2}\U{80}\U{A6}"

  predicate Contains(s: string, part: string) {
    exists i :: 0 <= i <= |s| && part <= s[i..]
  }

  predicate LooksLikeErrorLine(line: string) {
    Contains(line, "ERROR") || Contains(line, "Exception") || Contains(line, "error:") || Contains(line, "Error:")
  }

  lemma ContainsExactlyWhen(s: string, part: string)
    ensures Contains(s, part) <==> exists a: string, b: string :: s == a + part + b
  {
    if Contains(s, part) {
      var i :| 0 <= i <= |s| && part <= s[i..];
      assert s == s[..i] + part + s[i..][|part|..];
    }
    if a: string, b: string :| s == a + part + b {
      assert s[|a|..] == part + b;
    }
  }

  /** Where a control sequence's final byte is, from i on. */
  function FinalByte(s: string, i: nat): (j: nat)
    requires i <= |s|
    ensures i <= j <= |s|
    decreases |s| - i
  {
    if i < |s| && !('\U{40}' <= s[i] <= '\U{7e}') then FinalByte(s, i + 1) else i
  }

  /** The final byte of the sequence that the escape byte at i starts. */
  function SequenceEnd(s: string, i: nat): (j: nat)
    requires i < |s|
    ensures i < j <= |s|
  {
    FinalByte(s, if i + 1 < |s| && s[i + 1] == '[' then i + 2 else i + 1)
  }

  function StripFrom(s: string, i: nat): string
    decreases |s| - i
  {
    if i >= |s| then ""
    else if s[i] != ESC then [s[i]] + StripFrom(s, i + 1)
    else StripFrom(s, SequenceEnd(s, i) + 1)
  }

  /** What may be shown of a line: never an escape byte, and all of a line that has none. */
  lemma {:induction false} StrippedOfEscapes(s: string, i: nat)
    requires i <= |s|
    ensures ESC !in StripFrom(s, i)
    ensures ESC !in s[i..] ==> StripFrom(s, i) == s[i..]
    decreases |s| - i
  {
    if i < |s| {
      if s[i] != ESC {
        StrippedOfEscapes(s, i + 1);
        assert s[i..] == [s[i]] + s[i + 1..];
      } else {
        assert s[i..][0] == ESC;
        if SequenceEnd(s, i) < |s| {
          StrippedOfEscapes(s, SequenceEnd(s, i) + 1);
        }
      }
    }
  }

  predicate IsFinal(c: char) { '@' <= c <= '~' }

  /** From the escape byte at a place, and the bracket after it if there is one, up to the
      first byte that can end it: a control sequence. */
  predicate SequenceAt(s: string, at: nat, end: nat) {
    && at < end < |s| && s[at] == ESC
    && var from := if s[at + 1] == '[' then at + 2 else at + 1;
       from <= end && IsFinal(s[end]) && forall k | from <= k < end :: !IsFinal(s[k])
  }

  /** The first control sequence is taken out whole, and nothing on either side of it. */
  lemma SequencesAreTakenOut(s: string, at: nat, end: nat)
    requires SequenceAt(s, at, end) && forall k | 0 <= k < at :: s[k] != ESC
    ensures StripFrom(s, 0) == s[..at] + StripFrom(s[end + 1..], 0)
  {
    PlainIsKept(s, 0, at);
    assert s[0..at] == s[..at];
    FinalIs(s, if s[at + 1] == '[' then at + 2 else at + 1, end);
    StripShifted(s, end + 1, s[end + 1..]);
  }

  /** One that does not end takes the rest of the line with it. */
  lemma UnendedIsTakenOut(s: string, at: nat)
    requires at < |s| && s[at] == ESC && forall k | 0 <= k < at :: s[k] != ESC
    requires forall end: nat :: !SequenceAt(s, at, end)
    ensures StripFrom(s, 0) == s[..at]
  {
    PlainIsKept(s, 0, at);
    assert s[0..at] == s[..at];
    var from := if at + 1 < |s| && s[at + 1] == '[' then at + 2 else at + 1;
    var end := FinalByte(s, from);
    FinalIsFirst(s, from);
    if end < |s| {
      assert SequenceAt(s, at, end);
      assert false;
    }
  }

  lemma {:induction false} FinalIsFirst(s: string, i: nat)
    requires i <= |s|
    ensures forall k | i <= k < FinalByte(s, i) :: !IsFinal(s[k])
    ensures FinalByte(s, i) < |s| ==> IsFinal(s[FinalByte(s, i)])
    decreases |s| - i
  {
    if i < |s| && !IsFinal(s[i]) {
      FinalIsFirst(s, i + 1);
    }
  }

  lemma FinalIs(s: string, i: nat, j: nat)
    requires i <= j <= |s| && (forall k | i <= k < j :: !IsFinal(s[k])) && (j < |s| ==> IsFinal(s[j]))
    ensures FinalByte(s, i) == j
    decreases j - i
  {
    if i < j {
      FinalIs(s, i + 1, j);
    }
  }

  lemma {:induction false} PlainIsKept(s: string, i: nat, at: nat)
    requires i <= at <= |s| && forall k | i <= k < at :: s[k] != ESC
    ensures StripFrom(s, i) == s[i..at] + StripFrom(s, at)
    decreases at - i
  {
    if i < at {
      PlainIsKept(s, i + 1, at);
      assert StripFrom(s, i) == [s[i]] + StripFrom(s, i + 1);
      OneMorePlain(s, i, at, StripFrom(s, at));
    }
  }

  lemma OneMorePlain(s: string, i: nat, at: nat, rest: string)
    requires i < at <= |s|
    ensures [s[i]] + (s[i + 1..at] + rest) == s[i..at] + rest
  {
  }

  lemma {:induction false} FinalShifted(s: string, from: nat, rest: string, i: nat)
    requires from <= |s| && s[from..] == rest && i <= |rest|
    ensures FinalByte(s, from + i) == from + FinalByte(rest, i)
    decreases |rest| - i
  {
    if i < |rest| {
      assert s[from + i] == rest[i];
      FinalShifted(s, from, rest, i + 1);
    }
  }

  /** What is shown of the rest of a line does not depend on what came before. */
  lemma StripShifted(s: string, from: nat, rest: string)
    requires from <= |s| && s[from..] == rest
    ensures StripFrom(s, from) == StripFrom(rest, 0)
  {
    StripAfter(s, from, rest, 0);
  }

  lemma {:induction false} StripAfter(s: string, from: nat, rest: string, i: nat)
    requires from <= |s| && s[from..] == rest && i <= |rest|
    ensures StripFrom(s, from + i) == StripFrom(rest, i)
    decreases |rest| - i
  {
    if i < |rest| {
      assert s[from + i] == rest[i];
      if rest[i] != ESC {
        StripAfter(s, from, rest, i + 1);
      } else {
        var k := if i + 1 < |rest| && rest[i + 1] == '[' then i + 2 else i + 1;
        assert i + 1 < |rest| ==> s[from + i + 1] == rest[i + 1];
        FinalShifted(s, from, rest, k);
        var end := FinalByte(rest, k);
        if end < |rest| {
          StripAfter(s, from, rest, end + 1);
        }
      }
    }
  }

  method SkipSequence(s: string, start: nat) returns (i: nat)
    requires start < |s|
    ensures i == SequenceEnd(s, start) + 1
  {
    i := start + 1;
    if i < |s| && s[i] == '[' {
      i := i + 1;
    }
    while i < |s| && !('\U{40}' <= s[i] <= '\U{7e}')
      invariant i <= |s| && FinalByte(s, i) == SequenceEnd(s, start)
    {
      i := i + 1;
    }
    i := i + 1;
  }

  method StripANSI(s: string) returns (r: string)
    ensures r == StripFrom(s, 0)
  {
    if ESC !in s {
      StrippedOfEscapes(s, 0);
      assert s[0..] == s;
      return s;
    }
    r := "";
    var i := 0;
    while i < |s|
      invariant r + StripFrom(s, i) == StripFrom(s, 0)
    {
      if s[i] != ESC {
        assert r + StripFrom(s, i) == (r + [s[i]]) + StripFrom(s, i + 1);
        r := r + [s[i]];
        i := i + 1;
      } else {
        i := SkipSequence(s, i);
      }
    }
    assert r + "" == r;
  }

  function Cut(line: string): string {
    if |line| > CAPTURED_LINE_BYTES then line[..CAPTURED_LINE_BYTES] else line
  }

  /** What one line leaves: nothing, or its cut and cleaned head, marked if cut.
      trim is strings.TrimSpace. */
  function Kept(trim: string -> string, line: string): seq<string> {
    var text := trim(StripFrom(Cut(line), 0));
    if text == "" || !LooksLikeErrorLine(text) then []
    else [if |line| > CAPTURED_LINE_BYTES then text + ELLIPSIS else text]
  }

  /** A line leaves something exactly when its head, cut to 4096 bytes, cleaned and
      trimmed, reports an error; and then that, with a mark if it was cut. */
  lemma KeptExactlyWhen(trim: string -> string, line: string)
    ensures var head := if |line| > 4096 then line[..4096] else line;
            var text := trim(StripFrom(head, 0));
            && (Kept(trim, line) != [] <==> text != "" && LooksLikeErrorLine(text))
            && (Kept(trim, line) != [] ==> Kept(trim, line) == [if |line| > 4096 then text + ELLIPSIS else text])
  {
  }

  function AllKept(trim: string -> string, lines: seq<string>): seq<string> {
    if lines == [] then [] else AllKept(trim, lines[..|lines| - 1]) + Kept(trim, lines[|lines| - 1])
  }

  /** What is kept of all the output. */
  function KeptOf(trim: string -> string, s: string): seq<string> {
    LastOf(AllKept(trim, Complete(s)), CAPTURED_LINES)
  }

  lemma OneLineKept(trim: string -> string, s: string)
    ensures KeptOf(trim, s + "\n") == LastOf(KeptOf(trim, s) + Kept(trim, Rest(s)), CAPTURED_LINES)
  {
    EndOfTheLine(s);
    var all := Complete(s) + [Rest(s)];
    assert all[..|all| - 1] == Complete(s);
    LastOfLast(AllKept(trim, Complete(s)), Kept(trim, Rest(s)), CAPTURED_LINES);
  }

  datatype CapturedLine = CapturedLine(at: nat, text: string)

  function Texts(lines: seq<CapturedLine>): (r: seq<string>)
    ensures |r| == |lines| && forall i :: 0 <= i < |r| ==> r[i] == lines[i].text
  {
    if lines == [] then [] else Texts(lines[..|lines| - 1]) + [lines[|lines| - 1].text]
  }

  method IndexNewline(p: string) returns (i: nat)
    ensures i <= |p| && '\n' !in p[..i] && (i < |p| ==> p[i] == '\n')
  {
    i := 0;
    while i < |p| && p[i] != '\n'
      invariant i <= |p| && '\n' !in p[..i]
    {
      i := i + 1;
    }
  }

  lemma Rejoin(s: string, p: string, i: nat)
    requires i < |p| && p[i] == '\n'
    ensures s + p[..i] + "\n" + p[i + 1..] == s + p
  {
    assert p == p[..i] + ("\n" + p[i + 1..]);
  }

  class OutputCapture {
    const trim: string -> string
    var partial: string
    var truncated: bool
    var lines: seq<CapturedLine>
    /** All the bytes written so far. */
    ghost var written: string

    /** The state is a function of the bytes written, not of how they were cut up. */
    ghost predicate Valid()
      reads this
    {
      && partial == Cut(Rest(written))
      && (truncated <==> |Rest(written)| > CAPTURED_LINE_BYTES)
      && Texts(lines) == KeptOf(trim, written)
    }

    constructor (trim: string -> string)
      ensures Valid() && written == "" && this.trim == trim
    {
      this.trim := trim;
      partial, truncated, lines, written := "", false, [], "";
    }

    method Scan(p: string, now: nat)
      requires Valid()
      modifies this
      ensures Valid() && written == old(written) + p
    {
      var rest := p;
      while |rest| > 0
        invariant Valid() && written + rest == old(written) + p
      {
        rest := ScanLine(rest, now);
      }
      assert written + "" == written;
    }

    /** Up to the end of the first line in p, or to the end of p. */
    method ScanLine(p: string, now: nat) returns (left: string)
      requires Valid() && p != ""
      modifies this
      ensures Valid() && written + left == old(written) + p && |left| < |p|
    {
      var i := IndexNewline(p);
      AppendPartial(p[..i]);
      if i == |p| {
        assert p[..i] == p;
        left := "";
        assert written + left == written;
      } else {
        EndLine(now);
        left := p[i + 1..];
        Rejoin(old(written), p, i);
      }
    }

    method AppendPartial(b: string)
      requires Valid() && '\n' !in b
      modifies this
      ensures Valid() && written == old(written) + b
    {
      MoreOfTheLine(written, b);
      written := written + b;
      if truncated {
        return;
      }
      var piece := b;
      var room := CAPTURED_LINE_BYTES - |partial|;
      if |b| > room {
        piece, truncated := b[..room], true;
      }
      partial := partial + piece;
    }

    /** The newline: record the line and start the next. */
    method EndLine(now: nat)
      requires Valid()
      modifies this
      ensures Valid() && written == old(written) + "\n"
    {
      Record(partial, now);
      EndOfTheLine(written);
      written := written + "\n";
      partial, truncated := "", false;
    }

    method Record(line: string, now: nat)
      requires Valid() && line == partial
      modifies this`lines
      ensures Texts(lines) == KeptOf(trim, written + "\n")
      ensures lines == old(lines) || (lines != [] && lines[|lines| - 1].at == now)
    {
      OneLineKept(trim, written);
      var stripped := StripANSI(line);
      var text := trim(stripped);
      if text == "" || !LooksLikeErrorLine(text) {
        assert Texts(lines) + [] == Texts(lines);
        return;
      }
      if truncated {
        text := text + ELLIPSIS;
      }
      Keep(text, now);
    }

    method Keep(text: string, now: nat)
      modifies this`lines
      ensures Texts(lines) == LastOf(old(Texts(lines)) + [text], CAPTURED_LINES)
      ensures lines == LastOf(old(lines) + [CapturedLine(now, text)], 8)
    {
      ghost var before := Texts(lines);
      lines := lines + [CapturedLine(now, text)];
      assert Texts(lines) == before + [text];
      if |lines| > CAPTURED_LINES {
        lines := lines[|lines| - CAPTURED_LINES..];
      }
      assert Texts(lines) == LastOf(before + [text], CAPTURED_LINES);
    }

    /** The latest kept line read after since. */
    method LastErrorSince(since: nat) returns (r: Option<CapturedLine>)
      ensures r.None? ==> forall i | 0 <= i < |lines| :: lines[i].at <= since
      ensures r.Some? ==> exists i :: && 0 <= i < |lines| && r == Some(lines[i]) && lines[i].at > since
                                      && forall j | i < j < |lines| :: lines[j].at <= since
    {
      var i: nat := |lines|;
      while i > 0
        invariant i <= |lines|
        invariant forall j | i <= j < |lines| :: lines[j].at <= since
      {
        i := i - 1;
        if lines[i].at > since {
          return Some(lines[i]);
        }
      }
      return None;
    }
  }

  // ----- The tail of a command's output -----

  /** The tail of all is the tail of what was kept and the tail of what is new. */
  lemma TailOfTheTail(s: string, p: string, n: nat)
    ensures LastOf(LastOf(s, n) + LastOf(p, n), n) == LastOf(s + p, n)
  {
    LastOfLast(s, p, n);
    var kept, tail := LastOf(s, n), LastOf(p, n);
    if |p| > n {
      assert LastOf(kept + p, n) == tail;
    }
  }

  class TailBuffer {
    const limit: nat
    var buf: string
    var dropped: bool
    ghost var written: string

    ghost predicate Valid()
      reads this
    {
      buf == LastOf(written, limit) && (dropped <==> |written| > limit)
    }

    constructor (limit: nat)
      ensures Valid() && written == "" && this.limit == limit
    {
      this.limit := limit;
      buf, dropped, written := "", false, "";
    }

    method Write(p: string) returns (n: nat)
      requires Valid()
      modifies this
      ensures Valid() && written == old(written) + p && n == |p|
    {
      n := |p|;
      TailOfTheTail(written, p, limit);
      written := written + p;
      var piece := p;
      if |p| > limit {
        piece, dropped := p[|p| - limit..], true;
      }
      buf := buf + piece;
      if |buf| > limit {
        buf, dropped := buf[|buf| - limit..], true;
      }
    }

    function AsString(): string
      reads this
    {
      if dropped then ELLIPSIS + buf else buf
    }
  }

  /** However the same bytes were written, the same lines and the same tail are
      kept, and the tail is all of it exactly when it fits. */
  lemma ChunksDoNotMatter(a: OutputCapture, b: OutputCapture, s: TailBuffer, t: TailBuffer)
    requires a.Valid() && b.Valid() && a.trim == b.trim && a.written == b.written
    requires s.Valid() && t.Valid() && s.limit == t.limit && s.written == t.written
    ensures Texts(a.lines) == Texts(b.lines) && a.partial == b.partial && a.truncated == b.truncated
    ensures s.AsString() == t.AsString()
    ensures !s.dropped <==> s.buf == s.written
  {
  }
}
