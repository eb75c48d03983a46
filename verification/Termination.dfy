/**
 The termination blob (harness/cmd/migration-harness/outcome.go): its size as
 JSON, and the ladder that trims it to what the kubelet keeps.
 */
module Termination {
  import opened Wrappers
  import opened Text
  import Verification

  type Record = Verification.Record

  datatype Blob = Blob(
    exitCode: nat,
    outcome: string,
    limitReached: string,
    handoffStatus: string,
    stopReason: string,
    mavenProxyWarning: string,
    usageSize: Option<nat>,  // the encoded size of the usage section, if any
    verification: Option<Record>)

  const MAX_BYTES := 4096
  const SHORT_BYTES := 200

  const OUTCOMES: set<string> := {"succeeded", "failed", "limitReached", "refused"}
  const LIMITS: set<string> := {"", "maxTurns", "maxCost"}

  // ----- UTF-8 and JSON sizes -----

  function Utf8Len(c: char): (n: nat)
    ensures 1 <= n <= 4
  {
    if c < '\U{80}' then 1 else if c < '\U{800}' then 2 else if c < '\U{10000}' then 3 else 4
  }

  /** The bytes encoding/json writes for one character of a string. */
  function JsonLen(c: char): (n: nat)
    ensures 1 <= n <= 6
  {
    if c == '"' || c == '\\' || c == '\n' || c == '\r' || c == '\t' || c == '\U{8}' || c == '\U{C}' then 2
    else if c < ' ' || c == '<' || c == '>' || c == '&' || c == '\U{2028}' || c == '\U{2029}' then 6
    else Utf8Len(c)
  }

  function Utf8Size(s: string): (n: nat)
    ensures |s| <= n
  {
    if s == "" then 0 else Utf8Len(s[0]) + Utf8Size(s[1..])
  }

  /** Six bytes a character is the worst case. */
  function JsonSize(s: string): (n: nat)
    ensures n <= 6 * |s|
  {
    if s == "" then 0 else JsonLen(s[0]) + JsonSize(s[1..])
  }

  function Quoted(s: string): nat { JsonSize(s) + 2 }

  function IntSize(n: int): nat { if n < 0 then 1 + |Decimal(-n)| else |Decimal(n)| }

  /** A key with its value and the comma after it, when the field is present. */
  function Member(present: bool, key: string, value: nat): nat {
    if present then |key| + 4 + value else 0
  }

  function StepSize(c: Verification.StepRecord): nat {
    2 + Member(true, "label", Quoted(c.name)) + Member(c.command != "", "command", Quoted(c.command))
      + Member(true, "status", Quoted(c.status.Name()))
      + Member(c.exitCode.Some?, "exitCode", if c.exitCode.Some? then IntSize(c.exitCode.value) else 0)
      + Member(c.seconds != "", "seconds", |c.seconds|)
      + Member(c.reason != "", "reason", Quoted(c.reason)) + Member(c.output != "", "output", Quoted(c.output)) - 1
  }

  function ArraySize(cs: seq<Verification.StepRecord>): nat {
    if cs == [] then 2 else StepSize(cs[0]) + 1 + ArraySize(cs[1..])
  }

  function RecordSize(v: Record): nat {
    2 + Member(true, "status", Quoted(v.status.Name())) + Member(v.reason != "", "reason", Quoted(v.reason))
      + Member(v.commit != "", "commit", Quoted(v.commit))
      + Member(v.commands != [], "commands", ArraySize(v.commands) - (if v.commands == [] then 0 else 1)) - 1
  }

  /** The length of the blob as JSON. */
  function Size(b: Blob): nat {
    2 + Member(true, "exitCode", IntSize(b.exitCode)) + Member(true, "outcome", Quoted(b.outcome))
      + Member(b.limitReached != "", "limitReached", Quoted(b.limitReached))
      + Member(b.handoffStatus != "", "handoffStatus", Quoted(b.handoffStatus))
      + Member(b.stopReason != "", "stopReason", Quoted(b.stopReason))
      + Member(b.mavenProxyWarning != "", "mavenProxyWarning", Quoted(b.mavenProxyWarning))
      + Member(b.usageSize.Some?, "usage", if b.usageSize.Some? then b.usageSize.value else 0)
      + Member(b.verification.Some?, "verification", if b.verification.Some? then RecordSize(b.verification.value) else 0)
      - 1
  }

  // ----- What is counted -----

  lemma {:induction false} JsonSizeAdds(a: string, b: string)
    ensures JsonSize(a + b) == JsonSize(a) + JsonSize(b)
  {
    if a == "" {
      assert a + b == b;
    } else {
      assert (a + b)[1..] == a[1..] + b;
      JsonSizeAdds(a[1..], b);
    }
  }

  lemma {:induction false} ArraySizeAdds(cs: seq<Verification.StepRecord>, c: Verification.StepRecord)
    ensures ArraySize(cs + [c]) == ArraySize(cs) + StepSize(c) + 1
  {
    if cs == [] {
      assert cs + [c] == [c] && [c][1..] == [];
    } else {
      assert (cs + [c])[1..] == cs[1..] + [c];
      ArraySizeAdds(cs[1..], c);
    }
  }

  /** A control character costs six bytes, a quote two, most characters their own. */
  lemma JsonLenIs(c: char)
    ensures c < ' ' && c != '\n' && c != '\r' && c != '\t' && c != '\U{8}' && c != '\U{C}' ==> JsonLen(c) == 6
    ensures c == '"' || c == '\\' || c == '\n' ==> JsonLen(c) == 2
    ensures 'a' <= c <= 'z' || '0' <= c <= '9' ==> JsonLen(c) == 1
  {
  }

  /** More text in a field makes the blob longer by what is written for it. */
  lemma StopReasonGrows(b: Blob, more: string)
    requires b.stopReason != ""
    ensures Size(b.(stopReason := b.stopReason + more)) == Size(b) + JsonSize(more)
  {
    JsonSizeAdds(b.stopReason, more);
  }

  /** A field that is not there is not written at all. */
  lemma RecordCosts(b: Blob)
    requires b.verification.Some?
    ensures Size(b) == Size(b.(verification := None)) + |"verification"| + 4 + RecordSize(b.verification.value)
  {
  }

  /** One more command in a record costs its own text and a comma. */
  lemma SizeOfACommand(v: Record, c: Verification.StepRecord)
    requires v.commands != []
    ensures RecordSize(v.(commands := v.commands + [c])) == RecordSize(v) + StepSize(c) + 1
    ensures c.output != "" ==> StepSize(c) == StepSize(c.(output := "")) + |"output"| + 4 + Quoted(c.output)
  {
    ArraySizeAdds(v.commands, c);
  }

  // ----- Cutting at a byte count without splitting a character -----

  /** For each byte of s, whether a character starts there. */
  function Starts(s: string): (bytes: seq<bool>)
    ensures |bytes| == Utf8Size(s)
  {
    if s == "" then [] else [true] + seq(Utf8Len(s[0]) - 1, _ => false) + Starts(s[1..])
  }

  /** The longest prefix of whole characters that fits in max bytes. */
  function Fitting(s: string, max: nat): (r: string)
    ensures r <= s && Utf8Size(r) <= max && |r| <= max
  {
    if s == "" || Utf8Len(s[0]) > max then "" else
    var rest := Fitting(s[1..], max - Utf8Len(s[0]));
    assert ([s[0]] + rest)[1..] == rest;
    [s[0]] + rest
  }

  lemma {:induction false} FittingIsLongest(s: string, max: nat, k: nat)
    requires k <= |s| && Utf8Size(s[..k]) <= max
    ensures k <= |Fitting(s, max)|
  {
    if k > 0 {
      assert s[..k][1..] == s[1..][..k - 1] && s[..k][0] == s[0];
      FittingIsLongest(s[1..], max - Utf8Len(s[0]), k - 1);
    }
  }

  /** The last character start at or before byte i, or 0. */
  function StartBefore(bytes: seq<bool>, i: nat): (cut: nat)
    requires i < |bytes|
    ensures cut <= i
  {
    if i == 0 || bytes[i] then i else StartBefore(bytes, i - 1)
  }

  lemma {:induction false} StartBeforeSkipsAChar(head: seq<bool>, rest: seq<bool>, i: nat)
    requires |head| > 0 && head[0] && (forall j | 1 <= j < |head| :: !head[j]) && i < |head| + |rest|
    requires rest != [] ==> rest[0]
    ensures StartBefore(head + rest, i) ==
            if i < |head| then 0 else |head| + StartBefore(rest, i - |head|)
  {
    if i == 0 || (head + rest)[i] {
    } else {
      StartBeforeSkipsAChar(head, rest, i - 1);
    }
  }

  /** Backing up from byte max to a character start cuts at the longest fit. */
  lemma {:induction false} BackingUpFits(s: string, max: nat)
    requires max < Utf8Size(s)
    ensures StartBefore(Starts(s), max) == Utf8Size(Fitting(s, max))
  {
    var head := [true] + seq(Utf8Len(s[0]) - 1, _ => false);
    var rest := Starts(s[1..]);
    assert Starts(s) == head + rest;
    StartBeforeSkipsAChar(head, rest, max);
    if max >= |head| {
      BackingUpFits(s[1..], max - |head|);
      var r := Fitting(s[1..], max - |head|);
      assert Fitting(s, max) == [s[0]] + r && ([s[0]] + r)[1..] == r;
    }
  }

  method TruncateRuneSafe(s: string, maxBytes: nat) returns (r: string, cut: nat)
    ensures r == Fitting(s, maxBytes) && cut == Utf8Size(r)
  {
    var bytes := Starts(s);
    if |bytes| <= maxBytes {
      EverythingFits(s, maxBytes);
      return s, |bytes|;
    }
    cut := maxBytes;
    while cut > 0 && !bytes[cut]
      invariant cut <= maxBytes && StartBefore(bytes, cut) == StartBefore(bytes, maxBytes)
    {
      cut := cut - 1;
    }
    BackingUpFits(s, maxBytes);
    assert Fitting(s, maxBytes) == s[..|Fitting(s, maxBytes)|];
    CharsBefore(s, |Fitting(s, maxBytes)|);
    r := s[..CharStarts(bytes[..cut])];
  }

  /** How many characters start in these bytes. */
  function CharStarts(bytes: seq<bool>): (n: nat)
    ensures n <= |bytes|
  {
    if bytes == [] then 0 else (if bytes[0] then 1 else 0) + CharStarts(bytes[1..])
  }

  lemma {:induction false} NoCharStarts(bytes: seq<bool>, rest: seq<bool>)
    requires forall i | 0 <= i < |bytes| :: !bytes[i]
    ensures CharStarts(bytes + rest) == CharStarts(rest)
  {
    if bytes == [] {
      assert bytes + rest == rest;
    } else {
      assert (bytes + rest)[1..] == bytes[1..] + rest;
      NoCharStarts(bytes[1..], rest);
    }
  }

  /** The bytes of the first k characters hold k character starts. */
  lemma {:induction false} CharsBefore(s: string, k: nat)
    requires k <= |s|
    ensures Utf8Size(s[..k]) <= Utf8Size(s) && CharStarts(Starts(s)[..Utf8Size(s[..k])]) == k
  {
    if k > 0 {
      CharsBefore(s[1..], k - 1);
      assert s[..k][0] == s[0] && s[..k][1..] == s[1..][..k - 1];
      var tail := seq(Utf8Len(s[0]) - 1, _ => false);
      var rest := Starts(s[1..])[..Utf8Size(s[1..][..k - 1])];
      assert Starts(s) == [true] + tail + Starts(s[1..]);
      assert Starts(s)[..Utf8Size(s[..k])] == [true] + (tail + rest);
      assert ([true] + (tail + rest))[1..] == tail + rest;
      NoCharStarts(tail, rest);
    }
  }

  lemma {:induction false} EverythingFits(s: string, max: nat)
    requires Utf8Size(s) <= max
    ensures Fitting(s, max) == s
  {
    if s != "" {
      EverythingFits(s[1..], max - Utf8Len(s[0]));
    }
  }

  // ----- The trim ladder -----

  function WithoutOutput(v: Option<Record>): Option<Record> {
    if v.None? then None
    else Some(v.value.(commands := seq(|v.value.commands|, i requires 0 <= i < |v.value.commands| =>
      v.value.commands[i].(output := ""))))
  }

  function VerdictOnly(v: Option<Record>): Option<Record> {
    if v.None? then None else Some(v.value.(commands := []))
  }

  /** What every blob the harness builds satisfies. */
  predicate Producible(b: Blob) {
    && b.exitCode < 10 && b.outcome in OUTCOMES && b.limitReached in LIMITS
    && (b.verification.Some? ==>
          |b.verification.value.reason| <= Verification.REASON_LEN && |b.verification.value.commit| <= 64)
  }

  lemma SmallSizes(b: Blob)
    requires Producible(b)
    ensures IntSize(b.exitCode) == 1 && Quoted(b.outcome) <= 74 && Quoted(b.limitReached) <= 50
  {
  }

  /** The verdict without its evidence is under a third of the limit. */
  lemma VerdictOnlyIsSmall(v: Record)
    requires |v.reason| <= Verification.REASON_LEN && |v.commit| <= 64 && v.commands == []
    ensures RecordSize(v) <= 1500
  {
    assert Quoted(v.status.Name()) <= 62;
  }

  /** The rung that drops the verdict cannot be reached. */
  lemma MinimalBlobFits(b: Blob)
    requires Producible(b) && b.handoffStatus == "" && b.stopReason == "" && b.usageSize.None?
    requires |b.mavenProxyWarning| <= SHORT_BYTES
    requires b.verification.Some? ==> b.verification.value.commands == []
    ensures Size(b) <= MAX_BYTES
  {
    SmallSizes(b);
    if b.verification.Some? {
      VerdictOnlyIsSmall(b.verification.value);
    }
  }

  /** Everything of a verification record but its per-command evidence. */
  function Verdict(v: Option<Record>): Option<(Verification.Status, string, string)> {
    if v.None? then None else Some((v.value.status, v.value.reason, v.value.commit))
  }

  /** What the ladder guarantees of the blob it writes. */
  ghost predicate Survives(term: Blob, written: Blob) {
    && Size(written) <= MAX_BYTES
    && written.exitCode == term.exitCode
    && written.outcome == term.outcome
    && written.limitReached == term.limitReached
    && Verdict(written.verification) == Verdict(term.verification)
    && written.mavenProxyWarning <= term.mavenProxyWarning
    && (Size(term) <= MAX_BYTES ==> written == term)
  }

  /** The first rung: every command keeps all but its output, a long stop reason is
      cut to 200 bytes of whole characters and an ellipsis, and the rest stays. */
  ghost predicate Sheds(term: Blob, shed: Blob) {
    && shed == term.(stopReason := shed.stopReason, verification := shed.verification)
    && CutTo(term.stopReason, shed.stopReason, "\U{2026}")
    && (shed.verification.Some? <==> term.verification.Some?)
    && (term.verification.Some? ==>
          var v, kept := term.verification.value, shed.verification.value;
          && kept == v.(commands := kept.commands) && |kept.commands| == |v.commands|
          && forall i | 0 <= i < |v.commands| :: kept.commands[i] == v.commands[i].(output := ""))
  }

  /** s as it is if it has at most 200 bytes, and otherwise the longest beginning of
      it that has, with a mark. */
  ghost predicate CutTo(s: string, cut: string, mark: string) {
    if Utf8Size(s) <= 200 then cut == s
    else exists k: nat ::
           && k <= |s| && cut == s[..k] + mark && Utf8Size(s[..k]) <= 200
           && (k < |s| ==> Utf8Size(s[..k + 1]) > 200)
  }

  /** The second rung: exit code, outcome, limit, the verdict without its commands, and
      the warning cut to 200 bytes. */
  ghost predicate SavesTheVerdict(term: Blob, written: Blob) {
    && written.exitCode == term.exitCode && written.outcome == term.outcome
    && written.limitReached == term.limitReached
    && written.handoffStatus == "" && written.stopReason == "" && written.usageSize.None?
    && CutTo(term.mavenProxyWarning, written.mavenProxyWarning, "")
    && (written.verification.Some? <==> term.verification.Some?)
    && (term.verification.Some? ==> written.verification.value == term.verification.value.(commands := []))
  }

  lemma FittingIsCut(s: string, mark: string)
    ensures CutTo(s, if Utf8Size(s) <= 200 then s else Fitting(s, 200) + mark, mark)
    ensures CutTo(s, Fitting(s, 200), "")
  {
    var k := |Fitting(s, 200)|;
    if Utf8Size(s) <= 200 {
      EverythingFits(s, 200);
    } else {
      assert Fitting(s, 200) == s[..k];
      if k < |s| && Utf8Size(s[..k + 1]) <= 200 {
        FittingIsLongest(s, 200, k + 1);
      }
      assert s[..k] + "" == s[..k];
    }
  }

  method ShedOutputs(term: Blob) returns (shed: Blob)
    ensures Sheds(term, shed)
  {
    FittingIsCut(term.stopReason, "\U{2026}");
    shed := term.(verification := WithoutOutput(term.verification));
    if Utf8Size(shed.stopReason) > SHORT_BYTES {
      var reason, _ := TruncateRuneSafe(shed.stopReason, SHORT_BYTES);
      shed := shed.(stopReason := reason + "\U{2026}");
    }
  }

  method SaveVerdict(term: Blob) returns (written: Blob)
    requires Producible(term)
    ensures SavesTheVerdict(term, written) && written.mavenProxyWarning <= term.mavenProxyWarning
    ensures Size(written) <= MAX_BYTES
  {
    FittingIsCut(term.mavenProxyWarning, "");
    var warning, _ := TruncateRuneSafe(term.mavenProxyWarning, SHORT_BYTES);
    written := Blob(term.exitCode, term.outcome, term.limitReached, "", "", warning, None, VerdictOnly(term.verification));
    MinimalBlobFits(written);
    if Size(written) > MAX_BYTES {
      written := written.(verification := None);
    }
  }

  /** A blob that fits is written as it is. One that does not sheds its outputs, and if
      that fits is written so; otherwise the verdict is saved. */
  method WriteTerminationLog(term: Blob) returns (written: Blob)
    requires Producible(term)
    ensures Survives(term, written)
    ensures Size(term) > MAX_BYTES ==>
              exists shed :: Sheds(term, shed)
                             && if Size(shed) <= MAX_BYTES then written == shed else SavesTheVerdict(term, written)
  {
    written := term;
    if Size(written) > MAX_BYTES {
      written := ShedOutputs(written);
      ghost var shed := written;
      if Size(written) > MAX_BYTES {
        written := SaveVerdict(written);
      }
      assert Sheds(term, shed);
    }
  }
}
