/**
 Names rewritten for Kubernetes (internal/controller/agentrun_controller.go,
 sanitizeVolumeName; internal/controller/agentworkflowrun_controller.go,
 stageAgentRunName). The hash is any function to four bytes; lowering a letter
 outside ASCII is any function on characters.
 */
module VolumeNames {
  import Text
  import Workflow
  import WorkflowSystem

  type Word = n: nat | n < 0x1_0000_0000

  /** The four-byte hash prefix of a name. */
  type Hash = string -> Word

  type Lowering = char -> char

  const LIMIT := 63

  predicate Alnum(c: char) { 'a' <= c <= 'z' || '0' <= c <= '9' }

  predicate NameChar(c: char) { Alnum(c) || c == '-' }

  /** A name the API server accepts as it is. */
  predicate IsVolumeName(s: string) {
    && 1 <= |s| <= LIMIT && (forall c | c in s :: NameChar(c))
    && Alnum(s[0]) && Alnum(s[|s| - 1])
  }

  // ----- The rewrite -----

  function Lower(low: Lowering, c: char): char {
    if 'A' <= c <= 'Z' then 'a' + (c - 'A') else if c < '\U{80}' then c else low(c)
  }

  /** Lowered, with every other character a hyphen. */
  function Mapped(low: Lowering, s: string): (r: string)
    ensures |r| == |s| && forall c | c in r :: NameChar(c)
  {
    if s == "" then ""
    else
      var c := Lower(low, s[0]);
      [if NameChar(c) then c else '-'] + Mapped(low, s[1..])
  }

  function TrimLeft(s: string): (r: string)
    ensures |r| <= |s| && (r != "" ==> r[0] != '-')
    ensures forall c | c in r :: c in s
  {
    if s != "" && s[0] == '-' then TrimLeft(s[1..]) else s
  }

  function TrimRight(s: string): (r: string)
    ensures |r| <= |s| && r == s[..|r|] && (r != "" ==> r[|r| - 1] != '-')
    ensures s != "" && s[0] != '-' ==> r != ""
  {
    if s != "" && s[|s| - 1] == '-' then TrimRight(s[..|s| - 1]) else s
  }

  function Cleaned(low: Lowering, name: string): string { TrimRight(TrimLeft(Mapped(low, name))) }

  function HexDigit(d: nat): char
    requires d < 16
  {
    if d < 10 then '0' + d as char else 'a' + (d - 10) as char
  }

  function Hex(n: nat, k: nat): (s: string)
    ensures |s| == k && forall c | c in s :: Alnum(c)
  {
    if k == 0 then "" else Hex(n / 16, k - 1) + [HexDigit(n % 16)]
  }

  function Suffix(h: Hash, name: string): string { "-" + Hex(h(name), 8) }

  predicate Untouched(low: Lowering, name: string) {
    Cleaned(low, name) == name && |name| <= LIMIT
  }

  /** What a rewritten name keeps of the original, before the hash. */
  function Stem(low: Lowering, name: string): string {
    var sanitized := if Cleaned(low, name) == "" then "x" else Cleaned(low, name);
    if |sanitized| + 9 > LIMIT then TrimRight(sanitized[..LIMIT - 9]) else sanitized
  }

  function Sanitize(low: Lowering, h: Hash, name: string): string {
    if Untouched(low, name) then name else Stem(low, name) + Suffix(h, name)
  }

  // ----- What a rewritten name is -----

  /** Letters are lowered, digits and hyphens stay, and anything else is a hyphen. */
  lemma {:induction false} MappedEach(low: Lowering, s: string, i: nat)
    requires i < |s|
    ensures 'a' <= s[i] <= 'z' || '0' <= s[i] <= '9' || s[i] == '-' ==> Mapped(low, s)[i] == s[i]
    ensures 'A' <= s[i] <= 'Z' ==> Mapped(low, s)[i] == 'a' + (s[i] - 'A')
    ensures s[i] < '\U{80}' && !('a' <= s[i] <= 'z' || '0' <= s[i] <= '9' || 'A' <= s[i] <= 'Z') ==> Mapped(low, s)[i] == '-'
    ensures s[i] >= '\U{80}' ==> Mapped(low, s)[i] == if NameChar(low(s[i])) then low(s[i]) else '-'
  {
    if i > 0 {
      MappedEach(low, s[1..], i - 1);
    }
  }

  /** The part of a mapped name between its outer hyphens. */
  ghost predicate BetweenHyphens(m: string, a: nat, b: nat) {
    && a <= b <= |m|
    && (forall i | 0 <= i < a || b <= i < |m| :: m[i] == '-')
    && (a < b ==> m[a] != '-' && m[b - 1] != '-')
  }

  /** A rewritten name is its mapped form between its outer hyphens, or an x where there is
      nothing, cut to 54 characters and freed of the hyphens that leaves at its end,
      a hyphen, and eight digits of its hash. */
  ghost predicate RewrittenAs(m: string, a: nat, b: nat, stem: string) {
    && BetweenHyphens(m, a, b)
    && if a == b then stem == "x"
       else if b - a <= 54 then stem == m[a..b]
       else exists k: nat ::
              && a < k <= a + 54 && stem == m[a..k] && m[k - 1] != '-'
              && forall i | k <= i < a + 54 :: m[i] == '-'
  }

  lemma RewrittenIs(low: Lowering, h: Hash, name: string) returns (a: nat, b: nat)
    requires name != "" && !IsVolumeName(name)
    ensures RewrittenAs(Mapped(low, name), a, b, Stem(low, name))
    ensures Sanitize(low, h, name) == Stem(low, name) + "-" + Hex(h(name), 8)
  {
    a, b := OuterHyphens(Mapped(low, name));
    TrimmedBetween(Mapped(low, name), a, b);
    StemIs(low, name, a, b);
    ExactlyValidNamesAreFixed(low, h, name);
    UntouchedIsKept(low, h, name);
    HashIsAppended(low, h, name);
  }

  lemma HashIsAppended(low: Lowering, h: Hash, name: string)
    requires !Untouched(low, name)
    ensures Sanitize(low, h, name) == Stem(low, name) + "-" + Hex(h(name), 8)
  {
    assert Stem(low, name) + ("-" + Hex(h(name), 8)) == Stem(low, name) + "-" + Hex(h(name), 8);
  }

  lemma StemIs(low: Lowering, name: string, a: nat, b: nat)
    requires BetweenHyphens(Mapped(low, name), a, b) && Cleaned(low, name) == Mapped(low, name)[a..b]
    ensures RewrittenAs(Mapped(low, name), a, b, Stem(low, name))
  {
    if b - a > 54 {
      CutStem(Mapped(low, name), a, b);
    }
  }

  lemma UntouchedIsKept(low: Lowering, h: Hash, name: string)
    ensures Untouched(low, name) ==> Sanitize(low, h, name) == name
  {
  }

  lemma OuterHyphens(m: string) returns (a: nat, b: nat)
    ensures BetweenHyphens(m, a, b) && (a == b ==> b == |m|)
  {
    a := 0;
    while a < |m| && m[a] == '-'
      invariant a <= |m| && forall i | 0 <= i < a :: m[i] == '-'
    {
      a := a + 1;
    }
    b := |m|;
    while a < b && m[b - 1] == '-'
      invariant a <= b <= |m| && (forall i | b <= i < |m| :: m[i] == '-') && (a < |m| ==> a < b)
    {
      b := b - 1;
    }
  }

  lemma TrimmedBetween(m: string, a: nat, b: nat)
    requires BetweenHyphens(m, a, b) && (a == b ==> b == |m|)
    ensures TrimRight(TrimLeft(m)) == m[a..b]
  {
    LeftIs(m, a);
    var left := m[a..];
    assert forall i | b - a <= i < |left| :: left[i] == m[a + i];
    RightIs(left, b - a);
    assert left[..b - a] == m[a..b];
  }

  lemma {:induction false} LeftIs(s: string, k: nat)
    requires k <= |s| && (forall i | 0 <= i < k :: s[i] == '-') && (k < |s| ==> s[k] != '-')
    ensures TrimLeft(s) == s[k..]
  {
    if k > 0 {
      LeftIs(s[1..], k - 1);
      assert s[1..][k - 1..] == s[k..];
    }
  }

  lemma {:induction false} RightIs(s: string, k: nat)
    requires k <= |s| && (forall i | k <= i < |s| :: s[i] == '-') && (k > 0 ==> s[k - 1] != '-')
    ensures TrimRight(s) == s[..k]
    decreases |s|
  {
    if k < |s| {
      RightIs(s[..|s| - 1], k);
      assert s[..|s| - 1][..k] == s[..k];
    }
  }

  lemma CutStem(m: string, a: nat, b: nat)
    requires BetweenHyphens(m, a, b) && b - a > 54
    ensures exists k: nat ::
              && a < k <= a + 54 && TrimRight(m[a..b][..54]) == m[a..k] && m[k - 1] != '-'
              && forall i | k <= i < a + 54 :: m[i] == '-'
  {
    var cut := m[a..b][..54];
    assert cut == m[a..a + 54] && cut[0] == m[a];
    var k := 54;
    while cut[k - 1] == '-'
      invariant 0 < k <= 54 && forall i | k <= i < 54 :: cut[i] == '-'
      decreases k
    {
      k := k - 1;
    }
    RightIs(cut, k);
    assert cut[..k] == m[a..a + k] && m[a + k - 1] == cut[k - 1];
    assert forall i | a + k <= i < a + 54 :: m[i] == cut[i - a];
  }

  // ----- Valid names are fixed, and only they -----

  lemma {:induction false} MappedFixes(low: Lowering, s: string)
    requires forall c | c in s :: NameChar(c)
    ensures Mapped(low, s) == s
  {
    if s == "" {
    } else {
      assert s[0] in s;
      assert forall c | c in s[1..] :: c in s;
      MappedFixes(low, s[1..]);
    }
  }

  lemma PrefixNameChars(s: string, t: string)
    requires t <= s && forall c | c in s :: NameChar(c)
    ensures forall c | c in t :: NameChar(c)
  {
    forall c | c in t
      ensures c in s
    {
      var i :| 0 <= i < |t| && t[i] == c;
      assert s[i] == c;
    }
  }

  lemma CleanedIsClean(low: Lowering, name: string)
    ensures var c := Cleaned(low, name);
            (forall x | x in c :: NameChar(x)) && (c != "" ==> Alnum(c[0]) && Alnum(c[|c| - 1]))
  {
    var l := TrimLeft(Mapped(low, name));
    PrefixNameChars(l, TrimRight(l));
    var c := TrimRight(l);
    if c != "" {
      assert c[0] in c && c[|c| - 1] in c;
      assert c[0] == l[0];
    }
  }

  lemma NothingToTrim(s: string)
    requires s != "" && s[0] != '-' && s[|s| - 1] != '-'
    ensures TrimRight(TrimLeft(s)) == s
  {
    assert TrimLeft(s) == s;
    assert TrimRight(s) == s;
  }

  lemma ValidIsUntouched(low: Lowering, name: string)
    requires IsVolumeName(name)
    ensures Untouched(low, name)
  {
    MappedFixes(low, name);
    NothingToTrim(name);
  }

  lemma UntouchedIsValid(low: Lowering, name: string)
    ensures Untouched(low, name) <==> name == "" || IsVolumeName(name)
  {
    CleanedIsClean(low, name);
    if IsVolumeName(name) {
      ValidIsUntouched(low, name);
    }
  }

  lemma StemIsAName(low: Lowering, name: string)
    ensures var s := Stem(low, name);
            1 <= |s| <= LIMIT - 9 && (forall c | c in s :: NameChar(c)) && Alnum(s[0])
  {
    CleanedIsClean(low, name);
    var sanitized := if Cleaned(low, name) == "" then "x" else Cleaned(low, name);
    if |sanitized| + 9 > LIMIT {
      var cut := sanitized[..LIMIT - 9];
      PrefixNameChars(sanitized, cut);
      PrefixNameChars(cut, TrimRight(cut));
      assert cut[0] != '-';
    }
  }

  /** A nonempty name always becomes one the API server accepts. */
  lemma SanitizedIsValid(low: Lowering, h: Hash, name: string)
    requires name != ""
    ensures IsVolumeName(Sanitize(low, h, name))
  {
    UntouchedIsValid(low, name);
    if !Untouched(low, name) {
      StemIsAName(low, name);
      var stem, hex := Stem(low, name), Hex(h(name), 8);
      var r := Sanitize(low, h, name);
      assert r == stem + (["-"[0]] + hex);
      assert hex[7] in hex && r[|r| - 1] == hex[7];
      forall c | c in r
        ensures NameChar(c)
      {
        assert c in stem || c == '-' || c in hex;
      }
    }
  }

  /** The names left as they are are the valid ones. */
  lemma ExactlyValidNamesAreFixed(low: Lowering, h: Hash, name: string)
    ensures Sanitize(low, h, name) == name <==> name == "" || IsVolumeName(name)
  {
    UntouchedIsValid(low, name);
    if name != "" {
      SanitizedIsValid(low, h, name);
    }
  }

  lemma SanitizingIsIdempotent(low: Lowering, h: Hash, name: string)
    ensures Sanitize(low, h, Sanitize(low, h, name)) == Sanitize(low, h, name)
  {
    if name == "" {
      ExactlyValidNamesAreFixed(low, h, name);
    } else {
      SanitizedIsValid(low, h, name);
      ExactlyValidNamesAreFixed(low, h, Sanitize(low, h, name));
    }
  }

  // ----- When two names meet -----

  function HexDigitValue(c: char): nat {
    if '0' <= c <= '9' then (c - '0') as nat else if c < 'a' then 0 else c as nat - 'a' as nat + 10
  }

  function HexValue(s: string): nat {
    if s == "" then 0 else HexValue(s[..|s| - 1]) * 16 + HexDigitValue(s[|s| - 1])
  }

  function Power16(k: nat): nat { if k == 0 then 1 else 16 * Power16(k - 1) }

  lemma {:induction false} HexReadsBack(n: nat, k: nat)
    requires n < Power16(k)
    ensures HexValue(Hex(n, k)) == n
  {
    if k == 0 {
    } else {
      HexReadsBack(n / 16, k - 1);
      assert Hex(n, k)[..k - 1] == Hex(n / 16, k - 1);
    }
  }

  lemma RewrittenMeet(low: Lowering, h: Hash, a: string, b: string)
    requires !Untouched(low, a) && !Untouched(low, b)
    ensures Sanitize(low, h, a) == Sanitize(low, h, b) <==> Stem(low, a) == Stem(low, b) && h(a) == h(b)
  {
    var sa, sb, xa, xb := Stem(low, a), Stem(low, b), Hex(h(a), 8), Hex(h(b), 8);
    assert Power16(8) == 0x1_0000_0000;
    HexReadsBack(h(a), 8);
    HexReadsBack(h(b), 8);
    SameTail(sa, sb, "-" + xa, "-" + xb);
    assert ("-" + xa)[1..] == xa && ("-" + xb)[1..] == xb;
  }

  lemma SameTail(s: string, t: string, x: string, y: string)
    requires |x| == |y|
    ensures s + x == t + y <==> s == t && x == y
  {
    if s + x == t + y {
      assert |s| == |t| && (s + x)[..|s|] == s && (t + y)[..|s|] == t;
      assert (s + x)[|s|..] == x && (t + y)[|s|..] == y;
    }
  }

  /** Two different names meet exactly when one is what the other was rewritten
      to, or both were rewritten to the same stem and their hashes collide. */
  lemma NamesMeetExactlyWhen(low: Lowering, h: Hash, a: string, b: string)
    requires a != b
    ensures Sanitize(low, h, a) == Sanitize(low, h, b) <==>
            || a == Sanitize(low, h, b) || b == Sanitize(low, h, a)
            || (!Untouched(low, a) && !Untouched(low, b) && Stem(low, a) == Stem(low, b) && h(a) == h(b))
  {
    SanitizingIsIdempotent(low, h, a);
    SanitizingIsIdempotent(low, h, b);
    if !Untouched(low, a) && !Untouched(low, b) {
      RewrittenMeet(low, h, a, b);
    }
  }

  /** So it is not injective: whatever it rewrites meets its own rewriting. */
  lemma RewrittenNamesMeetTheirImage(low: Lowering, h: Hash, name: string)
    requires name != "" && !IsVolumeName(name)
    ensures Sanitize(low, h, name) != name
    ensures Sanitize(low, h, Sanitize(low, h, name)) == Sanitize(low, h, name)
  {
    ExactlyValidNamesAreFixed(low, h, name);
    SanitizingIsIdempotent(low, h, name);
  }

  // ----- Stage names -----

  /** The name of the AgentRun of a stage. */
  function StageRunName(low: Lowering, h: Hash, run: string, stage: string): string {
    Sanitize(low, h, run + "-" + stage)
  }

  /** Two stages whose AgentRuns have the same name: their names are the same, one's
      long form is what the other's is rewritten to, or both are rewritten to the
      same stem and their hashes collide. */
  ghost predicate StagesMeet(low: Lowering, h: Hash, run: string, x: string, y: string) {
    var a, b := run + "-" + x, run + "-" + y;
    || x == y
    || a == Sanitize(low, h, b) || b == Sanitize(low, h, a)
    || (!Untouched(low, a) && !Untouched(low, b) && Stem(low, a) == Stem(low, b) && h(a) == h(b))
  }

  /** What the workflow controller relies on: the AgentRun names of the stages are
      distinct exactly when no two stages meet. */
  lemma StagesAreNameable(low: Lowering, h: Hash, run: string, stages: seq<Workflow.StageStatus>)
    ensures WorkflowSystem.Nameable(stage => StageRunName(low, h, run, stage), stages) <==>
            && |stages| < Text.UINT64_LIMIT
            && forall i, j | 0 <= i < j < |stages| :: !StagesMeet(low, h, run, stages[i].def.name, stages[j].def.name)
  {
    var n: Workflow.Namer := stage => StageRunName(low, h, run, stage);
    forall i | 0 <= i < |stages|
      ensures Workflow.NameAt(n, stages, i) != ""
    {
      SanitizedIsValid(low, h, run + "-" + stages[i].def.name);
    }
    forall i, j | 0 <= i < j < |stages|
      ensures Workflow.NameAt(n, stages, i) == Workflow.NameAt(n, stages, j) <==>
              StagesMeet(low, h, run, stages[i].def.name, stages[j].def.name)
    {
      StageNamesMeet(low, h, run, stages[i].def.name, stages[j].def.name);
    }
  }

  lemma StageNamesMeet(low: Lowering, h: Hash, run: string, x: string, y: string)
    ensures StageRunName(low, h, run, x) == StageRunName(low, h, run, y) <==> StagesMeet(low, h, run, x, y)
  {
    if x != y {
      var a, b := run + "-" + x, run + "-" + y;
      assert a[|run| + 1..] == x && b[|run| + 1..] == y;
      NamesMeetExactlyWhen(low, h, a, b);
    }
  }
}
