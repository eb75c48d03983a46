/** Strings as sequences of characters: trimming, leading runs, decimal numerals. */
module Text {
  import opened Wrappers

  /** Unicode white space, as Go's unicode.IsSpace has it. */
  predicate IsSpace(c: char) {
    || c == ' ' || '\t' <= c <= '\r'
    || c == '\U{85}' || c == '\U{A0}' || c == '\U{1680}' || '\U{2000}' <= c <= '\U{200A}'
    || c == '\U{2028}' || c == '\U{2029}' || c == '\U{202F}' || c == '\U{205F}' || c == '\U{3000}'
  }

  function TrimLeft(s: string): (r: string)
    ensures |r| <= |s| && r == s[|s| - |r|..]
  {
    if s != "" && IsSpace(s[0]) then TrimLeft(s[1..]) else s
  }

  function TrimRight(s: string): (r: string)
    ensures |r| <= |s| && r == s[..|r|]
  {
    if s != "" && IsSpace(s[|s| - 1]) then TrimRight(s[..|s| - 1]) else s
  }

  function TrimSpace(s: string): (r: string)
    ensures |r| <= |s|
  {
    TrimRight(TrimLeft(s))
  }

  /** What is trimmed is white space, on both sides, and what is left has none there. */
  lemma TrimIsTight(s: string) returns (from: nat, end: nat)
    ensures from <= end <= |s| && TrimSpace(s) == s[from..end]
    ensures forall i | 0 <= i < from || end <= i < |s| :: IsSpace(s[i])
    ensures from < end ==> !IsSpace(s[from]) && !IsSpace(s[end - 1])
  {
    from, end := SpaceEnds(s);
    TrimIs(s, from, end);
  }

  lemma SpaceEnds(s: string) returns (from: nat, end: nat)
    ensures from <= end <= |s| && (from == end ==> end == |s|)
    ensures forall i | 0 <= i < from || end <= i < |s| :: IsSpace(s[i])
    ensures from < end ==> !IsSpace(s[from]) && !IsSpace(s[end - 1])
  {
    from := 0;
    while from < |s| && IsSpace(s[from])
      invariant from <= |s| && forall i | 0 <= i < from :: IsSpace(s[i])
    {
      from := from + 1;
    }
    end := |s|;
    if from < |s| {
      while IsSpace(s[end - 1])
        invariant from < end <= |s|
        invariant forall i | end <= i < |s| :: IsSpace(s[i])
        decreases end
      {
        end := end - 1;
      }
    }
  }

  lemma TrimIs(s: string, from: nat, end: nat)
    requires from <= end <= |s| && (from == end ==> end == |s|)
    requires forall i | 0 <= i < from || end <= i < |s| :: IsSpace(s[i])
    requires from < end ==> !IsSpace(s[from]) && !IsSpace(s[end - 1])
    ensures TrimSpace(s) == s[from..end]
  {
    LeftIsTight(s, from);
    RightOfLeft(s, s[from..], from, end);
  }

  lemma RightOfLeft(s: string, left: string, from: nat, end: nat)
    requires from <= end <= |s| && left == s[from..]
    requires forall i | end <= i < |s| :: IsSpace(s[i])
    requires from < end ==> !IsSpace(s[end - 1])
    ensures TrimRight(left) == s[from..end]
  {
    assert forall i | end - from <= i < |left| :: left[i] == s[from + i];
    assert from < end ==> left[end - from - 1] == s[end - 1];
    assert left[..end - from] == s[from..end];
    RightIsTight(left, end - from);
  }

  lemma {:induction false} LeftIsTight(s: string, k: nat)
    requires k <= |s| && (forall i | 0 <= i < k :: IsSpace(s[i])) && (k < |s| ==> !IsSpace(s[k]))
    ensures TrimLeft(s) == s[k..]
  {
    if k > 0 {
      LeftIsTight(s[1..], k - 1);
      assert s[1..][k - 1..] == s[k..];
    }
  }

  lemma {:induction false} RightIsTight(s: string, k: nat)
    requires k <= |s| && (forall i | k <= i < |s| :: IsSpace(s[i])) && (k > 0 ==> !IsSpace(s[k - 1]))
    ensures TrimRight(s) == s[..k]
    decreases |s|
  {
    if k < |s| {
      RightIsTight(s[..|s| - 1], k);
      assert s[..|s| - 1][..k] == s[..k];
    }
  }

  /** Only white space is trimmed to nothing. */
  lemma TrimKeepsInk(s: string, i: nat)
    requires i < |s| && !IsSpace(s[i])
    ensures TrimSpace(s) != ""
  {
    LeftKeepsInk(s, i);
    RightKeepsInk(TrimLeft(s), 0);
  }

  lemma {:induction false} LeftKeepsInk(s: string, i: nat)
    requires i < |s| && !IsSpace(s[i])
    ensures TrimLeft(s) != "" && !IsSpace(TrimLeft(s)[0])
  {
    if IsSpace(s[0]) {
      LeftKeepsInk(s[1..], i - 1);
    }
  }

  lemma {:induction false} RightKeepsInk(s: string, i: nat)
    requires i < |s| && !IsSpace(s[i])
    ensures TrimRight(s) != ""
  {
    if IsSpace(s[|s| - 1]) {
      RightKeepsInk(s[..|s| - 1], i);
    }
  }

  /** How many times c is repeated at the start of s. */
  function LeadingRun(s: string, c: char): (n: nat)
    ensures n <= |s| && (forall i | 0 <= i < n :: s[i] == c) && (n < |s| ==> s[n] != c)
  {
    if s != "" && s[0] == c then 1 + LeadingRun(s[1..], c) else 0
  }

  const UINT64_LIMIT: nat := 0x1_0000_0000_0000_0000

  function Digit(d: nat): char
    requires d < 10
  {
    '0' + d as char
  }

  /** The decimal numeral of n, as fmt's %d writes it. */
  function Decimal(n: nat): (s: string)
    ensures |s| > 0
  {
    if n < 10 then [Digit(n)] else Decimal(n / 10) + [Digit(n % 10)]
  }

  function DigitsValue(s: string): Option<nat> {
    if s == "" then Some(0)
    else
      var rest := DigitsValue(s[..|s| - 1]);
      var c := s[|s| - 1];
      if rest.None? || !('0' <= c <= '9') then None else Some(rest.value * 10 + (c - '0') as nat)
  }

  /** strconv.ParseUint(s, 10, 64): digits only, at least one, within 64 bits. */
  function ParseUint(s: string): Option<nat> {
    var v := DigitsValue(s);
    if s == "" || v.None? || v.value >= UINT64_LIMIT then None else v
  }

  /** Exactly the nonempty strings of digits whose value fits in 64 bits are read. */
  lemma {:induction false} DigitsAreRead(s: string)
    ensures DigitsValue(s).Some? <==> forall i | 0 <= i < |s| :: '0' <= s[i] <= '9'
    ensures ParseUint(s).Some? <==>
            s != "" && (forall i | 0 <= i < |s| :: '0' <= s[i] <= '9') && DigitsValue(s).value < UINT64_LIMIT
    ensures ParseUint(s).Some? ==> ParseUint(s) == DigitsValue(s)
  {
    if s != "" {
      DigitsAreRead(s[..|s| - 1]);
      assert s == s[..|s| - 1] + [s[|s| - 1]];
    }
  }

  lemma {:induction false} DecimalReadsBack(n: nat)
    ensures DigitsValue(Decimal(n)) == Some(n)
  {
    if n < 10 {
      assert Decimal(n)[..0] == "";
    } else {
      DecimalReadsBack(n / 10);
      assert Decimal(n)[..|Decimal(n)| - 1] == Decimal(n / 10);
    }
  }
}
