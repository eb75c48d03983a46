/**
 Parameters and $(scope.name) references (internal/controller/params.go):
 coerceParams, and the substitution of references in text.
 */
module Substitution {
  import opened Wrappers
  import Ordering

  datatype Scope = Agent | Workflow

  datatype Reference = Reference(scope: Scope, name: string)

  type Scopes = map<Scope, map<string, string>>

  predicate NameStart(c: char) { 'a' <= c <= 'z' || 'A' <= c <= 'Z' || c == '_' }

  predicate NamePart(c: char) { NameStart(c) || '0' <= c <= '9' }

  predicate IsName(s: string) {
    s != "" && NameStart(s[0]) && forall c | c in s :: NamePart(c)
  }

  function Opening(scope: Scope): string {
    match scope
    case Agent => "$(agent."
    case Workflow => "$(workflow."
  }

  function Spelled(r: Reference): string { Opening(r.scope) + r.name + ")" }

  // ----- Recognising a reference at the head of a text -----

  function NameRun(s: string): (n: nat)
    ensures n <= |s| && (forall c | c in s[..n] :: NamePart(c)) && (n < |s| ==> !NamePart(s[n]))
  {
    if s == "" || !NamePart(s[0]) then 0
    else
      assert forall c | c in s[..1 + NameRun(s[1..])] :: c == s[0] || c in s[1..][..NameRun(s[1..])];
      1 + NameRun(s[1..])
  }

  /** The rest of the expression after the scope: a name and the closing parenthesis. */
  function NameThenClose(scope: Scope, s: string): Option<Reference> {
    var n := NameRun(s);
    if n > 0 && NameStart(s[0]) && n < |s| && s[n] == ')' then Some(Reference(scope, s[..n])) else None
  }

  function RefAtHead(s: string): Option<Reference> {
    if Opening(Agent) <= s then NameThenClose(Agent, s[|Opening(Agent)|..])
    else if Opening(Workflow) <= s then NameThenClose(Workflow, s[|Opening(Workflow)|..])
    else None
  }

  lemma PrefixInTwo(a: string, b: string, s: string)
    ensures a + b <= s <==> a <= s && b <= s[|a|..]
  {
    if a + b <= s {
      assert a == (a + b)[..|a|] && b == (a + b)[|a|..];
      assert s[..|a + b|] == a + b;
      assert s[|a|..][..|b|] == b;
    }
    if a <= s && b <= s[|a|..] {
      assert s == a + s[|a|..];
    }
  }

  lemma RecognisesTheName(scope: Scope, t: string, r: Reference)
    ensures NameThenClose(scope, t) == Some(r) <==> r.scope == scope && IsName(r.name) && r.name + ")" <= t
  {
    var n := NameRun(t);
    if NameThenClose(scope, t) == Some(r) {
      assert t[..n][0] == t[0];
    }
    if r.scope == scope && IsName(r.name) && r.name + ")" <= t {
      NameRunOfName(t, r.name);
      assert t[..n] == t[..n + 1][..n] && t[..n + 1] == r.name + ")";
      assert t[n] == (r.name + ")")[n];
      assert t[0] == (r.name + ")")[0];
    }
  }

  /** The recogniser finds exactly what is spelled there. */
  lemma RecognisesTheSpelling(s: string, r: Reference)
    ensures RefAtHead(s) == Some(r) <==> IsName(r.name) && Spelled(r) <= s
  {
    var o := Opening(r.scope);
    assert Opening(Agent)[2] == 'a' && Opening(Workflow)[2] == 'w';
    assert Spelled(r) == o + (r.name + ")");
    PrefixInTwo(o, r.name + ")", s);
    if o <= s {
      RecognisesTheName(r.scope, s[|o|..], r);
      assert s[2] == o[2];
    }
    if Opening(Agent) <= s {
      RecognisesTheName(Agent, s[|Opening(Agent)|..], r);
    } else if Opening(Workflow) <= s {
      RecognisesTheName(Workflow, s[|Opening(Workflow)|..], r);
    }
  }

  lemma {:induction false} NameRunOfName(s: string, name: string)
    requires (forall c | c in name :: NamePart(c)) && name + ")" <= s
    ensures NameRun(s) == |name|
  {
    if name == "" {
      assert s[0] == ')';
    } else {
      assert s[0] == (name + ")")[0] && name[0] in name;
      assert (name + ")")[1..] == name[1..] + ")";
      NameRunOfName(s[1..], name[1..]);
    }
  }

  /** A dollar sign only opens a reference. */
  lemma OneDollar(r: Reference, i: nat)
    requires IsName(r.name) && i < |Spelled(r)|
    ensures Spelled(r)[i] == '$' <==> i == 0
  {
    var o := Opening(r.scope);
    if i < |o| {
      assert Spelled(r)[i] == o[i];
    } else if i < |o| + |r.name| {
      assert Spelled(r)[i] == r.name[i - |o|] && r.name[i - |o|] in r.name;
    }
  }

  lemma CharAt(s: string, i: nat, t: string)
    requires i <= |s| && t != "" && t <= s[i..]
    ensures i < |s| && s[i] == t[0]
  {
    assert s[i..][0] == t[0];
  }

  /** References do not overlap. */
  lemma NoOverlap(s: string, h: Reference, r: Reference, i: nat)
    requires IsName(h.name) && IsName(r.name) && Spelled(h) <= s
    requires 0 < i <= |s| && Spelled(r) <= s[i..]
    ensures |Spelled(h)| <= i
  {
    OneDollar(r, 0);
    CharAt(s, i, Spelled(r));
    if i < |Spelled(h)| {
      OneDollar(h, i);
    }
  }

  // ----- What substitution means -----

  predicate Resolves(scopes: Scopes, r: Reference) {
    r.scope in scopes && r.name in scopes[r.scope]
  }

  function ValueOf(scopes: Scopes, r: Reference): string {
    if Resolves(scopes, r) then scopes[r.scope][r.name] else Spelled(r)
  }

  /** Somewhere in the text the reference is spelled out. */
  ghost predicate Mentions(s: string, r: Reference) {
    IsName(r.name) && exists i :: 0 <= i <= |s| && Spelled(r) <= s[i..]
  }

  /** How far the next piece of a nonempty text reaches: a reference or one character. */
  function HeadLength(s: string): (n: nat)
    requires s != ""
    ensures 1 <= n <= |s|
  {
    var r := RefAtHead(s);
    if r.None? then 1
    else
      RecognisesTheSpelling(s, r.value);
      |Spelled(r.value)|
  }

  function HeadValue(s: string, scopes: Scopes): string
    requires s != ""
  {
    if RefAtHead(s).None? then [s[0]] else ValueOf(scopes, RefAtHead(s).value)
  }

  /** The text with each reference replaced by its value. */
  function Rendered(s: string, scopes: Scopes): string
    decreases |s|
  {
    if s == "" then "" else HeadValue(s, scopes) + Rendered(s[HeadLength(s)..], scopes)
  }

  /** The references that do not resolve, as spelled, in order of appearance. */
  function Unresolved(s: string, scopes: Scopes): seq<string>
    decreases |s|
  {
    if s == "" then []
    else
      var r := RefAtHead(s);
      (if r.None? || Resolves(scopes, r.value) then [] else [Spelled(r.value)])
      + Unresolved(s[HeadLength(s)..], scopes)
  }

  predicate NoRepeats(xs: seq<string>) { forall i, j | 0 <= i < j < |xs| :: xs[i] != xs[j] }

  method Substitute(text: string, scopes: Scopes) returns (res: Result<string, seq<string>>)
    ensures res.Ok? <==> forall r | Mentions(text, r) :: Resolves(scopes, r)
    ensures res.Ok? ==> res.value == Rendered(text, scopes)
    ensures res.Err? ==>
              && Ordering.Ascending(res.error) && NoRepeats(res.error)
              && forall r: Reference | IsName(r.name) ::
                   Spelled(r) in res.error <==> Mentions(text, r) && !Resolves(scopes, r)
  {
    if text == "" || !HasOpening(text) {
      NothingToRender(text, scopes);
      return Ok(text);
    }
    var rendered, unresolved := ReplaceAll(text, scopes);
    forall r: Reference | IsName(r.name)
      ensures Spelled(r) in unresolved <==> Mentions(text, r) && !Resolves(scopes, r)
    {
      UnresolvedAreMentioned(text, scopes, r);
    }
    if |unresolved| > 0 {
      EveryUnresolvedIsSpelled(text, scopes);
      assert unresolved[0] in unresolved;
      var names := SortAndCompact(unresolved);
      return Err(names);
    }
    return Ok(rendered);
  }

  /** One pass over the text, left to right. */
  method ReplaceAll(text: string, scopes: Scopes) returns (rendered: string, unresolved: seq<string>)
    ensures rendered == Rendered(text, scopes) && unresolved == Unresolved(text, scopes)
  {
    rendered, unresolved := "", [];
    var rest := text;
    while rest != ""
      invariant rendered + Rendered(rest, scopes) == Rendered(text, scopes)
      invariant unresolved + Unresolved(rest, scopes) == Unresolved(text, scopes)
      decreases |rest|
    {
      ghost var was, missed, text0 := rendered, unresolved, rest;
      var at := RefAtHead(rest);
      if at.None? {
        rendered, rest := rendered + [rest[0]], rest[1..];
        assert [] + Unresolved(rest, scopes) == Unresolved(rest, scopes);
      } else {
        RecognisesTheSpelling(rest, at.value);
        if !Resolves(scopes, at.value) {
          unresolved := unresolved + [Spelled(at.value)];
          Regroup(missed, [Spelled(at.value)], Unresolved(rest[|Spelled(at.value)|..], scopes));
        } else {
          assert [] + Unresolved(rest[|Spelled(at.value)|..], scopes) == Unresolved(rest[|Spelled(at.value)|..], scopes);
        }
        rendered, rest := rendered + ValueOf(scopes, at.value), rest[|Spelled(at.value)|..];
      }
      assert rest == text0[HeadLength(text0)..];
      Regroup(was, HeadValue(text0, scopes), Rendered(rest, scopes));
    }
    assert rendered + "" == rendered && unresolved + [] == unresolved;
  }

  method SortAndCompact(xs: seq<string>) returns (names: seq<string>)
    ensures Ordering.Ascending(names) && NoRepeats(names) && forall x :: x in names <==> x in xs
  {
    Ordering.SortedIsOrdered(xs);
    Ordering.CompactedIsAscending(Ordering.Sorted(xs));
    names := Ordering.Compacted(Ordering.Sorted(xs));
    forall x
      ensures x in names <==> x in xs
    {
      assert x in multiset(Ordering.Sorted(xs)) <==> x in multiset(xs);
    }
    forall i, j | 0 <= i < j < |names|
      ensures names[i] != names[j]
    {
      Ordering.AscendingHasNoRepeats(names, i, j);
    }
  }

  /** strings.Contains(text, "$("). */
  predicate HasOpening(s: string) {
    exists i :: 0 <= i < |s| - 1 && s[i] == '$' && s[i + 1] == '('
  }

  lemma MentionOpens(s: string, r: Reference)
    requires Mentions(s, r)
    ensures HasOpening(s)
  {
    var i :| 0 <= i <= |s| && Spelled(r) <= s[i..];
    SpelledOpens(r);
    CharAt(s, i, Spelled(r));
    assert s[i + 1] == s[i..][1] == Spelled(r)[1];
  }

  lemma SpelledOpens(r: Reference)
    ensures |Spelled(r)| > 2 && Spelled(r)[0] == '$' && Spelled(r)[1] == '('
  {
    assert Spelled(r)[0] == Opening(r.scope)[0] && Spelled(r)[1] == Opening(r.scope)[1];
  }

  lemma HeadOpens(s: string)
    requires RefAtHead(s).Some?
    ensures HasOpening(s)
  {
    var r := RefAtHead(s).value;
    RecognisesTheSpelling(s, r);
    assert s[0..] == s;
    MentionOpens(s, r);
  }

  /** The fast path is sound: without an opening there is nothing to do. */
  lemma {:induction false} NothingToRender(s: string, scopes: Scopes)
    requires !HasOpening(s)
    ensures Rendered(s, scopes) == s && Unresolved(s, scopes) == [] && forall r :: !Mentions(s, r)
    decreases |s|
  {
    forall r
      ensures !Mentions(s, r)
    {
      if Mentions(s, r) {
        MentionOpens(s, r);
      }
    }
    if s != "" {
      if RefAtHead(s).Some? {
        HeadOpens(s);
        assert false;
      }
      assert !HasOpening(s[1..]) by {
        assert forall i | 0 <= i < |s| - 1 :: s[1..][i] == s[i + 1];
      }
      NothingToRender(s[1..], scopes);
    }
  }

  lemma MentionInTail(s: string, r: Reference, step: nat, i: nat)
    requires IsName(r.name) && step <= i <= |s| && Spelled(r) <= s[i..]
    ensures Mentions(s[step..], r)
  {
    assert s[step..][i - step..] == s[i..];
  }

  lemma MentionOfTail(s: string, r: Reference, step: nat)
    requires step <= |s| && Mentions(s[step..], r)
    ensures Mentions(s, r)
  {
    var i :| 0 <= i <= |s[step..]| && Spelled(r) <= s[step..][i..];
    assert s[step..][i..] == s[step + i..];
  }

  /** Where the head is not a reference, all mentions are in the tail. */
  lemma MentionsAfterText(s: string, r: Reference)
    requires s != "" && IsName(r.name) && RefAtHead(s).None?
    ensures Mentions(s, r) <==> Mentions(s[1..], r)
  {
    RecognisesTheSpelling(s, r);
    assert s[0..] == s;
    if Mentions(s, r) {
      var i :| 0 <= i <= |s| && Spelled(r) <= s[i..];
      MentionInTail(s, r, 1, i);
    }
    if Mentions(s[1..], r) {
      MentionOfTail(s, r, 1);
    }
  }

  /** Where the head is one, they are it and those after it. */
  lemma MentionsAfterReference(s: string, h: Reference, r: Reference)
    requires RefAtHead(s) == Some(h) && IsName(r.name)
    ensures |Spelled(h)| <= |s| && (Mentions(s, r) <==> r == h || Mentions(s[|Spelled(h)|..], r))
  {
    RecognisesTheSpelling(s, h);
    RecognisesTheSpelling(s, r);
    var step := |Spelled(h)|;
    assert s[0..] == s;
    if Mentions(s[step..], r) {
      MentionOfTail(s, r, step);
    }
    if Mentions(s, r) && r != h {
      var i :| 0 <= i <= |s| && Spelled(r) <= s[i..];
      NoOverlap(s, h, r, i);
      MentionInTail(s, r, step, i);
    }
  }

  lemma {:induction false} UnresolvedAreMentioned(s: string, scopes: Scopes, r: Reference)
    requires IsName(r.name)
    ensures Spelled(r) in Unresolved(s, scopes) <==> Mentions(s, r) && !Resolves(scopes, r)
    decreases |s|
  {
    if s == "" {
      assert |Spelled(r)| > 0;
    } else {
      var at := RefAtHead(s);
      if at.None? {
        MentionsAfterText(s, r);
        UnresolvedAreMentioned(s[1..], scopes, r);
      } else {
        RecognisesTheSpelling(s, at.value);
        MentionsAfterReference(s, at.value, r);
        UnresolvedAreMentioned(s[|Spelled(at.value)|..], scopes, r);
        if Spelled(r) == Spelled(at.value) {
          RecognisesTheSpelling(s, r);
        }
      }
    }
  }

  lemma {:induction false} EveryUnresolvedIsSpelled(s: string, scopes: Scopes)
    ensures forall x | x in Unresolved(s, scopes) :: exists r: Reference :: IsName(r.name) && x == Spelled(r)
    decreases |s|
  {
    if s != "" {
      var at := RefAtHead(s);
      if at.None? {
        EveryUnresolvedIsSpelled(s[1..], scopes);
      } else {
        RecognisesTheSpelling(s, at.value);
        EveryUnresolvedIsSpelled(s[|Spelled(at.value)|..], scopes);
      }
    }
  }

  lemma MentionedAtHead(s: string, r: Reference)
    requires IsName(r.name) && Spelled(r) <= s
    ensures Mentions(s, r)
  {
    assert s[0..] == s;
  }

  /** Text that spells no reference is its own rendering, whatever else it looks like. */
  lemma {:induction false} TextIsLeftAlone(s: string, scopes: Scopes)
    requires forall r :: !Mentions(s, r)
    ensures Rendered(s, scopes) == s && Unresolved(s, scopes) == []
    decreases |s|
  {
    if s != "" {
      if RefAtHead(s).Some? {
        var r := RefAtHead(s).value;
        RecognisesTheSpelling(s, r);
        MentionedAtHead(s, r);
        assert false;
      }
      forall r
        ensures !Mentions(s[1..], r)
      {
        if Mentions(s[1..], r) {
          MentionOfTail(s, r, 1);
        }
      }
      TextIsLeftAlone(s[1..], scopes);
    }
  }

  /** The two spellings there are. */
  lemma SpelledAs(name: string)
    ensures Spelled(Reference(Agent, name)) == "$(agent." + name + ")"
    ensures Spelled(Reference(Workflow, name)) == "$(workflow." + name + ")"
  {
  }

  /** One pass: around any reference the text is rendered on its own, and the
      value goes in as it is, whatever it looks like. */
  lemma {:induction false} ValuesAreNotRescanned(pre: string, r: Reference, post: string, scopes: Scopes)
    requires IsName(r.name)
    ensures Rendered(pre + Spelled(r) + post, scopes) ==
            Rendered(pre, scopes) + ValueOf(scopes, r) + Rendered(post, scopes)
    decreases |pre|
  {
    var s := pre + Spelled(r) + post;
    if pre == "" {
      assert s == Spelled(r) + post;
      RecognisesTheSpelling(s, r);
      assert s[|Spelled(r)|..] == post;
      assert "" + ValueOf(scopes, r) == ValueOf(scopes, r);
    } else {
      HeadOfThePrefix(pre, r, post);
      var n, value := HeadLength(pre), HeadValue(pre, scopes);
      assert s[0] == pre[0] && HeadLength(s) == n && HeadValue(s, scopes) == value;
      TailOfTheRest(pre, r, post, n);
      ValuesAreNotRescanned(pre[n..], r, post, scopes);
      Regroup(value, Rendered(pre[n..], scopes) + ValueOf(scopes, r), Rendered(post, scopes));
      Regroup(value, Rendered(pre[n..], scopes), ValueOf(scopes, r));
    }
  }

  lemma TailOfTheRest(pre: string, r: Reference, post: string, n: nat)
    requires n <= |pre|
    ensures (pre + Spelled(r) + post)[n..] == pre[n..] + Spelled(r) + post
  {
  }

  /** A reference that follows does not change what the head of a text is. */
  lemma HeadOfThePrefix(pre: string, r: Reference, post: string)
    requires pre != "" && IsName(r.name)
    ensures RefAtHead(pre + Spelled(r) + post) == RefAtHead(pre)
  {
    var s := pre + Spelled(r) + post;
    assert s == pre + (Spelled(r) + post);
    if RefAtHead(s).Some? {
      var h := RefAtHead(s).value;
      RecognisesTheSpelling(s, h);
      RecognisesTheSpelling(pre, h);
      assert s[|pre|..] == Spelled(r) + post;
      NoOverlap(s, h, r, |pre|);
      assert Spelled(h) == s[..|Spelled(h)|] == pre[..|Spelled(h)|];
    } else if RefAtHead(pre).Some? {
      var h := RefAtHead(pre).value;
      RecognisesTheSpelling(pre, h);
      PrefixOfMore(Spelled(h), pre, Spelled(r) + post);
      RecognisesTheSpelling(s, h);
    }
  }

  lemma PrefixOfMore(a: string, b: string, c: string)
    requires a <= b
    ensures a <= b + c
  {
  }

  // ----- Where the values come from -----

  datatype ParamType = NumberParam | BooleanParam | StringParam

  datatype Param = Param(name: string, typ: ParamType, default: string)

  datatype Json = IntValue(i: int) | FloatValue(f: real) | BoolValue(b: bool) | TextValue(s: string)

  /** strconv.ParseInt, ParseFloat and ParseBool, and stringifyJSON. */
  datatype Readers = Readers(
    parseInt: string -> Option<int>,
    parseFloat: string -> Option<real>,
    parseBool: string -> Option<bool>,
    stringify: Json -> string)

  function Effective(p: Param, supplied: map<string, string>): string {
    if p.name in supplied then supplied[p.name] else p.default
  }

  function Coerce(rd: Readers, typ: ParamType, value: string): Option<Json> {
    match typ
    case NumberParam =>
      if rd.parseInt(value).Some? then Some(IntValue(rd.parseInt(value).value))
      else if rd.parseFloat(value).Some? then Some(FloatValue(rd.parseFloat(value).value))
      else None
    case BooleanParam => if rd.parseBool(value).Some? then Some(BoolValue(rd.parseBool(value).value)) else None
    case StringParam => Some(TextValue(value))
  }

  /** A supplied value stands for the default, even if it is empty. A number is an integer
      if it reads as one and otherwise a fraction, a boolean is what reads as one, and
      a string is itself. */
  lemma CoercedByItsType(rd: Readers, p: Param, supplied: map<string, string>, value: string)
    ensures p.name in supplied ==> Effective(p, supplied) == supplied[p.name]
    ensures p.name !in supplied ==> Effective(p, supplied) == p.default
    ensures Coerce(rd, StringParam, value) == Some(TextValue(value))
    ensures Coerce(rd, BooleanParam, value).Some? <==> rd.parseBool(value).Some?
    ensures rd.parseBool(value).Some? ==> Coerce(rd, BooleanParam, value) == Some(BoolValue(rd.parseBool(value).value))
    ensures rd.parseInt(value).Some? ==> Coerce(rd, NumberParam, value) == Some(IntValue(rd.parseInt(value).value))
    ensures rd.parseInt(value).None? ==>
              Coerce(rd, NumberParam, value) ==
              if rd.parseFloat(value).Some? then Some(FloatValue(rd.parseFloat(value).value)) else None
  {
  }

  /** The parameter is unset, or its value is of its type. */
  predicate Coerces(rd: Readers, supplied: map<string, string>, p: Param) {
    Effective(p, supplied) == "" || Coerce(rd, p.typ, Effective(p, supplied)).Some?
  }

  ghost predicate Declares(decls: seq<Param>, name: string) {
    exists p :: p in decls && p.name == name
  }

  ghost predicate IsSet(decls: seq<Param>, supplied: map<string, string>, name: string) {
    exists p :: p in decls && p.name == name && Effective(p, supplied) != ""
  }

  predicate DistinctNames(decls: seq<Param>) {
    forall i, j | 0 <= i < j < |decls| :: decls[i].name != decls[j].name
  }

  type Values = (map<string, Json>, map<string, string>)

  function Added(rd: Readers, supplied: map<string, string>, p: Param, v: Values): Values {
    var value := Effective(p, supplied);
    var cv := Coerce(rd, p.typ, value);
    if value == "" || cv.None? then (v.0, v.1[p.name := ""])
    else (v.0[p.name := cv.value], v.1[p.name := rd.stringify(cv.value)])
  }

  function AllAdded(rd: Readers, supplied: map<string, string>, decls: seq<Param>): Values {
    if decls == [] then (map[], map[])
    else Added(rd, supplied, decls[|decls| - 1], AllAdded(rd, supplied, decls[..|decls| - 1]))
  }

  method CoerceParams(rd: Readers, decls: seq<Param>, supplied: map<string, string>)
    returns (res: Result<Values, Param>)
    ensures res.Ok? <==> forall p | p in decls :: Coerces(rd, supplied, p)
    ensures res.Err? ==> res.error in decls && !Coerces(rd, supplied, res.error)
    ensures res.Ok? ==> res.value == AllAdded(rd, supplied, decls)
  {
    var values: Values := (map[], map[]);
    var i := 0;
    while i < |decls|
      invariant i <= |decls| && forall p | p in decls[..i] :: Coerces(rd, supplied, p)
      invariant values == AllAdded(rd, supplied, decls[..i])
    {
      assert decls[..i + 1][..i] == decls[..i] && decls[i] in decls;
      var next := CoerceParam(rd, supplied, decls[i], values);
      if next.None? {
        return Err(decls[i]);
      }
      values := next.value;
      i := i + 1;
    }
    assert decls[..i] == decls;
    return Ok(values);
  }

  method CoerceParam(rd: Readers, supplied: map<string, string>, p: Param, values: Values) returns (next: Option<Values>)
    ensures next.Some? <==> Coerces(rd, supplied, p)
    ensures next.Some? ==> next.value == Added(rd, supplied, p, values)
  {
    var (coerced, strs) := values;
    var value := Effective(p, supplied);
    if value == "" {
      strs := strs[p.name := ""];
      return Some((coerced, strs));
    }
    var cv := Coerce(rd, p.typ, value);
    if cv.None? {
      return None;
    }
    coerced := coerced[p.name := cv.value];
    strs := strs[p.name := rd.stringify(cv.value)];
    return Some((coerced, strs));
  }

  /** Every declared parameter renders; those with a value are also passed on. */
  lemma {:induction false} ValuesAreOfTheDeclared(
    rd: Readers, supplied: map<string, string>, decls: seq<Param>, name: string)
    requires forall p | p in decls :: Coerces(rd, supplied, p)
    ensures name in AllAdded(rd, supplied, decls).1 <==> Declares(decls, name)
    ensures name in AllAdded(rd, supplied, decls).0 <==> IsSet(decls, supplied, name)
  {
    if decls == [] {
    } else {
      var rest, p := decls[..|decls| - 1], decls[|decls| - 1];
      ValuesAreOfTheDeclared(rd, supplied, rest, name);
      assert decls == rest + [p];
      OneMoreDeclared(rest, p, supplied, name);
      assert p in decls;
    }
  }

  /** A parameter declared once has its own coerced value, rendered by the one rule. */
  lemma {:induction false} ValuesAreCoerced(rd: Readers, supplied: map<string, string>, decls: seq<Param>, k: nat)
    requires DistinctNames(decls) && k < |decls| && Coerces(rd, supplied, decls[k])
    ensures var v, p := AllAdded(rd, supplied, decls), decls[k];
            if Effective(p, supplied) == "" then p.name in v.1 && v.1[p.name] == ""
            else
              && p.name in v.0 && Some(v.0[p.name]) == Coerce(rd, p.typ, Effective(p, supplied))
              && p.name in v.1 && v.1[p.name] == rd.stringify(v.0[p.name])
  {
    if k < |decls| - 1 {
      var rest := decls[..|decls| - 1];
      ValuesAreCoerced(rd, supplied, rest, k);
      assert decls[|decls| - 1].name != decls[k].name && rest[k] == decls[k];
    }
  }

  lemma OneMoreDeclared(decls: seq<Param>, p: Param, supplied: map<string, string>, n: string)
    ensures Declares(decls + [p], n) <==> Declares(decls, n) || n == p.name
    ensures IsSet(decls + [p], supplied, n) <==> IsSet(decls, supplied, n) || (n == p.name && Effective(p, supplied) != "")
  {
    assert p in decls + [p];
    assert forall q | q in decls :: q in decls + [p];
  }

  /** The scopes of a guide, which resolves workflow parameters from the
      declarations, and of stage text, which resolves them from the values
      stamped on the run. */
  function GuideScopes(strs: map<string, string>): Scopes { map[Workflow := strs] }

  function StageScopes(rd: Readers, coerced: map<string, Json>): Scopes {
    map[Workflow := map n | n in coerced :: rd.stringify(coerced[n])]
  }

  /** In the guide only a reference to an undeclared parameter fails; in stage
      text one to a declared parameter fails too, exactly when it is unset. */
  lemma UnsetResolvesOnlyInTheGuide(rd: Readers, supplied: map<string, string>, decls: seq<Param>, name: string)
    requires forall p | p in decls :: Coerces(rd, supplied, p)
    ensures var v, r := AllAdded(rd, supplied, decls), Reference(Workflow, name);
            && (Resolves(GuideScopes(v.1), r) <==> Declares(decls, name))
            && (Resolves(StageScopes(rd, v.0), r) <==> IsSet(decls, supplied, name))
  {
    ValuesAreOfTheDeclared(rd, supplied, decls, name);
  }
}
