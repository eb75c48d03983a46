/**
 File mounts (internal/controller/agentrun_controller.go, validateFileMounts,
 pathsCollide, isAncestorOrEqual): paths compared as strings, meant as places
 in a tree.
 */
module FileMounts {
  import opened Wrappers

  // ----- Paths -----

  /** The names between slashes. */
  function Split(s: string): (parts: seq<string>)
    ensures parts != [] && forall p | p in parts :: '/' !in p
  {
    if s == "" then [""]
    else if s[0] == '/' then [""] + Split(s[1..])
    else
      var rest := Split(s[1..]);
      [[s[0]] + rest[0]] + rest[1..]
  }

  predicate IsAbs(s: string) { s != "" && s[0] == '/' }

  predicate Plain(part: string) { part != "" && part != "." && part != ".." && '/' !in part }

  predicate AllPlain(segs: seq<string>) { forall s | s in segs :: Plain(s) }

  /** Where a path leads from the root: empty names and dots stay, two dots go up. */
  function Walk(at: seq<string>, parts: seq<string>): (segs: seq<string>)
    requires AllPlain(at) && forall p | p in parts :: '/' !in p
    ensures AllPlain(segs)
    decreases |parts|
  {
    if parts == [] then at
    else
      var p := parts[0];
      var next :=
        if p == "" || p == "." then at
        else if p == ".." then if at == [] then [] else at[..|at| - 1]
        else at + [p];
      Walk(next, parts[1..])
  }

  /** The place an absolute path names. */
  function Place(s: string): (segs: seq<string>)
    ensures AllPlain(segs)
  {
    Walk([], Split(s))
  }

  function Slashed(segs: seq<string>): string {
    if segs == [] then "" else "/" + segs[0] + Slashed(segs[1..])
  }

  /** The cleaned spelling of a place. */
  function Print(segs: seq<string>): string { if segs == [] then "/" else Slashed(segs) }

  /** path.Clean, on absolute paths. */
  function Clean(s: string): string { Print(Place(s)) }

  predicate Prefix(a: string, b: string) { a <= b }

  predicate IsAncestorOrEqual(ancestor: string, p: string) {
    ancestor == p || ancestor == "/" || Prefix(ancestor + "/", p)
  }

  predicate PathsCollide(a: string, b: string) {
    IsAncestorOrEqual(a, b) || IsAncestorOrEqual(b, a)
  }

  // ----- Cleaning is idempotent: a printed place reads back as itself -----

  lemma {:induction false} SplitAfterName(x: string, s: string)
    requires '/' !in x && (s == "" || s[0] == '/')
    ensures Split(x + s) == [x] + if s == "" then [] else Split(s[1..])
  {
    if x == "" {
      assert x + s == s;
    } else {
      assert (x + s)[1..] == x[1..] + s;
      assert x[0] in x;
      SplitAfterName(x[1..], s);
      assert [x[0]] + x[1..] == x;
    }
  }

  lemma {:induction false} SplitOfSlashed(segs: seq<string>)
    requires AllPlain(segs)
    ensures Split(Slashed(segs)) == [""] + segs
  {
    if segs == [] {
    } else {
      var s := Slashed(segs[1..]);
      assert segs[0] in segs;
      assert Slashed(segs)[1..] == segs[0] + s;
      SplitAfterName(segs[0], s);
      SplitOfSlashed(segs[1..]);
      if segs[1..] == [] {
        assert segs == [segs[0]];
      } else {
        SplitAfterSlash(s, segs[1..]);
        assert segs == [segs[0]] + segs[1..];
      }
    }
  }

  lemma SplitAfterSlash(s: string, segs: seq<string>)
    requires s != "" && s[0] == '/' && Split(s) == [""] + segs
    ensures Split(s[1..]) == segs
  {
    assert ([""] + Split(s[1..]))[1..] == Split(s[1..]) && ([""] + segs)[1..] == segs;
  }

  lemma {:induction false} WalkDown(at: seq<string>, segs: seq<string>)
    requires AllPlain(at) && AllPlain(segs)
    ensures Walk(at, segs) == at + segs
    decreases |segs|
  {
    if segs == [] {
    } else {
      assert segs[0] in segs;
      WalkDown(at + [segs[0]], segs[1..]);
      assert at + [segs[0]] + segs[1..] == at + segs;
    }
  }

  lemma PlaceReadsBack(segs: seq<string>)
    requires AllPlain(segs)
    ensures Place(Print(segs)) == segs
  {
    if segs == [] {
      assert Split("/") == ["", ""];
    } else {
      SplitOfSlashed(segs);
      WalkDown([], segs);
      assert ([""] + segs)[1..] == segs && [] + segs == segs;
    }
  }

  lemma CleaningIsIdempotent(s: string)
    ensures Clean(Clean(s)) == Clean(s) && Place(Clean(s)) == Place(s)
  {
    PlaceReadsBack(Place(s));
  }

  // ----- What place a spelling names -----

  function Joined(parts: seq<string>): string
    requires parts != []
  {
    if |parts| == 1 then parts[0] else parts[0] + "/" + Joined(parts[1..])
  }

  /** Splitting loses nothing. */
  lemma {:induction false} SplitRebuilds(s: string)
    ensures Joined(Split(s)) == s
  {
    if s != "" {
      SplitRebuilds(s[1..]);
      var rest := Split(s[1..]);
      if s[0] == '/' {
        assert ([""] + rest)[1..] == rest;
        assert s == "/" + s[1..];
      } else {
        var parts := [[s[0]] + rest[0]] + rest[1..];
        assert parts[1..] == rest[1..] && s == [s[0]] + s[1..];
        if |rest| > 1 {
          assert Joined(rest) == rest[0] + "/" + Joined(rest[1..]);
          assert [s[0]] + (rest[0] + "/" + Joined(rest[1..])) == [s[0]] + rest[0] + "/" + Joined(rest[1..]);
        }
      }
    }
  }

  lemma {:induction false} SplitLast(s: string, x: string)
    requires '/' !in x
    ensures Split(s + "/" + x) == Split(s) + [x]
  {
    if s == "" {
      assert s + "/" + x == "/" + x && ("/" + x)[1..] == x;
      SplitAfterName(x, "");
      assert x + "" == x;
    } else {
      assert (s + "/" + x)[1..] == s[1..] + "/" + x;
      SplitLast(s[1..], x);
    }
  }

  lemma {:induction false} WalkOn(at: seq<string>, parts: seq<string>, more: seq<string>)
    requires AllPlain(at) && (forall p | p in parts :: '/' !in p) && (forall p | p in more :: '/' !in p)
    ensures forall p | p in parts + more :: '/' !in p
    ensures Walk(at, parts + more) == Walk(Walk(at, parts), more)
    decreases |parts|
  {
    if parts == [] {
      assert parts + more == more;
    } else {
      var next := Walk(at, [parts[0]]);
      assert [parts[0]][1..] == [] && (parts + more)[1..] == parts[1..] + more;
      assert Walk(at, [parts[0]]) == Walk(next, []);
      assert Walk(at, parts) == Walk(next, parts[1..]);
      assert (parts + more)[0] == parts[0] && Walk(at, parts + more) == Walk(next, (parts + more)[1..]);
      WalkOn(next, parts[1..], more);
    }
  }

  /** One more name leads down to it, "." and the empty name lead nowhere, and ".."
      leads up, but not above the root. */
  lemma PlaceOfOneMore(p: string, x: string)
    ensures Place(p + "/.") == Place(p + "/") == Place(p)
    ensures Place(p + "/..") == if Place(p) == [] then [] else Place(p)[..|Place(p)| - 1]
    ensures Plain(x) ==> Place(p + "/" + x) == Place(p) + [x]
    ensures Place("") == []
  {
    assert p + "/" + "" == p + "/" && p + "/" + "." == p + "/." && p + "/" + ".." == p + "/..";
    OneMoreName(p, "");
    OneMoreName(p, ".");
    OneMoreName(p, "..");
    if Plain(x) {
      OneMoreName(p, x);
    }
    assert Split("") == [""] && [""][1..] == [];
  }

  lemma OneMoreName(p: string, x: string)
    requires '/' !in x
    ensures Place(p + "/" + x) == Walk(Place(p), [x])
  {
    SplitLast(p, x);
    WalkOn([], Split(p), [x]);
  }

  /** What follows a slash is walked from where the path had led. */
  lemma {:induction false} SplitJoin(s: string, r: string)
    requires r != "" && r[0] == '/'
    ensures Split(s + r) == Split(s) + Split(r[1..])
  {
    if s == "" {
      assert s + r == r;
    } else {
      assert (s + r)[1..] == s[1..] + r;
      SplitJoin(s[1..], r);
    }
  }

  /** A detour, down to a name and up again, names the same place. */
  lemma DetoursComeBack(q: string, x: string, r: string)
    requires Plain(x) && (r == "" || r[0] == '/')
    ensures Place(q + "/" + x + "/.." + r) == Place(q + r)
  {
    PlaceOfOneMore(q, x);
    PlaceOfOneMore(q + "/" + x, x);
    if r == "" {
      assert q + r == q && q + "/" + x + "/.." + r == q + "/" + x + "/..";
    } else {
      SplitJoin(q, r);
      SplitJoin(q + "/" + x + "/..", r);
      WalkOn([], Split(q), Split(r[1..]));
      WalkOn([], Split(q + "/" + x + "/.."), Split(r[1..]));
    }
  }

  // ----- The string test is the tree test -----

  lemma FirstName(x: string, s: string, y: string, t: string)
    requires '/' !in x && '/' !in y && (s == "" || s[0] == '/') && (t == "" || t[0] == '/')
    ensures x + s == y + t <==> x == y && s == t
    ensures s != "" ==> (x + s <= y + t <==> x == y && s <= t)
  {
    var l, r := x + s, y + t;
    if l == r || (s != "" && l <= r) {
      SameFirstName(x, s, y, t);
      assert l[|x|..] == s && r[|x|..] == t;
    }
  }

  lemma SameFirstName(x: string, s: string, y: string, t: string)
    requires '/' !in x && '/' !in y && (s == "" || s[0] == '/') && (t == "" || t[0] == '/')
    requires x + s == y + t || (s != "" && x + s <= y + t)
    ensures x == y
  {
    var l, r := x + s, y + t;
    assert s != "" ==> l[|x|] == s[0];
    assert t != "" ==> r[|y|] == t[0];
    assert forall i | 0 <= i < |x| :: l[i] == x[i] && x[i] in x;
    assert forall i | 0 <= i < |y| :: r[i] == y[i] && y[i] in y;
    assert |x| == |y|;
    assert l[..|x|] == x && r[..|x|] == y;
  }

  /** One name deeper on both sides. */
  lemma OneDeeper(x: string, s: string, y: string, t: string)
    requires '/' !in x && '/' !in y && (s == "" || s[0] == '/') && (t == "" || t[0] == '/')
    ensures "/" + x + s == "/" + y + t <==> x == y && s == t
    ensures "/" + x + s + "/" <= "/" + y + t <==> x == y && s + "/" <= t
  {
    FirstName(x, s, y, t);
    FirstName(x, s + "/", y, t);
    AfterSlash(x + s, y + t);
    AfterSlash(x + (s + "/"), y + t);
    assert "/" + x + s == "/" + (x + s) && "/" + y + t == "/" + (y + t);
    assert "/" + x + s + "/" == "/" + (x + (s + "/"));
  }

  lemma {:induction false} SlashedPrefix(a: seq<string>, b: seq<string>)
    requires AllPlain(a) && AllPlain(b)
    ensures Slashed(a) == Slashed(b) || Slashed(a) + "/" <= Slashed(b) <==> a <= b
  {
    if a == [] {
      if b != [] {
        assert Slashed(b)[0] == '/';
      }
    } else if b == [] {
      assert Slashed(a) != "";
    } else {
      SlashedPrefix(a[1..], b[1..]);
      assert a[0] in a && b[0] in b;
      OneDeeper(a[0], Slashed(a[1..]), b[0], Slashed(b[1..]));
      HeadAndTail(a, b);
    }
  }

  lemma AfterSlash(a: string, b: string)
    ensures "/" + a == "/" + b <==> a == b
    ensures "/" + a <= "/" + b <==> a <= b
  {
    assert ("/" + a)[1..] == a && ("/" + b)[1..] == b;
    if "/" + a <= "/" + b {
      assert ("/" + b)[..1 + |a|][1..] == b[..|a|];
    }
  }

  lemma HeadAndTail(a: seq<string>, b: seq<string>)
    requires a != [] && b != []
    ensures a <= b <==> a[0] == b[0] && a[1..] <= b[1..]
  {
    if a <= b {
      assert b[..|a|] == a && b[1..][..|a| - 1] == a[1..];
    }
    if a[0] == b[0] && a[1..] <= b[1..] {
      assert a == [a[0]] + a[1..] && b == [b[0]] + b[1..];
    }
  }

  lemma SlashedIsNotRoot(segs: seq<string>)
    requires AllPlain(segs) && segs != []
    ensures Slashed(segs) != "/" && !("//" <= Slashed(segs)) && |Slashed(segs)| >= 2
  {
    assert segs[0] in segs;
    assert Slashed(segs)[1] == segs[0][0];
    assert segs[0][0] in segs[0];
    assert "//"[1] == '/';
  }

  /** On cleaned paths the string comparison says whether one place is, or lies
      above, the other; the root lies above everything. */
  lemma AncestorsAreSegmentPrefixes(a: seq<string>, b: seq<string>)
    requires AllPlain(a) && AllPlain(b)
    ensures IsAncestorOrEqual(Print(a), Print(b)) <==> a <= b
  {
    SlashedPrefix(a, b);
    if a != [] {
      SlashedIsNotRoot(a);
    }
  }

  // ----- Validation -----

  /** The skills directory and its staging area, the parameter file's directory,
      the workspace, the scratch directory, the service-account token. */
  const RESERVED_PLACES: seq<seq<string>> :=
    [["opt", "skills"], ["opt", "skills-src"], ["run", "konveyor"], ["workspace"], ["tmp"],
     ["var", "run", "secrets", "kubernetes.io", "serviceaccount"]]

  const RESERVED: seq<string> := Printed(RESERVED_PLACES)

  function Printed(places: seq<seq<string>>): (r: seq<string>)
    ensures |r| == |places| && forall i :: 0 <= i < |r| ==> r[i] == Print(places[i])
  {
    if places == [] then [] else [Print(places[0])] + Printed(places[1..])
  }

  datatype FileMount = FileMount(secretName: string, configMapName: string, mountPath: string, items: seq<string>)

  datatype Refusal =
    | NotOneSource(mount: FileMount)
    | NotAbsolute(mount: FileMount)
    | CollidesWithMount(mount: FileMount, previous: string)
    | BadItem(mount: FileMount, item: string)
    | CollidesWithReserved(mount: FileMount, reserved: string)

  predicate OneSource(m: FileMount) {
    (m.secretName != "" && m.configMapName == "") || (m.secretName == "" && m.configMapName != "")
  }

  predicate ItemFits(item: string) { item != "" && !IsAbs(item) && ".." !in Split(item) }

  /** An item's path is relative, and no name of it is "..". */
  lemma ItemFitsExactlyWhen(item: string)
    ensures ItemFits(item) <==>
            item != "" && item[0] != '/' && !exists a: string, b: string :: NameBetween(item, a, "..", b)
  {
    NamesAreBetweenSlashes(item, "..");
  }

  /** A name is what stands between slashes, or a slash and an end. */
  predicate NameBetween(s: string, a: string, x: string, b: string) {
    s == a + x + b && (a == "" || a[|a| - 1] == '/') && (b == "" || b[0] == '/')
  }

  lemma NamesAreBetweenSlashes(s: string, x: string)
    requires '/' !in x
    ensures x in Split(s) <==> exists a: string, b: string :: NameBetween(s, a, x, b)
  {
    if x in Split(s) {
      var a, b := FindName(s, x);
      assert NameBetween(s, a, x, b);
    }
    if a: string, b: string :| NameBetween(s, a, x, b) {
      NameIsFound(a, x, b);
    }
  }

  lemma {:induction false} FindName(s: string, x: string) returns (a: string, b: string)
    requires '/' !in x && x in Split(s)
    ensures NameBetween(s, a, x, b)
    decreases |s|
  {
    if '/' in s {
      var i := FirstSlash(s);
      var y, r := s[..i], s[i + 1..];
      SplitAtSlash(s, i);
      if x == y {
        a, b := "", s[i..];
      } else {
        assert x in Split(r);
        var front, back := FindName(r, x);
        OneNameBefore(s, y, front, x, back);
        a, b := y + "/" + front, back;
      }
    } else {
      SplitAfterName(s, "");
      assert s + "" == s;
      a, b := "", "";
    }
  }

  lemma CutAt(s: string, i: nat)
    requires i < |s| && s[i] == '/'
    ensures s == s[..i] + s[i..] && s[i..][1..] == s[i + 1..] && s == s[..i] + "/" + s[i + 1..]
  {
  }

  lemma SplitAtSlash(s: string, i: nat)
    requires i < |s| && s[i] == '/' && '/' !in s[..i]
    ensures Split(s) == [s[..i]] + Split(s[i + 1..])
    ensures s == s[..i] + "/" + s[i + 1..] && s == s[..i] + s[i..]
  {
    CutAt(s, i);
    SplitAfterName(s[..i], s[i..]);
  }

  lemma OneNameBefore(s: string, y: string, front: string, x: string, back: string)
    requires s == y + "/" + (front + x + back) && (front == "" || front[|front| - 1] == '/')
    ensures s == (y + "/" + front) + x + back && (y + "/" + front)[|y + "/" + front| - 1] == '/'
  {
  }

  lemma {:induction false} FirstSlash(s: string) returns (i: nat)
    requires '/' in s
    ensures i < |s| && s[i] == '/' && '/' !in s[..i]
  {
    if s[0] == '/' {
      i := 0;
    } else {
      i := FirstSlash(s[1..]);
      i := i + 1;
      assert s[..i] == [s[0]] + s[1..][..i - 1];
    }
  }

  lemma {:induction false} NameIsFound(a: string, x: string, b: string)
    requires '/' !in x && (a == "" || a[|a| - 1] == '/') && (b == "" || b[0] == '/')
    ensures x in Split(a + x + b) && (a != "" ==> x in Split(a + x + b)[1..])
  {
    if a == "" {
      assert a + x + b == x + b;
      SplitAfterName(x, b);
    } else {
      assert (a + x + b)[0] == a[0] && (a + x + b)[1..] == a[1..] + x + b;
      NameIsFound(a[1..], x, b);
      FirstCharSplits(a + x + b, x);
    }
  }

  /** What is a later name after the first character is one before it. */
  lemma FirstCharSplits(s: string, x: string)
    requires s != "" && x in (if s[0] == '/' then Split(s[1..]) else Split(s[1..])[1..])
    ensures x in Split(s)[1..]
  {
    var rest := Split(s[1..]);
    if s[0] == '/' {
      assert ([""] + rest)[1..] == rest;
    } else {
      assert ([[s[0]] + rest[0]] + rest[1..])[1..] == rest[1..];
    }
  }

  /** Neither place is, or lies above, the other. */
  predicate Apart(a: seq<string>, b: seq<string>) { !(a <= b) && !(b <= a) }

  ghost predicate MountFits(m: FileMount) {
    && OneSource(m) && IsAbs(m.mountPath)
    && (forall item | item in m.items :: ItemFits(item))
    && (forall r | r in RESERVED_PLACES :: Apart(Place(m.mountPath), r))
  }

  /** Every mount is well formed, and its place is apart from every reserved place
      and from every other mount's. */
  ghost predicate Accepted(mounts: seq<FileMount>) {
    && (forall i | 0 <= i < |mounts| :: MountFits(mounts[i]))
    && (forall i, j | 0 <= i < j < |mounts| :: Apart(Place(mounts[i].mountPath), Place(mounts[j].mountPath)))
  }

  /** However a mount's path is spelled, the list fares as with the direct spelling. */
  lemma DetoursDoNotHelp(mounts: seq<FileMount>, i: nat, q: string, x: string, r: string)
    requires i < |mounts| && mounts[i].mountPath == q + "/" + x + "/.." + r
    requires IsAbs(q) && Plain(x) && (r == "" || r[0] == '/')
    ensures Accepted(mounts) <==> Accepted(mounts[i := mounts[i].(mountPath := q + r)])
  {
    var direct := mounts[i := mounts[i].(mountPath := q + r)];
    DetoursComeBack(q, x, r);
    assert forall k | 0 <= k < |mounts| ::
        Place(direct[k].mountPath) == Place(mounts[k].mountPath) && (MountFits(direct[k]) <==> MountFits(mounts[k]));
  }

  /** The workspace is reserved, however it is reached. */
  lemma WorkspaceIsReserved(m: FileMount, x: string)
    requires Plain(x) && m.mountPath == "/" + x + "/../workspace"
    ensures !MountFits(m)
  {
    var name := RESERVED_PLACES[3][0];
    assert name == "workspace" && Plain(name);
    assert m.mountPath == "" + "/" + x + "/.." + ("/" + name) && "" + ("/" + name) == "" + "/" + name;
    DetoursComeBack("", x, "/" + name);
    PlaceOfOneMore("", name);
    assert [] + [name] == RESERVED_PLACES[3] && RESERVED_PLACES[3] in RESERVED_PLACES;
  }

  lemma CollisionIsNearness(s: string, b: seq<string>)
    requires AllPlain(b)
    ensures PathsCollide(Clean(s), Print(b)) <==> !Apart(Place(s), b)
  {
    AncestorsAreSegmentPrefixes(Place(s), b);
    AncestorsAreSegmentPrefixes(b, Place(s));
  }

  lemma ReservedArePlain()
    ensures forall i | 0 <= i < |RESERVED_PLACES| :: AllPlain(RESERVED_PLACES[i])
  {
  }

  /** Accepted exactly when every mount is well formed and its place is apart
      from every reserved place and from every other mount's. */
  method ValidateFileMounts(mounts: seq<FileMount>) returns (refusal: Option<Refusal>)
    ensures refusal.None? <==> Accepted(mounts)
    ensures refusal.Some? ==> exists i :: 0 <= i < |mounts| && refusal.value.mount == mounts[i] && Accepted(mounts[..i])
  {
    var seen: seq<string> := [];
    var i := 0;
    while i < |mounts|
      invariant i <= |mounts| && |seen| == i
      invariant forall k | 0 <= k < i :: MountFits(mounts[k]) && seen[k] == Clean(mounts[k].mountPath)
      invariant forall j, k | 0 <= j < k < i :: Apart(Place(mounts[j].mountPath), Place(mounts[k].mountPath))
    {
      refusal := CheckMount(mounts[i], seen, mounts[..i]);
      if refusal.Some? {
        assert Accepted(mounts[..i]);
        return;
      }
      seen := seen + [Clean(mounts[i].mountPath)];
      i := i + 1;
    }
    return None;
  }

  /** One mount against those before it. */
  method CheckMount(m: FileMount, seen: seq<string>, ghost before: seq<FileMount>) returns (refusal: Option<Refusal>)
    requires |seen| == |before| && forall k | 0 <= k < |seen| :: seen[k] == Clean(before[k].mountPath)
    ensures refusal.None? <==>
            MountFits(m) && forall k | 0 <= k < |before| :: Apart(Place(before[k].mountPath), Place(m.mountPath))
    ensures refusal.Some? ==> refusal.value.mount == m
    ensures refusal.Some? ==>
              match refusal.value
              case NotOneSource(_) => !OneSource(m)
              case NotAbsolute(_) => !IsAbs(m.mountPath)
              case CollidesWithMount(_, previous) =>
                exists k :: 0 <= k < |before| && previous == Clean(before[k].mountPath)
                            && !Apart(Place(before[k].mountPath), Place(m.mountPath))
              case BadItem(_, item) => item in m.items && !ItemFits(item)
              case CollidesWithReserved(_, reserved) =>
                exists r :: r in RESERVED_PLACES && reserved == Print(r) && !Apart(Place(m.mountPath), r)
  {
    if (m.secretName == "") == (m.configMapName == "") {
      return Some(NotOneSource(m));
    }
    if !IsAbs(m.mountPath) {
      return Some(NotAbsolute(m));
    }
    var clean := Clean(m.mountPath);
    var hit := FirstCollision(clean, seen);
    forall k | 0 <= k < |before|
      ensures PathsCollide(clean, seen[k]) <==> !Apart(Place(before[k].mountPath), Place(m.mountPath))
    {
      CollisionIsNearness(m.mountPath, Place(before[k].mountPath));
    }
    if hit < |seen| {
      return Some(CollidesWithMount(m, seen[hit]));
    }
    var bad := FirstBadItem(m.items);
    if bad < |m.items| {
      return Some(BadItem(m, m.items[bad]));
    }
    hit := FirstCollision(clean, RESERVED);
    ReservedApart(m.mountPath, hit);
    if hit < |RESERVED| {
      return Some(CollidesWithReserved(m, RESERVED[hit]));
    }
    return None;
  }

  method FirstCollision(clean: string, paths: seq<string>) returns (i: nat)
    ensures i <= |paths| && forall k | 0 <= k < i :: !PathsCollide(clean, paths[k])
    ensures i < |paths| ==> PathsCollide(clean, paths[i])
  {
    i := 0;
    while i < |paths| && !PathsCollide(clean, paths[i])
      invariant i <= |paths| && forall k | 0 <= k < i :: !PathsCollide(clean, paths[k])
    {
      i := i + 1;
    }
  }

  method FirstBadItem(items: seq<string>) returns (i: nat)
    ensures i <= |items| && (forall k | 0 <= k < i :: ItemFits(items[k])) && (i < |items| ==> !ItemFits(items[i]))
  {
    i := 0;
    while i < |items| && ItemFits(items[i])
      invariant i <= |items| && forall k | 0 <= k < i :: ItemFits(items[k])
    {
      i := i + 1;
    }
  }

  lemma ReservedApart(s: string, hit: nat)
    requires hit <= |RESERVED| && forall k | 0 <= k < hit :: !PathsCollide(Clean(s), RESERVED[k])
    requires hit < |RESERVED| ==> PathsCollide(Clean(s), RESERVED[hit])
    ensures hit == |RESERVED| <==> forall r | r in RESERVED_PLACES :: Apart(Place(s), r)
    ensures hit < |RESERVED| ==> !Apart(Place(s), RESERVED_PLACES[hit])
  {
    ReservedArePlain();
    forall i | 0 <= i < |RESERVED|
      ensures PathsCollide(Clean(s), RESERVED[i]) <==> !Apart(Place(s), RESERVED_PLACES[i])
    {
      CollisionIsNearness(s, RESERVED_PLACES[i]);
    }
  }
}
