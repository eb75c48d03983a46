/**
 Assembling the skills root (internal/skills/load.go, Load, check, prune,
 writeManifest), with a fault at any point. What a skill directory holds is one
 value; which candidates the sources give, and what each one's SKILL.md says,
 are inputs.
 */
module SkillLoad {
  import opened Wrappers

  datatype SkillType = Skill | Rule

  /** typeName: the load policy the source imposes, as declared. */
  datatype Candidate = Candidate(dir: string, source: string, sourcePath: string, typeName: string)

  datatype Frontmatter = Frontmatter(name: string, description: string)

  datatype Loaded = Loaded(name: string, description: string, typ: SkillType, source: string, sourcePath: string)

  datatype Manifest = Manifest(skills: seq<Loaded>, rules: seq<string>)

  /** The staged files: each directory's frontmatter, if readable, and content. */
  datatype Staged = Staged(front: string -> Option<Frontmatter>, content: string -> string)

  // ----- Checking the candidates -----

  datatype Problem = Unreadable(c: Candidate) | Duplicate(name: string, c: Candidate) | BadType(c: Candidate)

  function TypeOf(typeName: string): Option<SkillType> {
    if typeName == "" || typeName == "skill" then Some(Skill) else if typeName == "rule" then Some(Rule) else None
  }

  predicate Usable(st: Staged, c: Candidate) { st.front(c.dir).Some? && TypeOf(c.typeName).Some? }

  function LoadedOf(st: Staged, c: Candidate): Loaded
    requires Usable(st, c)
  {
    var fm := st.front(c.dir).value;
    Loaded(fm.name, fm.description, TypeOf(c.typeName).value, c.source, c.sourcePath)
  }

  /** A skill is loaded as its SKILL.md names and describes it, by the policy its source
      declares: always as a rule, or, as is also meant by nothing, on demand. */
  lemma LoadedAsDeclared(st: Staged, c: Candidate)
    ensures Usable(st, c) <==> st.front(c.dir).Some? && c.typeName in {"", "skill", "rule"}
    ensures Usable(st, c) ==>
              var l := LoadedOf(st, c);
              && l.name == st.front(c.dir).value.name && l.description == st.front(c.dir).value.description
              && l.source == c.source && l.sourcePath == c.sourcePath
              && (l.typ == Rule <==> c.typeName == "rule")
  {
    assert "skill"[0] == 's' && "rule"[0] == 'r';
  }

  predicate Clean(st: Staged, cs: seq<Candidate>) {
    && (forall i | 0 <= i < |cs| :: Usable(st, cs[i]))
    && (forall i, j | 0 <= i < j < |cs| :: LoadedOf(st, cs[i]).name != LoadedOf(st, cs[j]).name)
  }

  function AllLoaded(st: Staged, cs: seq<Candidate>): (ls: seq<Loaded>)
    requires forall i | 0 <= i < |cs| :: Usable(st, cs[i])
    ensures |ls| == |cs| && forall i :: 0 <= i < |cs| ==> ls[i] == LoadedOf(st, cs[i])
  {
    if cs == [] then [] else AllLoaded(st, cs[..|cs| - 1]) + [LoadedOf(st, cs[|cs| - 1])]
  }

  /** No problem is reported exactly when every candidate is usable and no two
      share a name; then each is loaded, in order, and found by its name. */
  method Check(st: Staged, candidates: seq<Candidate>)
    returns (loaded: seq<Loaded>, byName: map<string, Candidate>, problems: seq<Problem>)
    ensures problems == [] <==> Clean(st, candidates)
    ensures problems == [] ==> loaded == AllLoaded(st, candidates)
    ensures problems == [] ==> forall c | c in candidates ::
                                 LoadedOf(st, c).name in byName && byName[LoadedOf(st, c).name] == c
  {
    loaded, byName, problems := [], map[], [];
    var i := 0;
    while i < |candidates|
      invariant i <= |candidates|
      invariant Progress(st, candidates[..i], loaded, byName, problems)
    {
      assert candidates[..i + 1] == candidates[..i] + [candidates[i]];
      ghost var was, indexed, before := loaded, byName, problems;
      loaded, byName, problems := CheckOne(st, candidates[i], loaded, byName, problems);
      ProgressGrows(st, candidates[..i], candidates[i], was, indexed, before, loaded, byName, problems);
      i := i + 1;
    }
    assert candidates[..i] == candidates;
    if problems == [] {
      forall c | c in candidates
        ensures LoadedOf(st, c).name in byName && byName[LoadedOf(st, c).name] == c
      {
        var k :| 0 <= k < |candidates| && candidates[k] == c;
      }
    }
  }

  /** Where the check stands after some candidates. */
  ghost predicate Progress(
    st: Staged, cs: seq<Candidate>, loaded: seq<Loaded>, byName: map<string, Candidate>, problems: seq<Problem>)
  {
    && (problems == [] <==> Clean(st, cs))
    && (problems == [] ==> loaded == AllLoaded(st, cs) && Indexed(st, cs, byName))
  }

  lemma ProgressGrows(
    st: Staged, cs: seq<Candidate>, c: Candidate,
    loaded: seq<Loaded>, byName: map<string, Candidate>, problems: seq<Problem>,
    loaded': seq<Loaded>, byName': map<string, Candidate>, problems': seq<Problem>)
    requires Progress(st, cs, loaded, byName, problems)
    requires problems' == [] <==> problems == [] && Usable(st, c) && LoadedOf(st, c).name !in byName
    requires problems' == [] ==> loaded' == loaded + [LoadedOf(st, c)] && byName' == byName[LoadedOf(st, c).name := c]
    ensures Progress(st, cs + [c], loaded', byName', problems')
  {
    CleanGrows(st, cs, c);
    if problems == [] {
      IndexDecides(st, cs, byName, c);
    }
    if problems' == [] {
      IndexedGrows(st, cs, byName, c);
      assert (cs + [c])[..|cs|] == cs;
    }
  }

  method CheckOne(st: Staged, c: Candidate, soFar: seq<Loaded>, index: map<string, Candidate>, reported: seq<Problem>)
    returns (loaded: seq<Loaded>, byName: map<string, Candidate>, problems: seq<Problem>)
    ensures problems == [] <==> reported == [] && Usable(st, c) && LoadedOf(st, c).name !in index
    ensures problems == [] ==> loaded == soFar + [LoadedOf(st, c)] && byName == index[LoadedOf(st, c).name := c]
    ensures st.front(c.dir).None? ==> problems == reported + [Unreadable(c)]
    ensures st.front(c.dir).Some? && st.front(c.dir).value.name in index ==>
              problems == reported + [Duplicate(st.front(c.dir).value.name, c)]
    ensures st.front(c.dir).Some? && st.front(c.dir).value.name !in index ==>
              problems == if c.typeName in {"", "skill", "rule"} then reported else reported + [BadType(c)]
    ensures byName == if st.front(c.dir).Some? && st.front(c.dir).value.name !in index
                      then index[st.front(c.dir).value.name := c] else index
  {
    LoadedAsDeclared(st, c);
    loaded, byName, problems := soFar, index, reported;
    var front := st.front(c.dir);
    if front.None? {
      problems := problems + [Unreadable(c)];
      return;
    }
    if front.value.name in byName {
      problems := problems + [Duplicate(front.value.name, c)];
      return;
    }
    byName := byName[front.value.name := c];
    var typ := TypeOf(c.typeName);
    if typ.None? {
      problems := problems + [BadType(c)];
      return;
    }
    loaded := loaded + [Loaded(front.value.name, front.value.description, typ.value, c.source, c.sourcePath)];
  }

  /** byName lists the candidates so far, and nothing else. */
  ghost predicate Indexed(st: Staged, cs: seq<Candidate>, byName: map<string, Candidate>) {
    && (forall i | 0 <= i < |cs| :: Usable(st, cs[i]))
    && (forall i | 0 <= i < |cs| :: LoadedOf(st, cs[i]).name in byName && byName[LoadedOf(st, cs[i]).name] == cs[i])
    && (forall n | n in byName :: exists i :: 0 <= i < |cs| && LoadedOf(st, cs[i]).name == n)
  }

  /** A name is free exactly when no candidate so far has it. */
  lemma IndexDecides(st: Staged, cs: seq<Candidate>, byName: map<string, Candidate>, c: Candidate)
    requires Indexed(st, cs, byName)
    ensures Usable(st, c) ==>
              (LoadedOf(st, c).name !in byName <==>
               forall i | 0 <= i < |cs| :: LoadedOf(st, cs[i]).name != LoadedOf(st, c).name)
  {
  }

  lemma IndexedGrows(st: Staged, cs: seq<Candidate>, byName: map<string, Candidate>, c: Candidate)
    requires Indexed(st, cs, byName) && Usable(st, c) && LoadedOf(st, c).name !in byName
    ensures Indexed(st, cs + [c], byName[LoadedOf(st, c).name := c])
  {
    var all := cs + [c];
    assert all[|cs|] == c && forall i | 0 <= i < |cs| :: all[i] == cs[i];
    forall n | n in byName
      ensures exists i :: 0 <= i < |all| && LoadedOf(st, all[i]).name == n
    {
      var i :| 0 <= i < |cs| && LoadedOf(st, cs[i]).name == n;
      assert LoadedOf(st, all[i]).name == n;
    }
    assert LoadedOf(st, all[|cs|]).name == LoadedOf(st, c).name;
  }

  lemma CleanGrows(st: Staged, cs: seq<Candidate>, c: Candidate)
    ensures Clean(st, cs + [c]) <==>
            Clean(st, cs) && Usable(st, c) && forall i | 0 <= i < |cs| :: LoadedOf(st, cs[i]).name != LoadedOf(st, c).name
  {
    var all := cs + [c];
    assert all[|cs|] == c && forall i | 0 <= i < |cs| :: all[i] == cs[i];
  }

  // ----- The destination, one operation at a time -----

  datatype Tree = Whole(content: string) | Torn

  datatype ManifestFile = Absent | Written(m: Manifest) | Garbled

  datatype Disk = Disk(dirs: map<string, Tree>, manifest: ManifestFile)

  datatype Op =
    | DropManifest
    | ListDirs
    | RemoveDir(name: string)
    | CopyDir(name: string, content: string)
    | WriteManifest(m: Manifest)

  function Done(d: Disk, op: Op): Disk {
    match op
    case DropManifest => d.(manifest := Absent)
    case ListDirs => d
    case RemoveDir(name) => d.(dirs := d.dirs - {name})
    case CopyDir(name, content) => d.(dirs := d.dirs[name := Whole(content)])
    case WriteManifest(m) => d.(manifest := Written(m))
  }

  /** What an operation that fails midway can leave. */
  function Half(d: Disk, op: Op): Disk {
    match op
    case DropManifest => d
    case ListDirs => d
    case RemoveDir(name) => if name in d.dirs then d.(dirs := d.dirs[name := Torn]) else d
    case CopyDir(name, _) => d.(dirs := d.dirs[name := Torn])
    case WriteManifest(_) => d.(manifest := Garbled)
  }

  function Ran(d: Disk, ops: seq<Op>): Disk {
    if ops == [] then d else Done(Ran(d, ops[..|ops| - 1]), ops[|ops| - 1])
  }

  /** The last operation failed. */
  function Broken(d: Disk, ops: seq<Op>, torn: bool): Disk
    requires ops != []
  {
    var s := Ran(d, ops[..|ops| - 1]);
    if torn then Half(s, ops[|ops| - 1]) else s
  }

  function Prune(listing: seq<string>, keep: set<string>): seq<Op> {
    if listing == [] then []
    else Prune(listing[..|listing| - 1], keep) + if listing[|listing| - 1] in keep then [] else [RemoveDir(listing[|listing| - 1])]
  }

  /** A skill's directory is replaced by its source's content. */
  function Assembly(st: Staged, c: Candidate): seq<Op>
    requires Usable(st, c)
  {
    [RemoveDir(LoadedOf(st, c).name), CopyDir(LoadedOf(st, c).name, st.content(c.dir))]
  }

  function Assemble(st: Staged, cs: seq<Candidate>): seq<Op>
    requires forall i | 0 <= i < |cs| :: Usable(st, cs[i])
  {
    if cs == [] then []
    else Assemble(st, cs[..|cs| - 1]) + Assembly(st, cs[|cs| - 1])
  }

  function RulesOf(ls: seq<Loaded>): seq<string> {
    if ls == [] then []
    else RulesOf(ls[..|ls| - 1]) + if ls[|ls| - 1].typ == Rule then [ls[|ls| - 1].name] else []
  }

  function NamesOf(ls: seq<Loaded>): set<string> { set l | l in ls :: l.name }

  function ManifestOf(ls: seq<Loaded>): Manifest { Manifest(ls, RulesOf(ls)) }

  /** What Load sets out to do. Without candidates it prunes before the manifest
      of the previous run is replaced. */
  function Program(st: Staged, cs: seq<Candidate>, listing: seq<string>): seq<Op>
    requires Clean(st, cs)
  {
    if cs == [] then [ListDirs] + Prune(listing, {}) + [WriteManifest(ManifestOf([]))]
    else
      var ls := AllLoaded(st, cs);
      [DropManifest, ListDirs] + Prune(listing, NamesOf(ls)) + Assemble(st, cs) + [WriteManifest(ManifestOf(ls))]
  }

  class Root {
    var dirs: map<string, Tree>
    var manifest: ManifestFile
    /** How many more operations succeed, and what the failing one leaves. */
    var fuse: nat
    const tears: bool
    /** The disk before the run, the operations begun since, and whether all of
        them were finished. */
    ghost const start: Disk
    ghost var begun: seq<Op>
    ghost var alive: bool

    function State(): Disk
      reads this
    {
      Disk(dirs, manifest)
    }

    ghost predicate Valid()
      reads this
    {
      if alive then State() == Ran(start, begun)
      else begun != [] && State() == Broken(start, begun, tears)
    }

    constructor (disk: Disk, fuse: nat, tears: bool)
      ensures Valid() && alive && start == State() == disk && this.fuse == fuse && this.tears == tears && begun == []
    {
      dirs, manifest, start := disk.dirs, disk.manifest, disk;
      this.fuse, this.tears := fuse, tears;
      begun, alive := [], true;
    }

    /** One operation of the file system. */
    method Do(op: Op) returns (ok: bool)
      requires Valid() && alive
      modifies this
      ensures Valid() && ok == alive && begun == old(begun) + [op]
    {
      begun := begun + [op];
      assert begun[..|begun| - 1] == old(begun);
      if fuse == 0 {
        if tears {
          var d := Half(State(), op);
          dirs, manifest := d.dirs, d.manifest;
        }
        alive := false;
        return false;
      }
      fuse := fuse - 1;
      var d := Done(State(), op);
      dirs, manifest := d.dirs, d.manifest;
      return true;
    }

    /** The directories there are, in some order. */
    method ReadDir() returns (ok: bool, listing: seq<string>)
      requires Valid() && alive
      modifies this
      ensures Valid() && ok == alive && begun == old(begun) + [ListDirs]
      ensures forall n :: n in listing <==> n in old(dirs)
    {
      var left := dirs.Keys;
      ok := Do(ListDirs);
      listing := [];
      while left != {}
        invariant Valid() && ok == alive && begun == old(begun) + [ListDirs]
        invariant forall n :: n in listing || n in left <==> n in old(dirs)
        decreases |left|
      {
        var n :| n in left;
        listing := listing + [n];
        left := left - {n};
      }
    }

    method PruneDirs(keep: set<string>) returns (ok: bool, listing: seq<string>)
      requires Valid() && alive
      modifies this
      ensures Valid() && ok == alive
      ensures forall n :: n in listing <==> n in old(dirs)
      ensures old(begun) + [ListDirs] <= begun <= old(begun) + [ListDirs] + Prune(listing, keep)
      ensures ok ==> begun == old(begun) + [ListDirs] + Prune(listing, keep)
    {
      ok, listing := ReadDir();
      if !ok {
        return;
      }
      ghost var head := begun;
      var i := 0;
      while i < |listing|
        invariant i <= |listing| && Valid() && ok && alive && begun == head + Prune(listing[..i], keep)
      {
        assert listing[..i + 1][..i] == listing[..i];
        PruneOnTheWay(listing, keep, i);
        if listing[i] !in keep {
          ok := Do(RemoveDir(listing[i]));
          OnTheWay(head, Prune(listing[..i], keep), [RemoveDir(listing[i])], Prune(listing, keep));
          if !ok {
            return;
          }
        }
        i := i + 1;
      }
      assert listing[..i] == listing;
    }

    /** Replaces a skill's directory by its source's content. */
    method AssembleSkill(name: string, content: string) returns (ok: bool)
      requires Valid() && alive
      modifies this
      ensures Valid() && ok == alive
      ensures old(begun) <= begun <= old(begun) + [RemoveDir(name), CopyDir(name, content)]
      ensures ok ==> begun == old(begun) + [RemoveDir(name), CopyDir(name, content)]
    {
      ok := Do(RemoveDir(name));
      if ok {
        ok := Do(CopyDir(name, content));
      }
    }

    method AssembleSkills(st: Staged, ghost cs: seq<Candidate>, loaded: seq<Loaded>, byName: map<string, Candidate>)
      returns (ok: bool)
      requires Valid() && alive && Clean(st, cs) && loaded == AllLoaded(st, cs)
      requires forall c | c in cs :: LoadedOf(st, c).name in byName && byName[LoadedOf(st, c).name] == c
      modifies this
      ensures Valid() && ok == alive
      ensures old(begun) <= begun <= old(begun) + Assemble(st, cs)
      ensures ok ==> begun == old(begun) + Assemble(st, cs)
    {
      ghost var head := begun;
      var i := 0;
      ok := true;
      assert head + Assemble(st, cs[..0]) == head;
      while i < |loaded|
        invariant i <= |loaded| && Valid() && ok && alive && begun == head + Assemble(st, cs[..i])
      {
        assert cs[i] in cs && loaded[i] == LoadedOf(st, cs[i]);
        var content := st.content(byName[loaded[i].name].dir);
        ok := AssembleSkill(loaded[i].name, content);
        OneSkillOnTheWay(head, begun, st, cs, i);
        if !ok {
          return;
        }
        i := i + 1;
      }
      assert cs[..i] == cs;
    }

    /** What is done is a part of the program, from its beginning: all of it
        exactly when the manifest is returned, none of it when a candidate is
        unusable. */
    method Load(st: Staged, candidates: seq<Candidate>) returns (res: Option<Manifest>, listing: seq<string>)
      requires Valid() && alive && begun == []
      modifies this
      ensures Valid()
      ensures !Clean(st, candidates) ==> res.None? && begun == [] && State() == start
      ensures Clean(st, candidates) ==>
                && begun <= Program(st, candidates, listing)
                && (res.Some? <==> alive)
                && (res.Some? ==> begun == Program(st, candidates, listing)
                                  && res.value == ManifestOf(AllLoaded(st, candidates)))
      ensures candidates != [] && Sound(start) ==> Sound(State())
      ensures res.Some? ==>
                && manifest == Written(res.value) && Assembled(dirs, st, candidates)
                && dirs.Keys == NamesOf(res.value.skills)
    {
      if |candidates| == 0 {
        res, listing := LoadNothing(st);
        WholeProgram(start, st, [], listing);
        return;
      }
      var loaded, byName, problems := Check(st, candidates);
      if problems != [] {
        return None, [];
      }
      res, listing := LoadChecked(st, candidates, loaded, byName);
      WholeProgram(start, st, candidates, listing);
      if Sound(start) {
        SoundAtEveryStop(start, st, candidates, listing, begun, tears);
      }
    }

    method LoadNothing(ghost st: Staged) returns (res: Option<Manifest>, listing: seq<string>)
      requires Valid() && alive && begun == []
      modifies this
      ensures Valid() && begun <= Program(st, [], listing)
      ensures forall n :: n in listing <==> n in start.dirs
      ensures res.Some? <==> alive
      ensures res.Some? ==> begun == Program(st, [], listing) && res.value == ManifestOf([])
    {
      var ok;
      ok, listing := PruneDirs({});
      ghost var head := [ListDirs] + Prune(listing, {});
      assert [] + [ListDirs] + Prune(listing, {}) == head;
      PrefixOfMore(begun, head, [WriteManifest(ManifestOf([]))]);
      if !ok {
        return None, listing;
      }
      ok := Do(WriteManifest(ManifestOf([])));
      return if ok then Some(ManifestOf([])) else None, listing;
    }

    method LoadChecked(st: Staged, ghost cs: seq<Candidate>, loaded: seq<Loaded>, byName: map<string, Candidate>)
      returns (res: Option<Manifest>, listing: seq<string>)
      requires Valid() && alive && begun == []
      requires cs != [] && Clean(st, cs) && loaded == AllLoaded(st, cs)
      requires forall c | c in cs :: LoadedOf(st, c).name in byName && byName[LoadedOf(st, c).name] == c
      modifies this
      ensures Valid() && begun <= Program(st, cs, listing)
      ensures |begun| > 1 ==> forall n :: n in listing <==> n in start.dirs
      ensures res.Some? <==> alive
      ensures res.Some? ==> begun == Program(st, cs, listing) && res.value == ManifestOf(loaded)
    {
      ghost var names := NamesOf(loaded);
      ghost var last := [WriteManifest(ManifestOf(loaded))];
      var ok := Do(DropManifest);
      if !ok {
        listing := [];
        return None, listing;
      }
      assert [DropManifest][..0] == [] && Ran(start, [DropManifest]).dirs == start.dirs;
      ok, listing := PruneDirs(NamesOf(loaded));
      ghost var first := [DropManifest, ListDirs] + Prune(listing, names);
      ghost var second := first + Assemble(st, cs);
      assert [DropManifest] + [ListDirs] + Prune(listing, names) == first;
      PrefixOfMore(begun, first, Assemble(st, cs));
      PrefixOfMore(begun, second, last);
      if !ok {
        return None, listing;
      }
      ok := AssembleSkills(st, cs, loaded, byName);
      PrefixOfMore(begun, second, last);
      if !ok {
        return None, listing;
      }
      var rules := Rules(loaded);
      ok := Do(WriteManifest(Manifest(loaded, rules)));
      return if ok then Some(Manifest(loaded, rules)) else None, listing;
    }
  }

  lemma PrefixOfMore(x: seq<Op>, a: seq<Op>, c: seq<Op>)
    requires x <= a
    ensures x <= a + c
  {
  }

  lemma PrefixTransitive(x: seq<Op>, y: seq<Op>, z: seq<Op>)
    requires x <= y <= z
    ensures x <= z
  {
  }

  method Rules(loaded: seq<Loaded>) returns (rules: seq<string>)
    ensures rules == RulesOf(loaded)
  {
    rules := [];
    var i := 0;
    while i < |loaded|
      invariant i <= |loaded| && rules == RulesOf(loaded[..i])
    {
      assert loaded[..i + 1][..i] == loaded[..i];
      if loaded[i].typ == Rule {
        rules := rules + [loaded[i].name];
      }
      i := i + 1;
    }
    assert loaded[..i] == loaded;
  }

  /** The rules are read off one skill at a time, in order: the name of each that is a
      rule, and nothing of one that is not. */
  lemma {:induction false} RulesAreInOrder(a: seq<Loaded>, b: seq<Loaded>)
    ensures RulesOf(a + b) == RulesOf(a) + RulesOf(b)
    decreases |b|
  {
    if b == [] {
      assert a + b == a && RulesOf(a) + [] == RulesOf(a);
    } else {
      var init, last := b[..|b| - 1], b[|b| - 1];
      var more := if last.typ == Rule then [last.name] else [];
      RulesAreInOrder(a, init);
      OneMoreRule(init, last);
      OneMoreRule(a + init, last);
      assert init + [last] == b && (a + init) + [last] == a + b;
      assert RulesOf(a) + RulesOf(init) + more == RulesOf(a) + (RulesOf(init) + more);
    }
  }

  lemma OneMoreRule(ls: seq<Loaded>, l: Loaded)
    ensures RulesOf(ls + [l]) == RulesOf(ls) + if l.typ == Rule then [l.name] else []
  {
    assert (ls + [l])[..|ls|] == ls;
  }

  lemma OnTheWay(head: seq<Op>, done: seq<Op>, next: seq<Op>, whole: seq<Op>)
    requires done + next <= whole
    ensures head <= head + done + next <= head + whole
  {
    assert head + done + next == head + (done + next);
  }

  lemma {:induction false} PruneOnTheWay(listing: seq<string>, keep: set<string>, i: nat)
    requires i < |listing|
    ensures Prune(listing[..i], keep) + (if listing[i] in keep then [] else [RemoveDir(listing[i])]) <= Prune(listing, keep)
    decreases |listing|
  {
    if i < |listing| - 1 {
      var init := listing[..|listing| - 1];
      assert init[..i] == listing[..i];
      PruneOnTheWay(init, keep, i);
    }
  }

  lemma {:induction false} AssembleOnTheWay(st: Staged, cs: seq<Candidate>, i: nat)
    requires Clean(st, cs) && i < |cs|
    ensures Assemble(st, cs[..i]) + Assembly(st, cs[i]) <= Assemble(st, cs)
    decreases |cs|
  {
    if i < |cs| - 1 {
      var init := cs[..|cs| - 1];
      assert init[..i] == cs[..i];
      AssembleOnTheWay(st, init, i);
    }
  }

  /** Skill i is assembled after those before it, as far as it got. */
  lemma OneSkillOnTheWay(head: seq<Op>, begun: seq<Op>, st: Staged, cs: seq<Candidate>, i: nat)
    requires Clean(st, cs) && i < |cs|
    requires head + Assemble(st, cs[..i]) <= begun <= head + Assemble(st, cs[..i]) + Assembly(st, cs[i])
    ensures head <= begun <= head + Assemble(st, cs)
    ensures head + Assemble(st, cs[..i]) + Assembly(st, cs[i]) == head + Assemble(st, cs[..i + 1])
  {
    var before, next := Assemble(st, cs[..i]), Assembly(st, cs[i]);
    AssembleOnTheWay(st, cs, i);
    OnTheWay(head, before, next, Assemble(st, cs));
    PrefixTransitive(head, head + before, begun);
    PrefixTransitive(begun, head + before + next, head + Assemble(st, cs));
    assert cs[..i + 1][..i] == cs[..i];
    assert head + before + next == head + (before + next);
  }

  // ----- What every stop leaves -----

  /** A manifest that exists names only fully assembled directories. */
  predicate Sound(d: Disk) {
    d.manifest.Written? ==>
      forall l | l in d.manifest.m.skills :: l.name in d.dirs && d.dirs[l.name].Whole?
  }

  lemma {:induction false} RanInTwo(d: Disk, a: seq<Op>, b: seq<Op>)
    ensures Ran(d, a + b) == Ran(Ran(d, a), b)
    decreases |b|
  {
    if b == [] {
      assert a + b == a;
    } else {
      var init := b[..|b| - 1];
      assert (a + b)[..|a + b| - 1] == a + init;
      RanInTwo(d, a, init);
    }
  }

  predicate NoManifestOp(ops: seq<Op>) { forall op | op in ops :: !op.WriteManifest? && !op.DropManifest? }

  lemma {:induction false} ManifestUntouched(d: Disk, ops: seq<Op>)
    requires NoManifestOp(ops)
    ensures Ran(d, ops).manifest == d.manifest
  {
    if ops == [] {
    } else {
      var init, op := ops[..|ops| - 1], ops[|ops| - 1];
      assert op in ops && forall o | o in init :: o in ops;
      ManifestUntouched(d, init);
    }
  }

  lemma {:induction false} PruneIsRemovals(listing: seq<string>, keep: set<string>)
    ensures forall op | op in Prune(listing, keep) :: op.RemoveDir?
  {
    if listing == [] {
    } else {
      PruneIsRemovals(listing[..|listing| - 1], keep);
    }
  }

  lemma {:induction false} AssemblyIsCopies(st: Staged, cs: seq<Candidate>)
    requires forall i | 0 <= i < |cs| :: Usable(st, cs[i])
    ensures forall op | op in Assemble(st, cs) :: op.RemoveDir? || op.CopyDir?
  {
    if cs == [] {
    } else {
      AssemblyIsCopies(st, cs[..|cs| - 1]);
    }
  }

  /** Between the first and the last operation there is no manifest. */
  lemma NoManifestMidway(start: Disk, middle: seq<Op>, m: Manifest, h: seq<Op>, torn: bool)
    requires NoManifestOp(middle) && h <= [DropManifest] + middle && h != []
    ensures Ran(start, h).manifest == Absent
    ensures |h| > 1 ==> Broken(start, h, torn).manifest == Absent
    ensures |h| == 1 ==> Broken(start, h, torn) == start
  {
    var rest := h[1..];
    assert h == [DropManifest] + rest;
    assert forall op | op in rest :: op in middle by {
      assert rest == middle[..|rest|];
    }
    RanInTwo(start, [DropManifest], rest);
    assert Ran(start, [DropManifest]) == Done(start, DropManifest) by {
      assert [DropManifest][..0] == [];
    }
    ManifestUntouched(Done(start, DropManifest), rest);
    if |h| > 1 {
      var init := rest[..|rest| - 1];
      assert rest[|rest| - 1] in rest;
      assert forall op | op in init :: op in rest;
      assert h[..|h| - 1] == [DropManifest] + init;
      RanInTwo(start, [DropManifest], init);
      ManifestUntouched(Done(start, DropManifest), init);
    } else {
      assert h[..0] == [];
    }
  }

  lemma {:induction false} PrunedDirs(d: Disk, listing: seq<string>, keep: set<string>)
    ensures forall n :: n in Ran(d, Prune(listing, keep)).dirs <==> n in d.dirs && (n in listing ==> n in keep)
  {
    if listing == [] {
    } else {
      var init, n := listing[..|listing| - 1], listing[|listing| - 1];
      assert listing == init + [n];
      PrunedDirs(d, init, keep);
      var more: seq<Op> := if n in keep then [] else [RemoveDir(n)];
      if n !in keep {
        assert Prune(listing, keep)[..|Prune(listing, keep)| - 1] == Prune(init, keep);
      } else {
        assert Prune(init, keep) + more == Prune(init, keep);
      }
    }
  }

  lemma RanOne(d: Disk, op: Op)
    ensures Ran(d, [op]) == Done(d, op)
  {
    assert [op][..0] == [];
  }

  lemma OneAssembled(d: Disk, name: string, content: string)
    ensures Ran(d, [RemoveDir(name), CopyDir(name, content)]).dirs == d.dirs[name := Whole(content)]
  {
    assert [RemoveDir(name), CopyDir(name, content)] == [RemoveDir(name)] + [CopyDir(name, content)];
    RanInTwo(d, [RemoveDir(name)], [CopyDir(name, content)]);
    RanOne(d, RemoveDir(name));
    RanOne(Done(d, RemoveDir(name)), CopyDir(name, content));
    assert (d.dirs - {name})[name := Whole(content)] == d.dirs[name := Whole(content)];
  }

  /** The directories of the candidates, as their sources hold them. */
  ghost predicate Assembled(dirs: map<string, Tree>, st: Staged, cs: seq<Candidate>)
    requires Clean(st, cs)
  {
    && (forall i | 0 <= i < |cs| :: LoadedOf(st, cs[i]).name in dirs)
    && (forall i | 0 <= i < |cs| :: dirs[LoadedOf(st, cs[i]).name] == Whole(st.content(cs[i].dir)))
  }

  lemma NamesGrow(st: Staged, cs: seq<Candidate>)
    requires cs != [] && forall i | 0 <= i < |cs| :: Usable(st, cs[i])
    ensures NamesOf(AllLoaded(st, cs)) ==
            NamesOf(AllLoaded(st, cs[..|cs| - 1])) + {LoadedOf(st, cs[|cs| - 1]).name}
  {
    var ls, l := AllLoaded(st, cs[..|cs| - 1]), LoadedOf(st, cs[|cs| - 1]);
    assert AllLoaded(st, cs) == ls + [l];
    assert forall x :: x in ls + [l] <==> x in ls || x == l;
  }

  /** The last skill's directory is replaced, the others stay. */
  lemma LastAssembled(d: Disk, st: Staged, cs: seq<Candidate>)
    requires Clean(st, cs) && cs != []
    ensures var c := cs[|cs| - 1];
            Ran(d, Assemble(st, cs)).dirs ==
            Ran(d, Assemble(st, cs[..|cs| - 1])).dirs[LoadedOf(st, c).name := Whole(st.content(c.dir))]
  {
    var init, c := cs[..|cs| - 1], cs[|cs| - 1];
    var name := LoadedOf(st, c).name;
    RanInTwo(d, Assemble(st, init), [RemoveDir(name), CopyDir(name, st.content(c.dir))]);
    OneAssembled(Ran(d, Assemble(st, init)), name, st.content(c.dir));
  }

  lemma CleanShrinks(st: Staged, cs: seq<Candidate>)
    requires Clean(st, cs) && cs != []
    ensures Clean(st, cs[..|cs| - 1])
    ensures forall i | 0 <= i < |cs| - 1 :: LoadedOf(st, cs[i]).name != LoadedOf(st, cs[|cs| - 1]).name
  {
  }

  lemma {:induction false} AssembledDirs(d: Disk, st: Staged, cs: seq<Candidate>)
    requires Clean(st, cs)
    ensures Ran(d, Assemble(st, cs)).dirs.Keys == d.dirs.Keys + NamesOf(AllLoaded(st, cs))
    ensures Assembled(Ran(d, Assemble(st, cs)).dirs, st, cs)
  {
    if cs == [] {
    } else {
      CleanShrinks(st, cs);
      AssembledDirs(d, st, cs[..|cs| - 1]);
      NamesGrow(st, cs);
      LastAssembled(d, st, cs);
      AssembledGrows(Ran(d, Assemble(st, cs[..|cs| - 1])).dirs, st, cs);
    }
  }

  lemma AssembledGrows(before: map<string, Tree>, st: Staged, cs: seq<Candidate>)
    requires cs != [] && Clean(st, cs) && Assembled(before, st, cs[..|cs| - 1])
    ensures var c := cs[|cs| - 1];
            Assembled(before[LoadedOf(st, c).name := Whole(st.content(c.dir))], st, cs)
  {
    var init := cs[..|cs| - 1];
    assert forall i | 0 <= i < |init| :: init[i] == cs[i];
  }

  function Middle(st: Staged, cs: seq<Candidate>, listing: seq<string>): seq<Op>
    requires Clean(st, cs)
  {
    [ListDirs] + Prune(listing, NamesOf(AllLoaded(st, cs))) + Assemble(st, cs)
  }

  lemma MiddleLeavesTheManifest(st: Staged, cs: seq<Candidate>, listing: seq<string>)
    requires Clean(st, cs)
    ensures NoManifestOp(Middle(st, cs, listing))
  {
    PruneIsRemovals(listing, NamesOf(AllLoaded(st, cs)));
    AssemblyIsCopies(st, cs);
  }

  lemma MiddleRuns(d: Disk, st: Staged, cs: seq<Candidate>, listing: seq<string>)
    requires Clean(st, cs)
    ensures var end := Ran(d, Middle(st, cs, listing));
            && Assembled(end.dirs, st, cs)
            && ((forall n :: n in listing <==> n in d.dirs) ==> end.dirs.Keys == NamesOf(AllLoaded(st, cs)))
  {
    var names := NamesOf(AllLoaded(st, cs));
    var prune := Prune(listing, names);
    RanInTwo(d, [ListDirs] + prune, Assemble(st, cs));
    RanInTwo(d, [ListDirs], prune);
    RanOne(d, ListDirs);
    PrunedDirs(d, listing, names);
    AssembledDirs(Ran(d, prune), st, cs);
  }

  lemma ProgramInThree(st: Staged, cs: seq<Candidate>, listing: seq<string>)
    requires Clean(st, cs)
    ensures var w := [WriteManifest(ManifestOf(AllLoaded(st, cs)))];
            Program(st, cs, listing) ==
            if cs == [] then Middle(st, cs, listing) + w else [DropManifest] + Middle(st, cs, listing) + w
  {
    var names := NamesOf(AllLoaded(st, cs));
    if cs == [] {
      assert names == {};
      assert Middle(st, cs, listing) == [ListDirs] + Prune(listing, {});
    } else {
      assert [DropManifest, ListDirs] + Prune(listing, names) + Assemble(st, cs) == [DropManifest] + Middle(st, cs, listing);
    }
  }

  /** The whole program leaves exactly the skills it was given, and says so. */
  lemma WholeProgram(start: Disk, st: Staged, cs: seq<Candidate>, listing: seq<string>)
    requires Clean(st, cs)
    ensures var end := Ran(start, Program(st, cs, listing));
            && Assembled(end.dirs, st, cs) && Sound(end)
            && end.manifest == Written(ManifestOf(AllLoaded(st, cs)))
            && ((forall n :: n in listing <==> n in start.dirs) ==> end.dirs.Keys == NamesOf(AllLoaded(st, cs)))
  {
    var ls := AllLoaded(st, cs);
    var d := if cs == [] then start else Done(start, DropManifest);
    ProgramEnds(start, st, cs, listing);
    MiddleRuns(d, st, cs, listing);
    var end := Ran(start, Program(st, cs, listing));
    forall l | l in ls
      ensures l.name in end.dirs && end.dirs[l.name].Whole?
    {
      var i :| 0 <= i < |ls| && ls[i] == l;
      assert LoadedOf(st, cs[i]).name == l.name;
    }
  }

  lemma ProgramEnds(start: Disk, st: Staged, cs: seq<Candidate>, listing: seq<string>)
    requires Clean(st, cs)
    ensures var d := if cs == [] then start else Done(start, DropManifest);
            Ran(start, Program(st, cs, listing)) ==
            Ran(d, Middle(st, cs, listing)).(manifest := Written(ManifestOf(AllLoaded(st, cs))))
  {
    var middle := Middle(st, cs, listing);
    var w := WriteManifest(ManifestOf(AllLoaded(st, cs)));
    ProgramInThree(st, cs, listing);
    if cs == [] {
      RanInTwo(start, middle, [w]);
      RanOne(Ran(start, middle), w);
    } else {
      RanInTwo(start, [DropManifest] + middle, [w]);
      RanInTwo(start, [DropManifest], middle);
      RanOne(start, DropManifest);
      RanOne(Ran(start, [DropManifest] + middle), w);
    }
  }

  /** With a candidate to load, wherever the run stops, a manifest that exists
      names only fully assembled directories. */
  lemma SoundAtEveryStop(start: Disk, st: Staged, cs: seq<Candidate>, listing: seq<string>, h: seq<Op>, torn: bool)
    requires Sound(start) && cs != [] && Clean(st, cs) && h <= Program(st, cs, listing)
    ensures SoundStop(start, h, torn)
  {
    var middle := Middle(st, cs, listing);
    var m := ManifestOf(AllLoaded(st, cs));
    var whole := Program(st, cs, listing);
    ProgramInThree(st, cs, listing);
    MiddleLeavesTheManifest(st, cs, listing);
    if h == [] {
    } else if |h| < |whole| {
      assert h <= [DropManifest] + middle by {
        assert h == whole[..|h|] == ([DropManifest] + middle)[..|h|];
      }
      NoManifestMidway(start, middle, m, h, torn);
    } else {
      assert h == whole;
      WholeProgram(start, st, cs, listing);
      var init := h[..|h| - 1];
      assert init == [DropManifest] + middle;
      NoManifestMidway(start, middle, m, init, torn);
    }
  }

  /** Sound when h has been begun, whether or not its last operation failed. */
  predicate SoundStop(start: Disk, h: seq<Op>, torn: bool) {
    Sound(Ran(start, h)) && (h != [] ==> Sound(Broken(start, h, torn)))
  }

  ghost predicate SoundThroughout(start: Disk, ops: seq<Op>) {
    forall h, torn | h <= ops :: SoundStop(start, h, torn)
  }

  /** Without candidates the previous manifest is still there while its
      directories go: every stop is sound exactly when it named none. */
  lemma EmptyLoadIsSoundExactlyWhen(start: Disk, st: Staged, listing: seq<string>)
    requires Sound(start) && forall n :: n in listing <==> n in start.dirs
    ensures SoundThroughout(start, Program(st, [], listing)) <==>
            (start.manifest.Written? ==> start.manifest.m.skills == [])
  {
    var middle := Middle(st, [], listing);
    var w := WriteManifest(ManifestOf([]));
    ProgramInThree(st, [], listing);
    MiddleRuns(start, st, [], listing);
    MiddleLeavesTheManifest(st, [], listing);
    ManifestUntouched(start, middle);
    if start.manifest.Written? && start.manifest.m.skills != [] {
      var l := start.manifest.m.skills[0];
      assert Ran(start, middle).dirs.Keys == {};
      assert l.name !in Ran(start, middle).dirs;
      assert l in start.manifest.m.skills;
      assert !SoundStop(start, middle, false);
      assert middle <= Program(st, [], listing);
    } else {
      assert Program(st, [], listing) == middle + [w];
      forall h, torn | h <= middle + [w]
        ensures SoundStop(start, h, torn)
      {
        NothingNamed(start, middle, w, h, torn);
      }
    }
  }

  lemma NothingNamed(start: Disk, middle: seq<Op>, w: Op, h: seq<Op>, torn: bool)
    requires NoManifestOp(middle) && w == WriteManifest(ManifestOf([])) && h <= middle + [w]
    requires start.manifest.Written? ==> start.manifest.m.skills == []
    ensures SoundStop(start, h, torn)
  {
    if h != [] {
      var init, op := h[..|h| - 1], h[|h| - 1];
      assert init == middle[..|init|];
      assert forall o | o in init :: o in middle;
      ManifestUntouched(start, init);
      assert op == (middle + [w])[|init|];
      assert |init| < |middle| ==> op in middle;
    }
  }
}
