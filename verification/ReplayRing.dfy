/**
 The frames a late viewer is shown (harness/internal/tee/tee.go, emitRunFrame,
 trimReplayLocked, replayKeyFor): an in-place ring that keeps the latest frame
 of each key, and of the unkeyed stream as much as fits beside them.
 */
module ReplayRing {

  const CAP := 32
  const UNKEYED := ""

  datatype Entry = Entry(frame: string, key: string)

  // ----- What the ring means, from the history alone -----

  /** The distinct keys of a history. */
  function Keys(h: seq<Entry>): set<string> {
    if h == [] then {} else (if h[0].key == UNKEYED then {} else {h[0].key}) + Keys(h[1..])
  }

  /** How many unkeyed frames a history has. */
  function Unkeyed(h: seq<Entry>): nat {
    if h == [] then 0 else (if h[0].key == UNKEYED then 1 else 0) + Unkeyed(h[1..])
  }

  /** A frame outlives what was emitted after it: a keyed one as long as its key
      is not used again, an unkeyed one as long as fewer than room unkeyed
      frames came later. */
  predicate Lives(e: Entry, after: seq<Entry>, room: nat) {
    if e.key == UNKEYED then Unkeyed(after) < room else e.key !in Keys(after)
  }

  function Survivors(h: seq<Entry>, room: nat): seq<Entry> {
    if h == [] then []
    else (if Lives(h[0], h[1..], room) then [h[0]] else []) + Survivors(h[1..], room)
  }

  // ----- What the code does to the ring -----

  /** Without the first entry of a key; the unkeyed ones share the empty key. */
  function RemoveFirst(r: seq<Entry>, key: string): seq<Entry> {
    if r == [] then [] else if r[0].key == key then r[1..] else [r[0]] + RemoveFirst(r[1..], key)
  }

  predicate HasKey(r: seq<Entry>, key: string) { exists i :: 0 <= i < |r| && r[i].key == key }

  lemma {:induction false} RemoveFirstShortens(r: seq<Entry>, key: string)
    ensures |RemoveFirst(r, key)| == |r| - if HasKey(r, key) then 1 else 0
  {
    if r == [] {
    } else {
      RemoveFirstShortens(r[1..], key);
      assert HasKey(r, key) <==> r[0].key == key || HasKey(r[1..], key) by {
        if HasKey(r, key) && r[0].key != key {
          var i :| 0 <= i < |r| && r[i].key == key;
          assert r[1..][i - 1].key == key;
        }
      }
    }
  }

  /** The oldest unkeyed entry goes; in an all-keyed ring, the oldest. */
  function Evicted(r: seq<Entry>): seq<Entry>
    requires r != []
  {
    if HasKey(r, UNKEYED) then RemoveFirst(r, UNKEYED) else r[1..]
  }

  function Trimmed(r: seq<Entry>): (t: seq<Entry>)
    ensures |t| <= CAP
    decreases |r|
  {
    if |r| <= CAP then r
    else
      RemoveFirstShortens(r, UNKEYED);
      Trimmed(Evicted(r))
  }

  function Emitted(r: seq<Entry>, e: Entry): seq<Entry> {
    Trimmed((if e.key == UNKEYED then r else RemoveFirst(r, e.key)) + [e])
  }

  /** The ring after a history of emissions. */
  function Ring(h: seq<Entry>): seq<Entry> {
    if h == [] then [] else Emitted(Ring(h[..|h| - 1]), h[|h| - 1])
  }

  class Server {
    var replay: seq<string>
    var replayKeys: seq<string>

    ghost predicate Valid()
      reads this
    {
      |replay| == |replayKeys|
    }

    ghost function Entries(): (r: seq<Entry>)
      requires Valid()
      reads this
      ensures |r| == |replay|
    {
      Zip(replay, replayKeys)
    }

    constructor ()
      ensures Valid() && Entries() == []
    {
      replay, replayKeys := [], [];
    }

    /** Splices entry i out of both sequences. */
    method Splice(i: nat, key: string)
      requires Valid() && i < |replay| && replayKeys[i] == key && key !in replayKeys[..i]
      modifies this
      ensures Valid() && Entries() == RemoveFirst(old(Entries()), key)
      ensures |replay| == old(|replay|) - 1
    {
      SpliceIsRemoveFirst(replay, replayKeys, i, key);
      replay := replay[..i] + replay[i + 1..];
      replayKeys := replayKeys[..i] + replayKeys[i + 1..];
    }

    method EmitRunFrame(sessionId: string, frame: string, replayKey: string)
      requires Valid()
      modifies this
      ensures Valid()
      ensures Entries() == if sessionId == "" then old(Entries()) else Emitted(old(Entries()), Entry(frame, replayKey))
    {
      if sessionId == "" {
        return;
      }
      if replayKey != UNKEYED {
        var i := 0;
        while i < |replayKeys| && replayKeys[i] != replayKey
          invariant i <= |replayKeys| && replayKey !in replayKeys[..i]
        {
          i := i + 1;
        }
        if i < |replayKeys| {
          Splice(i, replayKey);
        } else {
          NothingToRemove(Entries(), replayKey);
        }
      }
      ZipAppend(replay, replayKeys, frame, replayKey);
      replay := replay + [frame];
      replayKeys := replayKeys + [replayKey];
      TrimReplayLocked();
    }

    method TrimReplayLocked()
      requires Valid()
      modifies this
      ensures Valid() && Entries() == Trimmed(old(Entries()))
    {
      while |replay| > CAP
        invariant Valid() && Trimmed(Entries()) == Trimmed(old(Entries()))
        decreases |replay|
      {
        EvictOne();
      }
    }

    method EvictOne()
      requires Valid() && |replay| > 0
      modifies this
      ensures Valid() && Entries() == Evicted(old(Entries())) && |replay| == old(|replay|) - 1
    {
      var drop, i := 0, 0;
      while i < |replayKeys| && replayKeys[i] != UNKEYED
        invariant i <= |replayKeys| && UNKEYED !in replayKeys[..i]
      {
        i := i + 1;
      }
      if i < |replayKeys| {
        drop := i;
        assert Entries()[i].key == UNKEYED;
        Splice(drop, UNKEYED);
      } else {
        assert !HasKey(Entries(), UNKEYED) by {
          assert replayKeys[..i] == replayKeys;
        }
        Splice(drop, replayKeys[0]);
      }
    }
  }

  function Zip(frames: seq<string>, keys: seq<string>): (r: seq<Entry>)
    requires |frames| == |keys|
    ensures |r| == |frames|
    ensures forall i :: 0 <= i < |r| ==> r[i] == Entry(frames[i], keys[i])
  {
    if frames == [] then [] else [Entry(frames[0], keys[0])] + Zip(frames[1..], keys[1..])
  }

  lemma ZipAppend(frames: seq<string>, keys: seq<string>, frame: string, key: string)
    requires |frames| == |keys|
    ensures Zip(frames + [frame], keys + [key]) == Zip(frames, keys) + [Entry(frame, key)]
  {
  }

  lemma NothingToRemove(r: seq<Entry>, key: string)
    requires !HasKey(r, key)
    ensures RemoveFirst(r, key) == r
  {
    if r != [] {
      assert r[0].key != key;
      assert forall i | 0 <= i < |r[1..]| :: r[1..][i].key == r[i + 1].key;
      NothingToRemove(r[1..], key);
    }
  }

  lemma {:induction false} RemoveFirstAt(r: seq<Entry>, i: nat)
    requires i < |r| && forall j | 0 <= j < i :: r[j].key != r[i].key
    ensures RemoveFirst(r, r[i].key) == r[..i] + r[i + 1..]
  {
    if i == 0 {
    } else {
      RemoveFirstAt(r[1..], i - 1);
      assert r[..i] == [r[0]] + r[1..][..i - 1];
    }
  }

  lemma SpliceIsRemoveFirst(frames: seq<string>, keys: seq<string>, i: nat, key: string)
    requires |frames| == |keys| && i < |keys| && keys[i] == key && key !in keys[..i]
    ensures Zip(frames[..i] + frames[i + 1..], keys[..i] + keys[i + 1..]) == RemoveFirst(Zip(frames, keys), key)
  {
    var r := Zip(frames, keys);
    assert forall j | 0 <= j < i :: r[j].key == keys[..i][j];
    RemoveFirstAt(r, i);
  }

  // ----- The ring is what it means -----

  lemma {:induction false} KeysAfter(h: seq<Entry>, e: Entry)
    ensures Keys(h + [e]) == Keys(h) + if e.key == UNKEYED then {} else {e.key}
    ensures Unkeyed(h + [e]) == Unkeyed(h) + if e.key == UNKEYED then 1 else 0
  {
    if h == [] {
      assert h + [e] == [e];
    } else {
      assert (h + [e])[1..] == h[1..] + [e];
      KeysAfter(h[1..], e);
    }
  }

  /** A surviving key is a key of the history. */
  lemma {:induction false} SurvivingKeys(h: seq<Entry>, room: nat, key: string)
    requires HasKey(Survivors(h, room), key)
    ensures if key == UNKEYED then Unkeyed(h) > 0 && room > 0 else key in Keys(h)
  {
    if h != [] {
      var s := Survivors(h, room);
      var i :| 0 <= i < |s| && s[i].key == key;
      if Lives(h[0], h[1..], room) {
        if i > 0 {
          assert Survivors(h[1..], room)[i - 1].key == key;
          SurvivingKeys(h[1..], room, key);
        }
      } else {
        assert Survivors(h[1..], room)[i].key == key;
        SurvivingKeys(h[1..], room, key);
      }
    }
  }

  /** A keyed frame takes the place of the last frame of its key. */
  lemma {:induction false} KeyedFrameReplaces(h: seq<Entry>, e: Entry, room: nat)
    requires e.key != UNKEYED
    ensures Survivors(h + [e], room) == RemoveFirst(Survivors(h, room), e.key) + [e]
  {
    if h == [] {
      assert h + [e] == [e];
    } else {
      assert (h + [e])[1..] == h[1..] + [e];
      KeysAfter(h[1..], e);
      KeyedFrameReplaces(h[1..], e, room);
      var rest := Survivors(h[1..], room);
      assert ([h[0]] + rest)[1..] == rest;
      assert h[0].key != e.key ==> RemoveFirst([h[0]] + rest, e.key) == [h[0]] + RemoveFirst(rest, e.key);
      assert [] + rest == rest;
      if h[0].key == e.key && Lives(h[0], h[1..], room) {
        if HasKey(rest, e.key) {
          SurvivingKeys(h[1..], room, e.key);
          assert false;
        }
        NothingToRemove(rest, e.key);
      }
    }
  }

  /** An unkeyed frame takes one place from the earlier ones. */
  lemma {:induction false} UnkeyedFrameJoins(h: seq<Entry>, e: Entry, room: nat)
    requires e.key == UNKEYED
    ensures Survivors(h + [e], room) == if room == 0 then Survivors(h, 0) else Survivors(h, room - 1) + [e]
  {
    if h == [] {
      assert h + [e] == [e];
    } else {
      assert (h + [e])[1..] == h[1..] + [e];
      KeysAfter(h[1..], e);
      UnkeyedFrameJoins(h[1..], e, room);
    }
  }

  /** One place less costs the oldest unkeyed survivor, if all places were taken. */
  lemma {:induction false} OnePlaceLess(h: seq<Entry>, room: nat)
    requires room > 0
    ensures Survivors(h, room - 1) ==
            if Unkeyed(h) < room then Survivors(h, room) else RemoveFirst(Survivors(h, room), UNKEYED)
  {
    if h == [] {
    } else {
      OnePlaceLess(h[1..], room);
      var rest := Survivors(h[1..], room);
      assert ([h[0]] + rest)[1..] == rest && [] + rest == rest;
    }
  }

  /** The ring holds one frame a key, and the unkeyed ones that have room. */
  lemma {:induction false} SurvivorsAreCounted(h: seq<Entry>, room: nat)
    ensures |Survivors(h, room)| == |Keys(h)| + if Unkeyed(h) < room then Unkeyed(h) else room
  {
    if h == [] {
    } else {
      SurvivorsAreCounted(h[1..], room);
      if h[0].key != UNKEYED && h[0].key in Keys(h[1..]) {
        assert Keys(h) == Keys(h[1..]);
      }
    }
  }

  lemma {:induction false} UnkeyedSurvive(h: seq<Entry>, room: nat)
    requires room > 0 && Unkeyed(h) > 0
    ensures HasKey(Survivors(h, room), UNKEYED)
  {
    var s := Survivors(h, room);
    if Lives(h[0], h[1..], room) && h[0].key == UNKEYED {
      assert s[0].key == UNKEYED;
    } else {
      UnkeyedSurvive(h[1..], room);
      var i :| 0 <= i < |Survivors(h[1..], room)| && Survivors(h[1..], room)[i].key == UNKEYED;
      assert s[if Lives(h[0], h[1..], room) then i + 1 else i].key == UNKEYED;
    }
  }

  lemma TrimOnce(r: seq<Entry>)
    requires |r| == CAP + 1
    ensures Trimmed(r) == Evicted(r)
  {
    RemoveFirstShortens(r, UNKEYED);
  }

  /** A key more than the places were meant for costs one place. */
  lemma TrimmedToRoom(h: seq<Entry>, room: nat)
    requires room > 0 && |Keys(h)| + room == CAP + 1
    ensures Trimmed(Survivors(h, room)) == Survivors(h, room - 1)
  {
    SurvivorsAreCounted(h, room);
    OnePlaceLess(h, room);
    if Unkeyed(h) >= room {
      UnkeyedSurvive(h, room);
      TrimOnce(Survivors(h, room));
    }
  }

  lemma KnownKeyStep(h: seq<Entry>, e: Entry)
    requires e.key != UNKEYED && e.key in Keys(h) && |Keys(h)| <= CAP
    ensures Keys(h + [e]) == Keys(h)
    ensures Emitted(Survivors(h, CAP - |Keys(h)|), e) == Survivors(h + [e], CAP - |Keys(h)|)
  {
    KeysAfter(h, e);
    assert Keys(h + [e]) == Keys(h);
    KeyedFrameReplaces(h, e, CAP - |Keys(h)|);
    SurvivorsAreCounted(h + [e], CAP - |Keys(h)|);
  }

  lemma NewKeyStep(h: seq<Entry>, e: Entry)
    requires e.key != UNKEYED && e.key !in Keys(h) && |Keys(h)| < CAP
    ensures |Keys(h + [e])| == |Keys(h)| + 1
    ensures Emitted(Survivors(h, CAP - |Keys(h)|), e) == Survivors(h + [e], CAP - |Keys(h)| - 1)
  {
    KeysAfter(h, e);
    assert |Keys(h) + {e.key}| == |Keys(h)| + 1;
    KeyedFrameReplaces(h, e, CAP - |Keys(h)|);
    TrimmedToRoom(h + [e], CAP - |Keys(h)|);
  }

  lemma KeyedStep(h: seq<Entry>, e: Entry)
    requires e.key != UNKEYED && |Keys(h + [e])| <= CAP
    ensures |Keys(h)| <= |Keys(h + [e])|
    ensures Emitted(Survivors(h, CAP - |Keys(h)|), e) == Survivors(h + [e], CAP - |Keys(h + [e])|)
  {
    KeysAfter(h, e);
    if e.key in Keys(h) {
      KnownKeyStep(h, e);
    } else {
      assert |Keys(h) + {e.key}| == |Keys(h)| + 1;
      NewKeyStep(h, e);
    }
  }

  lemma UnkeyedStep(h: seq<Entry>, e: Entry)
    requires e.key == UNKEYED && |Keys(h + [e])| <= CAP
    ensures |Keys(h)| == |Keys(h + [e])|
    ensures Emitted(Survivors(h, CAP - |Keys(h)|), e) == Survivors(h + [e], CAP - |Keys(h)|)
  {
    KeysAfter(h, e);
    var room := CAP - |Keys(h)|;
    var before := Survivors(h, room);
    SurvivorsAreCounted(h, room);
    UnkeyedFrameJoins(h, e, room);
    if room == 0 {
      if HasKey(before, UNKEYED) {
        SurvivingKeys(h, room, UNKEYED);
        assert false;
      }
      LastGoes(before, e);
      TrimOnce(before + [e]);
    } else {
      OnePlaceLess(h, room);
      if Unkeyed(h) >= room {
        UnkeyedSurvive(h, room);
        RemoveBefore(before, e);
        TrimOnce(before + [e]);
      }
    }
  }

  lemma {:induction false} LastGoes(r: seq<Entry>, e: Entry)
    requires e.key == UNKEYED && !HasKey(r, UNKEYED)
    ensures HasKey(r + [e], UNKEYED) && RemoveFirst(r + [e], UNKEYED) == r
  {
    assert (r + [e])[|r|].key == UNKEYED;
    assert forall i | 0 <= i < |r| :: (r + [e])[i] == r[i];
    RemoveFirstAt(r + [e], |r|);
    assert (r + [e])[..|r|] + (r + [e])[|r| + 1..] == r;
  }

  lemma {:induction false} RemoveBefore(r: seq<Entry>, e: Entry)
    requires HasKey(r, UNKEYED)
    ensures HasKey(r + [e], UNKEYED) && RemoveFirst(r + [e], UNKEYED) == RemoveFirst(r, UNKEYED) + [e]
  {
    var i :| 0 <= i < |r| && r[i].key == UNKEYED;
    assert (r + [e])[i].key == UNKEYED;
    if r[0].key == UNKEYED {
      assert (r + [e])[1..] == r[1..] + [e];
    } else {
      assert r[1..][i - 1].key == UNKEYED;
      assert (r + [e])[1..] == r[1..] + [e];
      RemoveBefore(r[1..], e);
    }
  }

  /** After any history with no more keys than the ring has room for, the ring is
      the last frame of each key and the latest unkeyed frames that fit beside
      them, in the order they were emitted. */
  lemma {:induction false} RingIsItsSurvivors(h: seq<Entry>)
    requires |Keys(h)| <= CAP
    ensures Ring(h) == Survivors(h, CAP - |Keys(h)|)
  {
    if h == [] {
    } else {
      var before, e := h[..|h| - 1], h[|h| - 1];
      assert before + [e] == h;
      KeysAfter(before, e);
      if e.key == UNKEYED {
        UnkeyedStep(before, e);
      } else {
        KeyedStep(before, e);
      }
      RingIsItsSurvivors(before);
    }
  }

  // ----- And no more keys than that -----

  lemma {:induction false} KeysAreFew(r: seq<Entry>)
    ensures |Keys(r)| <= |r|
  {
    if r == [] {
    } else {
      KeysAreFew(r[1..]);
    }
  }

  lemma {:induction false} KeysSurvive(h: seq<Entry>, room: nat)
    ensures Keys(Survivors(h, room)) == Keys(h)
  {
    if h == [] {
    } else {
      KeysSurvive(h[1..], room);
      var rest := Survivors(h[1..], room);
      if Lives(h[0], h[1..], room) {
        assert ([h[0]] + rest)[1..] == rest;
      } else {
        assert [] + rest == rest;
      }
    }
  }

  lemma SubsetIsNoLarger(a: set<string>, b: set<string>)
    requires a <= b
    ensures |a| <= |b|
  {
    assert a + (b - a) == b;
  }

  /** Every key stays represented exactly when there are at most CAP of them. */
  lemma EveryKeyIsKept(h: seq<Entry>)
    ensures Keys(h) <= Keys(Ring(h)) <==> |Keys(h)| <= CAP
  {
    if |Keys(h)| <= CAP {
      RingIsItsSurvivors(h);
      KeysSurvive(h, CAP - |Keys(h)|);
    } else if Keys(h) <= Keys(Ring(h)) {
      SubsetIsNoLarger(Keys(h), Keys(Ring(h)));
      KeysAreFew(Ring(h));
      assert false;
    }
  }

  // ----- The server's own keys -----

  const PLAN := "plan"
  const OUTCOME := "outcome"
  const PUSH := "push"
  const PUSH_UPDATE := "push/update"
  const HARNESS_PUSH_PREFIX := "harness-push-"

  /** The fields of a run update its key depends on; a missing or non-string
      field reads as empty. */
  datatype Update = Update(sessionUpdate: string, toolCallId: string) | NotAnObject

  function ReplayKeyFor(u: Update): string {
    if u.NotAnObject? then UNKEYED
    else if u.sessionUpdate == "plan" then PLAN
    else if u.sessionUpdate == "tool_call" || u.sessionUpdate == "tool_call_update" then
      if !(HARNESS_PUSH_PREFIX <= u.toolCallId) then UNKEYED
      else if u.sessionUpdate == "tool_call" then PUSH else PUSH_UPDATE
    else UNKEYED
  }

  /** What the harness can ask the server to tell viewers. */
  datatype Emission = RunUpdate(frame: string, update: Update) | Notice(frame: string) | RunOutcome(frame: string)

  function EntryOf(em: Emission): Entry {
    match em
    case RunUpdate(frame, update) => Entry(frame, ReplayKeyFor(update))
    case Notice(frame) => Entry(frame, UNKEYED)
    case RunOutcome(frame) => Entry(frame, OUTCOME)
  }

  function History(ems: seq<Emission>): seq<Entry> {
    if ems == [] then [] else [EntryOf(ems[0])] + History(ems[1..])
  }

  lemma {:induction false} OnlyFourKeys(ems: seq<Emission>)
    ensures Keys(History(ems)) <= {PLAN, OUTCOME, PUSH, PUSH_UPDATE}
  {
    if ems == [] {
    } else {
      OnlyFourKeys(ems[1..]);
      assert History(ems)[1..] == History(ems[1..]);
    }
  }

  predicate IsPlan(em: Emission) { em.RunUpdate? && em.update.Update? && em.update.sessionUpdate == "plan" }

  predicate IsPush(em: Emission, kind: string) {
    em.RunUpdate? && em.update.Update? && em.update.sessionUpdate == kind && "harness-push-" <= em.update.toolCallId
  }

  /** Emissions replace each other exactly when both are plans, both the outcome, both
      pushes of the harness's own, or both updates to one; every other is kept beside
      the rest, and every frame goes in as it is. */
  lemma ReplacesExactlyWhen(a: Emission, b: Emission)
    ensures EntryOf(a).frame == a.frame
    ensures EntryOf(a).key == EntryOf(b).key && EntryOf(a).key != UNKEYED <==>
            || (IsPlan(a) && IsPlan(b))
            || (a.RunOutcome? && b.RunOutcome?)
            || (IsPush(a, "tool_call") && IsPush(b, "tool_call"))
            || (IsPush(a, "tool_call_update") && IsPush(b, "tool_call_update"))
  {
    assert "plan"[1] == 'l' && "outcome"[0] == 'o' && "push"[1] == 'u' && "tool_call"[0] == 't';
    assert |"push"| == 4 && |"push/update"| == 11 && |"tool_call"| == 9 && |"tool_call_update"| == 16;
  }

  /** Whatever the harness emits, a late viewer is shown the current plan, push
      and outcome, and at least the latest twenty-eight of the rest. */
  lemma LateViewersSeeTheState(ems: seq<Emission>)
    ensures var h := History(ems);
            && |Keys(h)| <= 4
            && Ring(h) == Survivors(h, 32 - |Keys(h)|)
            && Keys(Ring(h)) == Keys(h)
  {
    var h := History(ems);
    OnlyFourKeys(ems);
    SubsetIsNoLarger(Keys(h), {PLAN, OUTCOME, PUSH, PUSH_UPDATE});
    RingIsItsSurvivors(h);
    KeysSurvive(h, CAP - |Keys(h)|);
  }
}
