/**
 The bytes a credential digest is taken over (internal/controller/gateway_controller.go,
 credentialHash and hashCredentialField). A byte is the character of its code.
 */
module Credentials {
  import opened Wrappers
  import Ordering

  const LIMIT: nat := 0x1_0000_0000_0000_0000

  /** The 8-byte big-endian length, then the bytes. */
  function Field(b: string): string
    requires |b| < LIMIT
  {
    BigEndian(|b|, 8) + b
  }

  function BigEndian(n: nat, k: nat): (s: string)
    ensures |s| == k
  {
    if k == 0 then "" else BigEndian(n / 256, k - 1) + [(n % 256) as char]
  }

  /** A field is eight bytes of length, the highest first, and then the bytes: a length
      under 256 is seven zeros and itself. */
  lemma FieldIs(b: string)
    requires |b| < LIMIT
    ensures |Field(b)| == 8 + |b| && Field(b)[8..] == b && Field(b)[..8] == BigEndian(|b|, 8)
    ensures |b| < 256 ==> Field(b)[7] == |b| as char && forall i | 0 <= i < 7 :: Field(b)[i] == '\0'
  {
    if |b| < 256 {
      ZerosAre(7);
      assert BigEndian(|b|, 8) == BigEndian(0, 7) + [|b| as char];
    }
  }

  lemma {:induction false} ZerosAre(k: nat)
    ensures forall i | 0 <= i < k :: BigEndian(0, k)[i] == '\0'
  {
    if k > 0 {
      ZerosAre(k - 1);
    }
  }

  /** A key and a value are their fields, in that order. */
  lemma BindingIs(key: string, value: string)
    requires |key| < LIMIT && |value| < LIMIT
    ensures Binding(key, value) == BigEndian(|key|, 8) + key + BigEndian(|value|, 8) + value
  {
  }

  function Power256(k: nat): nat { if k == 0 then 1 else 256 * Power256(k - 1) }

  function ValueOf(s: string): nat {
    if s == "" then 0 else ValueOf(s[..|s| - 1]) * 256 + s[|s| - 1] as nat
  }

  lemma {:induction false} BigEndianReadsBack(n: nat, k: nat)
    requires n < Power256(k)
    ensures ValueOf(BigEndian(n, k)) == n
  {
    if k == 0 {
    } else {
      BigEndianReadsBack(n / 256, k - 1);
      assert BigEndian(n, k)[..k - 1] == BigEndian(n / 256, k - 1);
    }
  }

  type Data = map<string, string>

  /** What Go can hold: lengths fit in 64 bits. */
  ghost predicate Holdable(data: Data) {
    forall k | k in data :: |k| < LIMIT && |data[k]| < LIMIT
  }

  /** An order the map's keys may be walked in. */
  ghost predicate Walks(order: seq<string>, data: Data) {
    multiset(order) == multiset(data.Keys)
  }

  function Binding(key: string, value: string): string
    requires |key| < LIMIT && |value| < LIMIT
  {
    Field(key) + Field(value)
  }

  ghost predicate Held(keys: seq<string>, data: Data) {
    forall k | k in keys :: k in data && |k| < LIMIT && |data[k]| < LIMIT
  }

  ghost function Fields(keys: seq<string>, data: Data): string
    requires Held(keys, data)
  {
    if keys == [] then "" else Binding(keys[0], data[keys[0]]) + Fields(keys[1..], data)
  }

  /** A missing key reads as no bytes. */
  function Lookup(data: Data, key: string): string {
    if key in data then data[key] else ""
  }

  lemma SortedWalk(order: seq<string>, data: Data)
    requires Holdable(data) && Walks(order, data)
    ensures forall k :: k in Ordering.Sorted(order) <==> k in data
    ensures Held(Ordering.Sorted(order), data)
  {
    forall k
      ensures k in Ordering.Sorted(order) <==> k in data
    {
      assert k in Ordering.Sorted(order) <==> k in multiset(Ordering.Sorted(order));
      assert k in multiset(order) <==> k in data.Keys;
    }
  }

  /** The bytes fed to the digest. order is how the map happened to be walked. */
  method CredentialBytes(key: string, data: Data, order: seq<string>) returns (fed: string)
    requires Holdable(data) && Walks(order, data) && |key| < LIMIT
    ensures key != "" ==> fed == Binding(key, Lookup(data, key))
    ensures key == "" ==> Held(Ordering.Sorted(order), data) && fed == Fields(Ordering.Sorted(order), data)
  {
    if key != "" {
      return Field(key) + Field(if key in data then data[key] else "");
    }
    SortedWalk(order, data);
    fed := FieldBytes(Ordering.Sorted(order), data);
  }

  method FieldBytes(keys: seq<string>, data: Data) returns (fed: string)
    requires Held(keys, data)
    ensures fed == Fields(keys, data)
  {
    fed := "";
    var i := 0;
    while i < |keys|
      invariant i <= |keys| && fed == Fields(keys[..i], data)
    {
      assert keys[i] in keys;
      OneMoreField(keys[..i], keys[i], data);
      assert keys[..i + 1] == keys[..i] + [keys[i]];
      Regroup(fed, Field(keys[i]), Field(data[keys[i]]));
      fed := fed + Field(keys[i]);
      fed := fed + Field(data[keys[i]]);
      i := i + 1;
    }
    assert keys[..i] == keys;
  }

  lemma {:induction false} OneMoreField(keys: seq<string>, k: string, data: Data)
    requires Held(keys, data) && k in data && |k| < LIMIT && |data[k]| < LIMIT
    ensures Held(keys + [k], data)
    ensures Fields(keys + [k], data) == Fields(keys, data) + Binding(k, data[k])
  {
    if keys == [] {
      assert keys + [k] == [k];
      assert Fields([k], data) == Binding(k, data[k]) + Fields([], data);
    } else {
      OneMoreField(keys[1..], k, data);
      assert (keys + [k])[1..] == keys[1..] + [k];
      Regroup(Binding(keys[0], data[keys[0]]), Fields(keys[1..], data), Binding(k, data[k]));
    }
  }

  // ----- The bytes can be read back -----

  /** One field off the front: its bytes, and what follows. */
  function TakeField(s: string): Option<(string, string)> {
    if |s| < 8 then None
    else
      var n := ValueOf(s[..8]);
      if |s| - 8 < n then None else Some((s[8..8 + n], s[8 + n..]))
  }

  lemma TakeFieldReadsBack(b: string, more: string)
    requires |b| < LIMIT
    ensures TakeField(Field(b) + more) == Some((b, more))
  {
    BigEndianReadsBack(|b|, 8);
    var s := Field(b) + more;
    assert s[..8] == BigEndian(|b|, 8);
    assert s[8..8 + |b|] == b && s[8 + |b|..] == more;
  }

  function Decode(s: string): Option<seq<(string, string)>>
    decreases |s|
  {
    if s == "" then Some([])
    else
      var key := TakeField(s);
      if key.None? then None
      else
        var value := TakeField(key.value.1);
        if value.None? then None
        else
          var rest := Decode(value.value.1);
          if rest.None? then None else Some([(key.value.0, value.value.0)] + rest.value)
  }

  function Pairs(keys: seq<string>, data: Data): (r: seq<(string, string)>)
    requires forall k | k in keys :: k in data
    ensures |r| == |keys| && forall i :: 0 <= i < |r| ==> r[i] == (keys[i], data[keys[i]])
  {
    if keys == [] then [] else [(keys[0], data[keys[0]])] + Pairs(keys[1..], data)
  }

  lemma {:induction false} FieldsReadBack(keys: seq<string>, data: Data)
    requires Held(keys, data)
    ensures Decode(Fields(keys, data)) == Some(Pairs(keys, data))
  {
    if keys == [] {
    } else {
      var k := keys[0];
      var rest := Fields(keys[1..], data);
      FieldsReadBack(keys[1..], data);
      assert Fields(keys, data) == Field(k) + (Field(data[k]) + rest);
      TakeFieldReadsBack(k, Field(data[k]) + rest);
      TakeFieldReadsBack(data[k], rest);
    }
  }

  /** The bytes do not depend on how the map was walked. */
  lemma WalkDoesNotMatter(data: Data, order: seq<string>, other: seq<string>)
    requires Walks(order, data) && Walks(other, data)
    ensures Ordering.Sorted(order) == Ordering.Sorted(other)
  {
    Ordering.SortingForgetsOrder(order, other);
  }

  /** For a credential of many variables the bytes are the same exactly when the
      whole Secret is the same. */
  lemma BytesDetermineTheSecret(data: Data, order: seq<string>, data': Data, order': seq<string>)
    requires Holdable(data) && Walks(order, data) && Holdable(data') && Walks(order', data')
    ensures Held(Ordering.Sorted(order), data) && Held(Ordering.Sorted(order'), data')
    ensures Fields(Ordering.Sorted(order), data) == Fields(Ordering.Sorted(order'), data') <==> data == data'
  {
    var keys, keys' := Ordering.Sorted(order), Ordering.Sorted(order');
    SortedWalk(order, data);
    SortedWalk(order', data');
    FieldsReadBack(keys, data);
    FieldsReadBack(keys', data');
    if data == data' {
      WalkDoesNotMatter(data, order, order');
    }
    if Fields(keys, data) == Fields(keys', data') {
      SamePairs(keys, data, keys', data');
    }
  }

  lemma SamePairs(keys: seq<string>, data: Data, keys': seq<string>, data': Data)
    requires (forall k :: k in keys <==> k in data) && (forall k :: k in keys' <==> k in data')
    requires Pairs(keys, data) == Pairs(keys', data')
    ensures data == data'
  {
    var ps := Pairs(keys, data);
    assert |keys| == |keys'|;
    forall i | 0 <= i < |keys|
      ensures keys[i] == keys'[i] && data[keys[i]] == data'[keys'[i]]
    {
      assert ps[i] == (keys[i], data[keys[i]]) && ps[i] == (keys'[i], data'[keys'[i]]);
    }
    assert keys == keys';
  }

  /** For a credential of one key the bytes are the same exactly when the key and
      its value are; a key that is absent counts as one that is empty. */
  lemma BytesDetermineTheKey(data: Data, key: string, data': Data, key': string)
    requires Holdable(data) && Holdable(data') && |key| < LIMIT && |key'| < LIMIT
    ensures Binding(key, Lookup(data, key)) == Binding(key', Lookup(data', key'))
            <==> key == key' && Lookup(data, key) == Lookup(data', key')
  {
    var v, v' := Lookup(data, key), Lookup(data', key');
    TakeFieldReadsBack(key, Field(v));
    TakeFieldReadsBack(key', Field(v'));
    TakeFieldReadsBack(v, "");
    TakeFieldReadsBack(v', "");
    assert Field(v) + "" == Field(v) && Field(v') + "" == Field(v');
  }
}
