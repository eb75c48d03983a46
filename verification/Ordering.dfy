/** Byte-wise order on strings, and sorting by it (Go's slices.Sort, slices.Compact). */
module Ordering {

  /** Strictly before. */
  predicate Below(a: string, b: string) {
    b != "" && (a == "" || a[0] < b[0] || (a[0] == b[0] && Below(a[1..], b[1..])))
  }

  lemma {:induction false} Trichotomy(a: string, b: string)
    ensures (Below(a, b) && a != b && !Below(b, a)) || (Below(b, a) && a != b && !Below(a, b)) || (a == b && !Below(a, b))
  {
    if a != "" && b != "" {
      Trichotomy(a[1..], b[1..]);
      if a[0] == b[0] && a[1..] == b[1..] {
        assert a == [a[0]] + a[1..] && b == [b[0]] + b[1..];
      }
    }
  }

  /** The two differ first at k, or a ends there. */
  predicate DifferAt(a: string, b: string, k: nat) {
    k <= |a| && k < |b| && a[..k] == b[..k] && (k == |a| || a[k] < b[k])
  }

  /** Before means: smaller at the first place where they differ, or a beginning of it. */
  lemma {:induction false} BelowExactlyWhen(a: string, b: string)
    ensures Below(a, b) <==> exists k: nat :: DifferAt(a, b, k)
  {
    if a != "" && b != "" && a[0] == b[0] {
      BelowExactlyWhen(a[1..], b[1..]);
      if k: nat :| DifferAt(a[1..], b[1..], k) {
        assert a[..k + 1] == [a[0]] + a[1..][..k] && b[..k + 1] == [b[0]] + b[1..][..k];
        assert DifferAt(a, b, k + 1);
      }
      if k: nat :| DifferAt(a, b, k) {
        assert k > 0;
        assert a[1..][..k - 1] == a[..k][1..] && b[1..][..k - 1] == b[..k][1..];
        assert DifferAt(a[1..], b[1..], k - 1);
      }
    } else if b != "" {
      assert a == "" || a[0] < b[0] ==> DifferAt(a, b, 0);
      if k: nat :| DifferAt(a, b, k) {
        DifferFromTheHead(a, b, k);
      }
    }
  }

  lemma DifferFromTheHead(a: string, b: string, k: nat)
    requires DifferAt(a, b, k)
    ensures k > 0 ==> a != "" && a[0] == b[0]
  {
    if k > 0 {
      assert a[0] == a[..k][0] && b[0] == b[..k][0];
    }
  }

  lemma {:induction false} Transitive(a: string, b: string, c: string)
    requires Below(a, b) && Below(b, c)
    ensures Below(a, c)
  {
    if a != "" && a[0] == b[0] && b[0] == c[0] {
      Transitive(a[1..], b[1..], c[1..]);
    }
  }

  /** In order: each entry is before or equal to the next. */
  predicate Ordered(xs: seq<string>) {
    |xs| <= 1 || (!Below(xs[1], xs[0]) && Ordered(xs[1..]))
  }

  /** In order, and no entry twice. */
  predicate Ascending(xs: seq<string>) {
    |xs| <= 1 || (Below(xs[0], xs[1]) && Ascending(xs[1..]))
  }

  function Inserted(x: string, xs: seq<string>): (r: seq<string>)
    ensures multiset(r) == multiset(xs) + multiset{x}
  {
    if xs == [] then [x]
    else
      assert xs == [xs[0]] + xs[1..];
      if Below(xs[0], x) then [xs[0]] + Inserted(x, xs[1..]) else [x] + xs
  }

  function Sorted(xs: seq<string>): (r: seq<string>)
    ensures multiset(r) == multiset(xs)
  {
    if xs == [] then []
    else
      assert xs == [xs[0]] + xs[1..];
      Inserted(xs[0], Sorted(xs[1..]))
  }

  lemma {:induction false} InsertedIsOrdered(x: string, xs: seq<string>)
    requires Ordered(xs)
    ensures Ordered(Inserted(x, xs))
  {
    if xs != [] {
      Trichotomy(xs[0], x);
      if Below(xs[0], x) {
        InsertedIsOrdered(x, xs[1..]);
        var r := Inserted(x, xs);
        assert r[1..] == Inserted(x, xs[1..]);
        assert r[1] == if |xs| > 1 && Below(xs[1], x) then xs[1] else x;
      } else {
        assert ([x] + xs)[1..] == xs;
      }
    }
  }

  lemma {:induction false} SortedIsOrdered(xs: seq<string>)
    ensures Ordered(Sorted(xs))
  {
    if xs == [] {
    } else {
      SortedIsOrdered(xs[1..]);
      InsertedIsOrdered(xs[0], Sorted(xs[1..]));
    }
  }

  /** The first of an ordered sequence is before or equal to all of it. */
  lemma {:induction false} FirstIsLeast(xs: seq<string>, x: string)
    requires Ordered(xs) && xs != [] && x in xs
    ensures !Below(x, xs[0])
  {
    Trichotomy(xs[0], x);
    if |xs| > 1 && x != xs[0] {
      assert x in xs[1..];
      FirstIsLeast(xs[1..], x);
      Trichotomy(xs[1], x);
      Trichotomy(xs[0], xs[1]);
      if Below(xs[1], x) && Below(xs[0], xs[1]) {
        Transitive(xs[0], xs[1], x);
      }
    }
  }

  /** Only one arrangement of the same entries is in order. */
  lemma {:induction false} OrderIsUnique(xs: seq<string>, ys: seq<string>)
    requires Ordered(xs) && Ordered(ys) && multiset(xs) == multiset(ys)
    ensures xs == ys
  {
    if xs == [] {
      assert |multiset(ys)| == |ys| && |multiset(xs)| == 0;
    } else {
      assert xs[0] in multiset(ys);
      assert ys[0] in multiset(xs);
      FirstIsLeast(xs, ys[0]);
      FirstIsLeast(ys, xs[0]);
      Trichotomy(xs[0], ys[0]);
      assert xs == [xs[0]] + xs[1..] && ys == [ys[0]] + ys[1..];
      assert multiset(xs[1..]) == multiset(xs) - multiset{xs[0]};
      assert multiset(ys[1..]) == multiset(ys) - multiset{ys[0]};
      OrderIsUnique(xs[1..], ys[1..]);
    }
  }

  /** Sorting forgets the order the entries came in. */
  lemma SortingForgetsOrder(xs: seq<string>, ys: seq<string>)
    requires multiset(xs) == multiset(ys)
    ensures Sorted(xs) == Sorted(ys)
  {
    SortedIsOrdered(xs);
    SortedIsOrdered(ys);
    OrderIsUnique(Sorted(xs), Sorted(ys));
  }

  /** Without repeats of the entry before. */
  function Compacted(xs: seq<string>): seq<string> {
    if |xs| <= 1 then xs
    else if xs[0] == xs[1] then Compacted(xs[1..]) else [xs[0]] + Compacted(xs[1..])
  }

  lemma {:induction false} CompactedIsAscending(xs: seq<string>)
    requires Ordered(xs)
    ensures Ascending(Compacted(xs))
    ensures xs != [] ==> Compacted(xs) != [] && Compacted(xs)[0] == xs[0]
    ensures forall x :: x in Compacted(xs) <==> x in xs
  {
    if |xs| > 1 {
      CompactedIsAscending(xs[1..]);
      Trichotomy(xs[0], xs[1]);
      assert xs == [xs[0]] + xs[1..];
      var rest := Compacted(xs[1..]);
      assert ([xs[0]] + rest)[1..] == rest;
    }
  }

  /** Nothing before the first of an ascending sequence, and it only once. */
  lemma {:induction false} FirstIsBelow(xs: seq<string>, x: string)
    requires Ascending(xs) && xs != [] && x in xs[1..]
    ensures Below(xs[0], x)
  {
    if x != xs[1] {
      assert xs[1..] == [xs[1]] + xs[1..][1..];
      FirstIsBelow(xs[1..], x);
      Transitive(xs[0], xs[1], x);
    }
  }

  lemma {:induction false} AscendingHasNoRepeats(xs: seq<string>, i: nat, j: nat)
    requires Ascending(xs) && i < j < |xs|
    ensures Below(xs[i], xs[j]) && xs[i] != xs[j]
  {
    if i == 0 {
      assert xs[j] == xs[1..][j - 1];
      FirstIsBelow(xs, xs[j]);
      Trichotomy(xs[0], xs[j]);
    } else {
      AscendingHasNoRepeats(xs[1..], i - 1, j - 1);
    }
  }
}
