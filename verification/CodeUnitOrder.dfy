/** compareCodeUnit of src/core/snapshot.js and the sorting built on it. */
module CodeUnitOrder {

  /** Order of a character among UTF-16 code units: a surrogate pair sorts below U+E000 to U+FFFF. */
  function Rank(c: char): int {
    var code := c as int;
    if 0xE000 <= code < 0x10000 then code + 0x200000 else code
  }

  predicate Less(a: string, b: string) {
    if b == "" then false
    else if a == "" then true
    else if a[0] != b[0] then Rank(a[0]) < Rank(b[0])
    else Less(a[1..], b[1..])
  }

  lemma {:induction false} Transitive(a: string, b: string, c: string)
    requires Less(a, b) && Less(b, c)
    ensures Less(a, c)
  {
    if a != "" && a[0] == b[0] && b[0] == c[0] {
      Transitive(a[1..], b[1..], c[1..]);
    }
  }

  lemma {:induction false} Irreflexive(a: string)
    ensures !Less(a, a)
  {
    if a != "" {
      Irreflexive(a[1..]);
    }
  }

  lemma {:induction false} Total(a: string, b: string)
    ensures a == b || Less(a, b) || Less(b, a)
  {
    if a != "" && b != "" {
      if a[0] == b[0] {
        Total(a[1..], b[1..]);
        assert a == [a[0]] + a[1..] && b == [b[0]] + b[1..];
      } else {
        assert Rank(a[0]) != Rank(b[0]);
      }
    }
  }

  lemma Asymmetric(a: string, b: string)
    requires Less(a, b)
    ensures !Less(b, a) && a != b
  {
    Irreflexive(a);
    if Less(b, a) {
      Transitive(a, b, a);
    }
  }

  /** Strictly increasing keys: sorted and free of duplicates. */
  predicate Increasing<T>(key: T -> string, xs: seq<T>) {
    forall i, j :: 0 <= i < j < |xs| ==> Less(key(xs[i]), key(xs[j]))
  }

  predicate DistinctKeys<T>(key: T -> string, xs: seq<T>) {
    forall i, j :: 0 <= i < j < |xs| ==> key(xs[i]) != key(xs[j])
  }

  /** Inserts before the first element whose key is larger, as a stable sort does. */
  function Insert<T>(key: T -> string, x: T, xs: seq<T>): (r: seq<T>)
    ensures multiset(r) == multiset([x]) + multiset(xs)
    ensures |r| == |xs| + 1
  {
    if xs == [] then [x]
    else if Less(key(x), key(xs[0])) then [x] + xs
    else
      assert xs == [xs[0]] + xs[1..];
      [xs[0]] + Insert(key, x, xs[1..])
  }

  function SortBy<T>(key: T -> string, xs: seq<T>): (r: seq<T>)
    ensures multiset(r) == multiset(xs)
    ensures |r| == |xs|
  {
    if xs == [] then []
    else
      assert xs == xs[..|xs| - 1] + [xs[|xs| - 1]];
      Insert(key, xs[|xs| - 1], SortBy(key, xs[..|xs| - 1]))
  }

  lemma SameMember<T>(xs: seq<T>, ys: seq<T>, x: T)
    requires multiset(xs) == multiset(ys)
    ensures x in xs <==> x in ys
  {
    assert x in xs <==> x in multiset(xs);
    assert x in ys <==> x in multiset(ys);
  }

  lemma AheadOfAll<T>(key: T -> string, x: T, xs: seq<T>)
    requires Increasing(key, xs) && forall y :: y in xs ==> Less(key(x), key(y))
    ensures Increasing(key, [x] + xs)
  {
    var r := [x] + xs;
    forall i, j | 0 <= i < j < |r|
      ensures Less(key(r[i]), key(r[j]))
    {
      assert r[j] == xs[j - 1] && xs[j - 1] in xs;
      assert i > 0 ==> r[i] == xs[i - 1];
    }
  }

  lemma {:induction false} InsertIncreasing<T>(key: T -> string, x: T, xs: seq<T>)
    requires Increasing(key, xs)
    requires forall y :: y in xs ==> key(y) != key(x)
    ensures Increasing(key, Insert(key, x, xs))
  {
    if xs != [] {
      assert xs[0] in xs;
      Total(key(x), key(xs[0]));
      var r := Insert(key, x, xs);
      if Less(key(x), key(xs[0])) {
        forall i, j | 0 <= i < j < |r|
          ensures Less(key(r[i]), key(r[j]))
        {
          if i == 0 && j > 1 {
            Transitive(key(x), key(xs[0]), key(xs[j - 1]));
          }
        }
      } else {
        var rest := xs[1..];
        InsertIncreasing(key, x, rest);
        var tail := Insert(key, x, rest);
        assert multiset(tail) == multiset([x] + rest);
        forall y | y in tail
          ensures Less(key(xs[0]), key(y))
        {
          SameMember(tail, [x] + rest, y);
          if y != x {
            var m :| 0 <= m < |rest| && rest[m] == y;
            assert xs[m + 1] == y;
          }
        }
        AheadOfAll(key, xs[0], tail);
      }
    }
  }

  lemma {:induction false} SortIncreasing<T>(key: T -> string, xs: seq<T>)
    requires DistinctKeys(key, xs)
    ensures Increasing(key, SortBy(key, xs))
  {
    if xs != [] {
      var n := |xs| - 1;
      var init := xs[..n];
      SortIncreasing(key, init);
      forall y | y in SortBy(key, init)
        ensures key(y) != key(xs[n])
      {
        SameMember(SortBy(key, init), init, y);
        var m :| 0 <= m < n && init[m] == y;
      }
      InsertIncreasing(key, xs[n], SortBy(key, init));
    }
  }

  /** Keys never go down; equal keys are next to each other. */
  predicate Ordered<T>(key: T -> string, xs: seq<T>) {
    forall i, j :: 0 <= i < j < |xs| ==> !Less(key(xs[j]), key(xs[i]))
  }

  lemma NeverLess(a: string, b: string, c: string)
    requires !Less(b, a) && !Less(c, b)
    ensures !Less(c, a)
  {
    Total(a, b);
    Total(b, c);
    if Less(a, b) && Less(b, c) {
      Transitive(a, b, c);
    }
    if Less(c, a) {
      Asymmetric(c, a);
    }
  }

  lemma OrderedAhead<T>(key: T -> string, x: T, xs: seq<T>)
    requires Ordered(key, xs) && forall y :: y in xs ==> !Less(key(y), key(x))
    ensures Ordered(key, [x] + xs)
  {
    var r := [x] + xs;
    forall i, j | 0 <= i < j < |r|
      ensures !Less(key(r[j]), key(r[i]))
    {
      assert r[j] == xs[j - 1] && xs[j - 1] in xs;
      assert i > 0 ==> r[i] == xs[i - 1];
    }
  }

  lemma {:induction false} InsertOrdered<T>(key: T -> string, x: T, xs: seq<T>)
    requires Ordered(key, xs)
    ensures Ordered(key, Insert(key, x, xs))
  {
    if xs != [] {
      var rest := xs[1..];
      assert xs == [xs[0]] + rest;
      OrderedTail(key, xs);
      if Less(key(x), key(xs[0])) {
        forall y | y in xs
          ensures !Less(key(y), key(x))
        {
          Asymmetric(key(x), key(xs[0]));
          if y != xs[0] {
            NeverLess(key(x), key(xs[0]), key(y));
          }
        }
        OrderedAhead(key, x, xs);
      } else {
        InsertOrdered(key, x, rest);
        var tail := Insert(key, x, rest);
        forall y | y in tail
          ensures !Less(key(y), key(xs[0]))
        {
          SameMember(tail, [x] + rest, y);
        }
        OrderedAhead(key, xs[0], tail);
      }
    }
  }

  lemma OrderedTail<T>(key: T -> string, xs: seq<T>)
    requires xs != [] && Ordered(key, xs)
    ensures Ordered(key, xs[1..]) && forall y :: y in xs[1..] ==> !Less(key(y), key(xs[0]))
  {
  }

  lemma {:induction false} SortOrdered<T>(key: T -> string, xs: seq<T>)
    ensures Ordered(key, SortBy(key, xs))
  {
    if xs != [] {
      SortOrdered(key, xs[..|xs| - 1]);
      InsertOrdered(key, xs[|xs| - 1], SortBy(key, xs[..|xs| - 1]));
    }
  }

  /** The least element leads every increasing arrangement of the same collection. */
  lemma SameHead<T>(key: T -> string, xs: seq<T>, ys: seq<T>)
    requires Increasing(key, xs) && Increasing(key, ys)
    requires multiset(xs) == multiset(ys) && xs != [] && ys != []
    ensures xs[0] == ys[0]
  {
    SameMember(xs, ys, xs[0]);
    SameMember(xs, ys, ys[0]);
    var i :| 0 <= i < |ys| && ys[i] == xs[0];
    var j :| 0 <= j < |xs| && xs[j] == ys[0];
    if i > 0 && j > 0 {
      Asymmetric(key(ys[0]), key(ys[i]));
      assert false;
    }
  }

  /** A strictly increasing arrangement of a collection is unique. */
  lemma {:induction false} IncreasingIsCanonical<T>(key: T -> string, xs: seq<T>, ys: seq<T>)
    requires Increasing(key, xs) && Increasing(key, ys)
    requires multiset(xs) == multiset(ys)
    ensures xs == ys
  {
    assert |xs| == |multiset(xs)| && |ys| == |multiset(ys)|;
    if xs != [] {
      SameHead(key, xs, ys);
      assert xs == [xs[0]] + xs[1..] && ys == [ys[0]] + ys[1..];
      assert multiset(xs[1..]) == multiset(xs) - multiset([xs[0]]);
      assert multiset(ys[1..]) == multiset(ys) - multiset([ys[0]]);
      IncreasingIsCanonical(key, xs[1..], ys[1..]);
    }
  }

  lemma IncreasingIsDistinct<T>(key: T -> string, xs: seq<T>)
    requires Increasing(key, xs)
    ensures DistinctKeys(key, xs)
  {
    forall i, j | 0 <= i < j < |xs|
      ensures key(xs[i]) != key(xs[j])
    {
      Asymmetric(key(xs[i]), key(xs[j]));
    }
  }

  lemma CountedTwice<T>(xs: seq<T>, i: nat, j: nat)
    requires i < j < |xs| && xs[i] == xs[j]
    ensures multiset(xs)[xs[i]] >= 2
  {
    assert xs == xs[..i] + [xs[i]] + xs[i + 1..j] + [xs[j]] + xs[j + 1..];
  }

  lemma CountedOnce<T>(key: T -> string, xs: seq<T>, i: nat)
    requires i < |xs| && DistinctKeys(key, xs)
    ensures multiset(xs)[xs[i]] == 1
  {
    var x := xs[i];
    assert xs == xs[..i] + [x] + xs[i + 1..];
    forall k | 0 <= k < |xs| && k != i
      ensures xs[k] != x
    {
      if k < i {
        assert key(xs[k]) != key(xs[i]);
      } else {
        assert key(xs[i]) != key(xs[k]);
      }
    }
    assert x !in xs[..i] && x !in xs[i + 1..];
  }

  /** Distinct keys stay distinct in any order. */
  lemma DistinctInAnyOrder<T>(key: T -> string, left: seq<T>, right: seq<T>)
    requires multiset(left) == multiset(right) && DistinctKeys(key, left)
    ensures DistinctKeys(key, right)
  {
    forall i, j | 0 <= i < j < |right|
      ensures key(right[i]) != key(right[j])
    {
      SameMember(left, right, right[i]);
      SameMember(left, right, right[j]);
      var a :| 0 <= a < |left| && left[a] == right[i];
      var b :| 0 <= b < |left| && left[b] == right[j];
      if a == b {
        CountedTwice(right, i, j);
        CountedOnce(key, left, a);
      } else if a < b {
        assert key(left[a]) != key(left[b]);
      } else {
        assert key(left[b]) != key(left[a]);
      }
    }
  }
}
