/** Counting elements of a sequence, under permutation and update. */
module Counting {

  function Count<T>(s: seq<T>, p: T -> bool): nat
  {
    if s == [] then 0 else (if p(s[0]) then 1 else 0) + Count(s[1..], p)
  }

  lemma {:induction false} CountConcat<T>(a: seq<T>, b: seq<T>, p: T -> bool)
    ensures Count(a + b, p) == Count(a, p) + Count(b, p)
  {
    if a == [] {
      assert a + b == b;
    } else {
      assert (a + b)[1..] == a[1..] + b;
      CountConcat(a[1..], b, p);
    }
  }

  ghost function Positions<T>(s: seq<T>, p: T -> bool): set<nat> { set i: nat | i < |s| && p(s[i]) }

  /** A count is the number of positions. */
  lemma {:induction false} CountMeaning<T>(s: seq<T>, p: T -> bool)
    ensures Count(s, p) == |Positions(s, p)|
  {
    if s != [] {
      var n := |s| - 1;
      CountMeaning(s[..n], p);
      assert s == s[..n] + [s[n]];
      CountConcat(s[..n], [s[n]], p);
      assert Positions(s, p) == Positions(s[..n], p) + if p(s[n]) then {n} else {};
    }
  }

  lemma CountAt<T>(s: seq<T>, i: nat, p: T -> bool)
    requires i < |s|
    ensures Count(s, p) == Count(s[..i], p) + (if p(s[i]) then 1 else 0) + Count(s[i + 1..], p)
  {
    assert s == s[..i] + s[i..];
    CountConcat(s[..i], s[i..], p);
    assert s[i..][1..] == s[i + 1..];
  }

  /** Replacing one element changes the count by the difference of the two elements. */
  lemma CountUpdate<T>(s: seq<T>, i: nat, x: T, p: T -> bool)
    requires i < |s|
    ensures Count(s[i := x], p) + (if p(s[i]) then 1 else 0) == Count(s, p) + (if p(x) then 1 else 0)
  {
    var t := s[i := x];
    CountAt(s, i, p);
    CountAt(t, i, p);
    assert t[..i] == s[..i] && t[i + 1..] == s[i + 1..];
  }

  lemma CountPush<T>(s: seq<T>, x: T, p: T -> bool)
    ensures Count(s + [x], p) == Count(s, p) + if p(x) then 1 else 0
  {
    CountConcat(s, [x], p);
    assert Count([x], p) == (if p(x) then 1 else 0) + Count([x][1..], p);
  }

  /** `s` without its element at `i`. */
  function Drop<T>(s: seq<T>, i: nat): (r: seq<T>)
    requires i < |s|
    ensures multiset(r) == multiset(s) - multiset{s[i]}
  {
    assert s == s[..i] + [s[i]] + s[i + 1..];
    s[..i] + s[i + 1..]
  }

  lemma CountDrop<T>(s: seq<T>, i: nat, p: T -> bool)
    requires i < |s|
    ensures Count(s, p) == Count(Drop(s, i), p) + if p(s[i]) then 1 else 0
  {
    CountAt(s, i, p);
    CountConcat(s[..i], s[i + 1..], p);
  }

  lemma {:induction false} CountPermutation<T>(a: seq<T>, b: seq<T>, p: T -> bool)
    requires multiset(a) == multiset(b)
    ensures Count(a, p) == Count(b, p)
    decreases |a|
  {
    if a == [] {
      assert |multiset(a)| == |multiset(b)| == |b|;
    } else {
      assert a[0] in multiset(b);
      var j :| 0 <= j < |b| && b[j] == a[0];
      assert a == [a[0]] + a[1..];
      CountPermutation(a[1..], Drop(b, j), p);
      CountDrop(b, j, p);
    }
  }

  lemma {:induction false} CountPositive<T>(s: seq<T>, p: T -> bool)
    ensures Count(s, p) > 0 <==> exists x :: x in s && p(x)
    ensures Count(s, p) <= |s|
    ensures Count(s, p) == |s| <==> forall x :: x in s ==> p(x)
  {
    if s != [] {
      CountPositive(s[1..], p);
      assert s == [s[0]] + s[1..];
      assert s[0] in s;
      assert forall x :: x in s[1..] ==> x in s;
    }
  }

  /** A count above one means two positions. */
  lemma {:induction false} CountTwo<T>(s: seq<T>, i: nat, p: T -> bool)
    requires i < |s| && p(s[i])
    ensures Count(s, p) > 1 <==> exists j :: 0 <= j < |s| && j != i && p(s[j])
  {
    CountDrop(s, i, p);
    CountPositive(Drop(s, i), p);
    var d := Drop(s, i);
    if j :| 0 <= j < |s| && j != i && p(s[j]) {
      assert s[j] == if j < i then d[j] else d[j - 1];
    }
    if x :| x in d && p(x) {
      var k :| 0 <= k < |d| && d[k] == x;
      assert d[k] == s[if k < i then k else k + 1];
    }
  }

  /** A narrower predicate counts less, and as much exactly when it misses nothing. */
  lemma {:induction false} CountNarrower<T>(s: seq<T>, p: T -> bool, q: T -> bool)
    requires forall x :: x in s && p(x) ==> q(x)
    ensures Count(s, p) <= Count(s, q)
    ensures Count(s, p) == Count(s, q) <==> forall x :: x in s && q(x) ==> p(x)
  {
    if s != [] {
      assert s[0] in s && forall x :: x in s[1..] ==> x in s;
      CountNarrower(s[1..], p, q);
      assert s == [s[0]] + s[1..];
    }
  }

  /** Two predicates that exclude each other count together what their disjunction counts. */
  lemma {:induction false} CountSplit<T>(s: seq<T>, p: T -> bool, q: T -> bool, r: T -> bool)
    requires forall x :: x in s ==> (p(x) <==> q(x) || r(x)) && !(q(x) && r(x))
    ensures Count(s, p) == Count(s, q) + Count(s, r)
  {
    if s != [] {
      assert s[0] in s && forall x :: x in s[1..] ==> x in s;
      CountSplit(s[1..], p, q, r);
    }
  }
}
