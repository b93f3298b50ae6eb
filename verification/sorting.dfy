/** Sorting a sequence by a real-valued key, as `Stream.sorted` with a
    comparing key does: the result is ordered by key and holds exactly the
    input's elements. */
module Sorting {

  /** The key that sorts numbers by value. */
  function Identity(x: real): real { x }

  predicate SortedBy<T>(s: seq<T>, key: T -> real) {
    forall i, j :: 0 <= i < j < |s| ==> key(s[i]) <= key(s[j])
  }

  /** `x` placed after every element whose key does not exceed its own. */
  function Insert<T>(x: T, s: seq<T>, key: T -> real): (r: seq<T>)
    requires SortedBy(s, key)
    ensures SortedBy(r, key)
    ensures multiset(r) == multiset(s) + multiset{x}
    ensures |r| == |s| + 1
  {
    if |s| == 0 then [x]
    else if key(x) < key(s[0]) then [x] + s
    else
      var rest := Insert(x, s[1..], key);
      assert s == [s[0]] + s[1..];
      HeadBoundsTail(s, key);
      assert forall k :: 0 <= k < |rest| ==> key(s[0]) <= key(rest[k]) by {
        forall k | 0 <= k < |rest|
          ensures key(s[0]) <= key(rest[k])
        {
          assert rest[k] in multiset(rest);
        }
      }
      [s[0]] + rest
  }

  /** In a sorted sequence no later element has a key below the head's. */
  lemma HeadBoundsTail<T>(s: seq<T>, key: T -> real)
    requires SortedBy(s, key) && |s| > 0
    ensures forall y :: y in multiset(s[1..]) ==> key(s[0]) <= key(y)
  {
    forall y | y in multiset(s[1..])
      ensures key(s[0]) <= key(y)
    {
      var j :| 0 <= j < |s[1..]| && s[1..][j] == y;
      assert s[j + 1] == y;
    }
  }

  /** The input ordered by key; elements with equal keys keep their
      input order. */
  function SortBy<T>(s: seq<T>, key: T -> real): (r: seq<T>)
    ensures SortedBy(r, key)
    ensures multiset(r) == multiset(s)
    ensures |r| == |s|
  {
    if |s| == 0 then []
    else
      var init := s[..|s| - 1];
      assert s == init + [s[|s| - 1]];
      Insert(s[|s| - 1], SortBy(init, key), key)
  }

  /** The first `n` elements of a sorted sequence are sorted, and no
      element left out has a smaller key than one kept. */
  lemma TakeSorted<T>(s: seq<T>, key: T -> real, n: nat)
    requires SortedBy(s, key) && n <= |s|
    ensures SortedBy(s[..n], key)
    ensures forall i, j :: 0 <= i < n <= j < |s| ==> key(s[i]) <= key(s[j])
  {
  }

  /** The head of a sorted sequence of numbers is its least element. */
  lemma SortedHeadIsLeast(s: seq<real>, x: real)
    requires SortedBy(s, Identity) && x in s
    ensures s[0] <= x
  {
    var j :| 0 <= j < |s| && s[j] == x;
    if j > 0 {
      assert Identity(s[0]) <= Identity(s[j]);
    }
  }

  /** Numbers have one sorted arrangement: two sorted sequences holding
      the same elements are equal. So "the element at index i once
      sorted" names one value. */
  lemma {:induction false} SortedArrangementUnique(s: seq<real>, t: seq<real>)
    requires SortedBy(s, Identity) && SortedBy(t, Identity) && multiset(s) == multiset(t)
    ensures s == t
  {
    assert |s| == |multiset(s)| == |multiset(t)| == |t|;
    if |s| > 0 {
      assert s[0] in multiset(t) && t[0] in multiset(s);
      SortedHeadIsLeast(t, s[0]);
      SortedHeadIsLeast(s, t[0]);
      var s', t' := s[1..], t[1..];
      assert s == [s[0]] + s' && t == [t[0]] + t';
      assert s[0] == t[0];
      calc {
        multiset(s');
        multiset(s) - multiset{s[0]};
        multiset(t) - multiset{t[0]};
        multiset(t');
      }
      SortedTail(s);
      SortedTail(t);
      SortedArrangementUnique(s', t');
    }
  }

  /** Dropping the head keeps a sequence sorted. */
  lemma SortedTail(s: seq<real>)
    requires SortedBy(s, Identity) && |s| > 0
    ensures SortedBy(s[1..], Identity)
  {
    forall i, j | 0 <= i < j < |s[1..]| ensures Identity(s[1..][i]) <= Identity(s[1..][j]) {
      assert s[1..][i] == s[i + 1] && s[1..][j] == s[j + 1];
    }
  }
}
