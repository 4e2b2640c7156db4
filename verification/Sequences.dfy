/** Facts about sequences without repetition, used for the layer list and the connection lists. */
module Sequences {

  /** No element occurs twice. */
  ghost predicate NoDup<T>(s: seq<T>) {
    forall x {:trigger multiset(s)[x]} :: x in s ==> multiset(s)[x] == 1
  }

  lemma {:induction false} NoDupDistinct<T>(s: seq<T>, i: nat, j: nat)
    requires NoDup(s) && i < j < |s|
    ensures s[i] != s[j]
  {
    assert s == s[..j] + s[j..];
    assert multiset(s)[s[i]] == multiset(s[..j])[s[i]] + multiset(s[j..])[s[i]];
    assert s[..j][i] in s[..j] && s[j..][0] in s[j..];
  }

  lemma {:induction false} NoDupIntro<T>(s: seq<T>)
    requires forall i, j :: 0 <= i < j < |s| ==> s[i] != s[j]
    ensures NoDup(s)
  {
    if s != [] {
      var t := s[..|s| - 1];
      NoDupIntro(t);
      assert s == t + [s[|s| - 1]];
      assert multiset(s) == multiset(t) + multiset{s[|s| - 1]};
      forall x
        ensures x in s ==> multiset(s)[x] == 1
      {
        assert multiset(t)[x] <= 1;
        assert s[|s| - 1] !in t;
      }
    }
  }

  ghost predicate IsFirst<T>(s: seq<T>, x: T, k: nat) {
    && k <= |s|
    && (k < |s| ==> s[k] == x)
    && (k == |s| ==> x !in s)
    && (forall j :: 0 <= j < k ==> s[j] != x)
  }

  lemma {:induction false} FirstExists<T>(s: seq<T>, x: T)
    ensures exists k: nat :: IsFirst(s, x, k)
  {
    if s == [] || s[0] == x {
      assert IsFirst(s, x, 0);
    } else {
      FirstExists(s[1..], x);
      var k: nat :| IsFirst(s[1..], x, k);
      assert forall j :: 0 < j < k + 1 ==> s[j] == s[1..][j - 1];
      assert s == [s[0]] + s[1..];
      assert IsFirst(s, x, k + 1);
    }
  }

  lemma {:induction false} HasMember<T>(s: seq<T>)
    requires s != []
    ensures s[0] in s
  {
  }

  /** The first position of x, as std::find returns it; |s| stands for end(). */
  ghost function IndexOf<T>(s: seq<T>, x: T): (k: nat)
    ensures k <= |s|
    ensures k < |s| <==> x in s
    ensures k < |s| ==> s[k] == x
    ensures forall j {:trigger s[j]} :: 0 <= j < k ==> s[j] != x
  {
    FirstExists(s, x);
    var k: nat :| IsFirst(s, x, k);
    k
  }

  /** std::find. */
  method Find<T(==)>(s: seq<T>, x: T) returns (k: nat)
    ensures k == IndexOf(s, x)
  {
    k := 0;
    while k < |s| && s[k] != x
      invariant k <= |s|
      invariant x !in s[..k]
    {
      k := k + 1;
    }
    assert forall j :: 0 <= j < k ==> s[j] == s[..k][j];
  }

  lemma {:induction false} IndexOfUnique<T>(s: seq<T>, k: nat)
    requires NoDup(s) && k < |s|
    ensures IndexOf(s, s[k]) == k
  {
    if IndexOf(s, s[k]) < k {
      NoDupDistinct(s, IndexOf(s, s[k]), k);
    }
  }

  function RemoveAt<T>(s: seq<T>, k: nat): (r: seq<T>)
    requires k < |s|
    ensures |r| == |s| - 1
    ensures forall j {:trigger r[j]} :: 0 <= j < k ==> r[j] == s[j]
    ensures forall j {:trigger r[j]} :: k <= j < |r| ==> r[j] == s[j + 1]
  {
    s[..k] + s[k + 1..]
  }

  function InsertAt<T>(s: seq<T>, k: nat, x: T): (r: seq<T>)
    requires k <= |s|
    ensures |r| == |s| + 1
    ensures r[k] == x
    ensures forall j {:trigger r[j]} :: 0 <= j < k ==> r[j] == s[j]
    ensures forall j {:trigger r[j]} :: k < j < |r| ==> r[j] == s[j - 1]
  {
    s[..k] + [x] + s[k..]
  }

  lemma {:induction false} RemoveAtMembers<T>(s: seq<T>, k: nat)
    requires NoDup(s) && k < |s|
    ensures NoDup(RemoveAt(s, k))
    ensures forall x :: x in RemoveAt(s, k) <==> x in s && x != s[k]
  {
    var r := RemoveAt(s, k);
    forall i, j | 0 <= i < j < |r|
      ensures r[i] != r[j]
    {
      NoDupDistinct(s, if i < k then i else i + 1, if j < k then j else j + 1);
    }
    NoDupIntro(r);
    forall x | x in s && x != s[k]
      ensures x in r
    {
      var j := IndexOf(s, x);
      assert r[if j < k then j else j - 1] == x;
    }
    forall x | x in r
      ensures x != s[k]
    {
      var j := IndexOf(r, x);
      if j < k { NoDupDistinct(s, j, k); } else { NoDupDistinct(s, k, j + 1); }
    }
  }

  lemma {:induction false} RemoveAtIndex<T>(s: seq<T>, k: nat, x: T)
    requires NoDup(s) && k < |s| && x in s && x != s[k]
    ensures IndexOf(RemoveAt(s, k), x) == if IndexOf(s, x) < k then IndexOf(s, x) else IndexOf(s, x) - 1
  {
    var r := RemoveAt(s, k);
    var j := IndexOf(s, x);
    RemoveAtMembers(s, k);
    IndexOfUnique(r, if j < k then j else j - 1);
  }

  lemma {:induction false} InsertAtMembers<T>(s: seq<T>, k: nat, x: T)
    requires NoDup(s) && k <= |s| && x !in s
    ensures NoDup(InsertAt(s, k, x))
    ensures forall y :: y in InsertAt(s, k, x) <==> y in s || y == x
  {
    var r := InsertAt(s, k, x);
    forall i, j | 0 <= i < j < |r|
      ensures r[i] != r[j]
    {
      if i != k && j != k {
        NoDupDistinct(s, if i < k then i else i - 1, if j < k then j else j - 1);
      } else if i == k {
        assert r[j] == s[j - 1];
      } else {
        assert r[i] == s[i];
      }
    }
    NoDupIntro(r);
    forall y | y in s
      ensures y in r
    {
      var j := IndexOf(s, y);
      assert r[if j < k then j else j + 1] == y;
    }
  }

  lemma {:induction false} InsertAtIndex<T>(s: seq<T>, k: nat, x: T, y: T)
    requires NoDup(s) && k <= |s| && x !in s && y in s
    ensures IndexOf(InsertAt(s, k, x), y) == if IndexOf(s, y) < k then IndexOf(s, y) else IndexOf(s, y) + 1
    ensures IndexOf(InsertAt(s, k, x), x) == k
  {
    var r := InsertAt(s, k, x);
    var j := IndexOf(s, y);
    InsertAtMembers(s, k, x);
    IndexOfUnique(r, if j < k then j else j + 1);
    IndexOfUnique(r, k);
  }

  lemma {:induction false} AppendMembers<T>(s: seq<T>, x: T)
    requires NoDup(s) && x !in s
    ensures NoDup(s + [x])
    ensures forall y :: y in s + [x] <==> y in s || y == x
    ensures forall y :: y in s ==> IndexOf(s + [x], y) == IndexOf(s, y)
    ensures IndexOf(s + [x], x) == |s|
  {
    var r := s + [x];
    assert multiset(r) == multiset(s) + multiset{x};
    assert NoDup(r) by {
      forall y
        ensures y in r ==> multiset(r)[y] == 1
      {
        assert multiset(s)[y] <= 1;
        assert x !in multiset(s);
      }
    }
    forall y | y in s
      ensures IndexOf(r, y) == IndexOf(s, y)
    {
      IndexOfUnique(r, IndexOf(s, y));
    }
    IndexOfUnique(r, |s|);
  }

  lemma {:induction false} RemoveInserted<T>(s: seq<T>, q: nat, x: T)
    requires q <= |s|
    ensures RemoveAt(InsertAt(s, q, x), q) == s
  {
  }

  lemma {:induction false} RemoveAdded<K, V>(m: map<K, V>, k: K, v: V)
    requires k !in m
    ensures m[k := v] - {k} == m
  {
  }

  /** Moving the head of t to the end of s. */
  lemma {:induction false} HeadToEnd<T>(s: seq<T>, t: seq<T>, b: seq<T>)
    requires t != []
    ensures s + t == (s + [t[0]]) + t[1..]
    ensures (b + s) + [t[0]] == b + (s + [t[0]])
    ensures forall x :: x in s + [t[0]] <==> x in s || x == t[0]
  {
  }

  ghost function Elems<T>(s: seq<T>): set<T> {
    set x | x in s
  }

  /** A sequence without repetition is as long as its set of members is large. */
  lemma {:induction false} NoDupCardinality<T>(s: seq<T>)
    requires NoDup(s)
    ensures |Elems(s)| == |s|
  {
    if s != [] {
      var t := s[..|s| - 1];
      RemoveAtMembers(s, |s| - 1);
      assert t == RemoveAt(s, |s| - 1);
      NoDupCardinality(t);
      assert Elems(s) == Elems(t) + {s[|s| - 1]};
    } else {
      assert Elems(s) == {};
    }
  }

  /** s has the elements of t, each once, in some order. */
  ghost predicate Reordered<T(!new)>(t: seq<T>, s: seq<T>) {
    NoDup(s) && |s| == |t| && forall x :: x in s <==> x in t
  }

  /** What an in-place sort has in the list when it is cut short: a sorted part and the rest. */
  lemma {:induction false} ReorderedPrefix<T(!new)>(t: seq<T>, n: nat, s: seq<T>)
    requires NoDup(t) && n <= |t| && Reordered(t[..n], s)
    ensures Reordered(t, s + t[n..])
  {
    var r := s + t[n..];
    assert t == t[..n] + t[n..];
    assert forall x :: x in r <==> x in t;
    forall i, j | 0 <= i < j < |r|
      ensures r[i] != r[j]
    {
      if j < |s| {
        NoDupDistinct(s, i, j);
      } else if i < |s| {
        assert s[i] in s && s[i] in t[..n];
        NoDupDistinct(t, IndexOf(t[..n], s[i]), n + (j - |s|));
      } else {
        NoDupDistinct(t, n + (i - |s|), n + (j - |s|));
      }
    }
    NoDupIntro(r);
  }

  lemma {:induction false} SubsetSize<T>(a: set<T>, b: set<T>)
    requires a <= b
    ensures |a| <= |b|
  {
    assert b == a + (b - a);
  }

  lemma {:induction false} MembersAtMost<T>(s: seq<T>)
    ensures |Elems(s)| <= |s|
  {
    if s != [] {
      var t := s[..|s| - 1];
      MembersAtMost(t);
      assert Elems(s) == Elems(t) + {s[|s| - 1]};
    } else {
      assert Elems(s) == {};
    }
  }

  /** Different keys have different values, so there are no more keys than values. */
  lemma {:induction false} InjectiveSize<K, V>(m: map<K, V>, s: set<V>)
    requires forall k :: k in m ==> m[k] in s
    requires forall j, k :: j in m && k in m && m[j] == m[k] ==> j == k
    ensures |m.Keys| <= |s|
    decreases |m.Keys|
  {
    if m.Keys != {} {
      var k :| k in m.Keys;
      var m' := m - {k};
      assert m'.Keys == m.Keys - {k};
      InjectiveSize(m', s - {m[k]});
    }
  }

  /** The numbers below n. */
  ghost function Below(n: nat): (s: set<nat>)
    ensures |s| == n
    ensures forall x :: x in s ==> 0 <= x < n
    ensures forall x: nat :: x < n ==> x in s
  {
    if n == 0 then {}
    else
      var t := Below(n - 1);
      assert n - 1 !in t;
      assert forall x :: x in t + {n - 1} <==> x in t || x == n - 1;
      t + {n - 1}
  }

  ghost predicate NonDecreasing(s: seq<nat>) {
    forall j, k :: 0 <= j < k < |s| ==> s[j] <= s[k]
  }

  lemma {:induction false} InsertKeepsOrder(s: seq<nat>, q: nat, x: nat)
    requires NonDecreasing(s) && q <= |s|
    requires q > 0 ==> s[q - 1] <= x
    requires q < |s| ==> x <= s[q]
    ensures NonDecreasing(InsertAt(s, q, x))
  {
    assert forall j :: 0 <= j < q ==> s[j] <= x;
    assert forall k :: q <= k < |s| ==> x <= s[k];
  }

  lemma {:induction false} RemoveKeepsOrder(s: seq<nat>, q: nat)
    requires NonDecreasing(s) && q < |s|
    ensures NonDecreasing(RemoveAt(s, q))
  {
  }

  /** How often x occurs in s. */
  ghost function Count<T>(s: seq<T>, x: T): (c: nat) {
    multiset(s)[x]
  }

  lemma {:induction false} CountAtMost<T>(s: seq<T>, x: T)
    ensures Count(s, x) <= |s|
  {
    assert |multiset(s)| == |s|;
    assert multiset(s) == multiset(s)[x := 0] + multiset{}[x := Count(s, x)];
  }

  /** In a nondecreasing sequence the least elements come first ... */
  lemma {:induction false} CountPrefix(s: seq<nat>, x: nat, k: nat)
    requires NonDecreasing(s) && (forall j :: 0 <= j < |s| ==> x <= s[j]) && k < |s|
    ensures s[k] == x <==> k < Count(s, x)
  {
    var t := s[..|s| - 1];
    CountAtMost(t, x);
    assert s == t + [s[|s| - 1]];
    assert Count(s, x) == Count(t, x) + if s[|s| - 1] == x then 1 else 0;
    if t != [] {
      CountPrefix(t, x, if k < |t| then k else |t| - 1);
      if k < |t| && s[|s| - 1] == x {
        CountPrefix(t, x, |t| - 1);
      }
    }
  }

  /** ... and the greatest last. */
  lemma {:induction false} CountSuffix(s: seq<nat>, x: nat, k: nat)
    requires NonDecreasing(s) && (forall j :: 0 <= j < |s| ==> s[j] <= x) && k < |s|
    ensures s[k] == x <==> |s| - Count(s, x) <= k
  {
    var t := s[1..];
    CountAtMost(t, x);
    assert s == [s[0]] + t;
    assert Count(s, x) == Count(t, x) + if s[0] == x then 1 else 0;
    if t != [] {
      CountSuffix(t, x, if k > 0 then k - 1 else 0);
      if k > 0 && s[0] == x {
        CountSuffix(t, x, 0);
      }
    }
  }

  /** t is s with some elements left out. */
  ghost predicate Subsequence<T>(t: seq<T>, s: seq<T>) {
    t == [] || (s != [] &&
      if t[|t| - 1] == s[|s| - 1] then Subsequence(t[..|t| - 1], s[..|s| - 1]) else Subsequence(t, s[..|s| - 1]))
  }

  lemma {:induction false} SubsequenceRefl<T>(s: seq<T>)
    ensures Subsequence(s, s)
  {
    if s != [] {
      SubsequenceRefl(s[..|s| - 1]);
    }
  }

  lemma {:induction false} SubsequenceShorter<T>(t: seq<T>, s: seq<T>)
    requires Subsequence(t, s) && t != []
    ensures Subsequence(t[..|t| - 1], s)
    decreases |s|, 0
  {
    var s' := s[..|s| - 1];
    if t[|t| - 1] != s[|s| - 1] {
      SubsequenceShorter(t, s');
    }
    SubsequenceLonger(t[..|t| - 1], s', s[|s| - 1]);
    assert s' + [s[|s| - 1]] == s;
  }

  lemma {:induction false} SubsequenceLonger<T>(t: seq<T>, s: seq<T>, x: T)
    requires Subsequence(t, s)
    ensures Subsequence(t, s + [x])
    decreases |s|, 1
  {
    assert (s + [x])[..|s|] == s;
    if t != [] && t[|t| - 1] == x {
      SubsequenceShorter(t, s);
    }
  }

  lemma {:induction false} SubsequenceTransitive<T>(t: seq<T>, s: seq<T>, r: seq<T>)
    requires Subsequence(t, s) && Subsequence(s, r)
    ensures Subsequence(t, r)
    decreases |r|
  {
    if t != [] {
      var r' := r[..|r| - 1];
      if s[|s| - 1] == r[|r| - 1] {
        SubsequenceTransitive(if t[|t| - 1] == s[|s| - 1] then t[..|t| - 1] else t, s[..|s| - 1], r');
      } else {
        SubsequenceTransitive(t, s, r');
        if t[|t| - 1] == r[|r| - 1] {
          SubsequenceShorter(t, r');
        }
      }
    }
  }

  lemma {:induction false} RemoveAtSubsequence<T>(s: seq<T>, k: nat)
    requires k < |s|
    ensures Subsequence(RemoveAt(s, k), s)
    decreases |s|
  {
    var r, s' := RemoveAt(s, k), s[..|s| - 1];
    if k == |s| - 1 {
      assert r == s';
      SubsequenceRefl(s');
      SubsequenceLonger(s', s', s[k]);
      assert s' + [s[k]] == s;
    } else {
      assert r[..|r| - 1] == RemoveAt(s', k);
      RemoveAtSubsequence(s', k);
    }
  }

  /** What is left keeps its order. */
  lemma {:induction false} SubsequenceKeepsOrder<T>(t: seq<T>, s: seq<T>, j: nat, k: nat)
    requires Subsequence(t, s) && NoDup(s) && j < k < |t|
    ensures t[j] in s && t[k] in s && IndexOf(s, t[j]) < IndexOf(s, t[k])
    decreases |s|
  {
    var s' := s[..|s| - 1];
    RemoveAtMembers(s, |s| - 1);
    assert RemoveAt(s, |s| - 1) == s';
    assert forall x :: x in s' ==> IndexOf(s, x) == IndexOf(s', x) by {
      forall x | x in s'
        ensures IndexOf(s, x) == IndexOf(s', x)
      {
        IndexOfUnique(s, IndexOf(s', x));
      }
    }
    if t[|t| - 1] == s[|s| - 1] {
      var t' := t[..|t| - 1];
      IndexOfUnique(s, |s| - 1);
      if k < |t'| {
        SubsequenceKeepsOrder(t', s', j, k);
      } else {
        SubsequenceMembers(t', s');
        assert t'[j] in t';
      }
    } else {
      SubsequenceKeepsOrder(t, s', j, k);
    }
  }

  lemma {:induction false} SubsequenceMembers<T>(t: seq<T>, s: seq<T>)
    requires Subsequence(t, s)
    ensures forall x :: x in t ==> x in s
    decreases |s|
  {
    if t != [] {
      var t' := if t[|t| - 1] == s[|s| - 1] then t[..|t| - 1] else t;
      SubsequenceMembers(t', s[..|s| - 1]);
      assert forall x :: x in t ==> x in t' || x == s[|s| - 1];
    }
  }

  /** s without the elements of gone. */
  ghost function Without<T>(s: seq<T>, gone: set<T>): seq<T> {
    if s == [] then []
    else Without(s[..|s| - 1], gone) + if s[|s| - 1] in gone then [] else [s[|s| - 1]]
  }

  lemma {:induction false} WithoutNothing<T>(s: seq<T>)
    ensures Without(s, {}) == s
  {
    if s != [] {
      WithoutNothing(s[..|s| - 1]);
    }
  }

  lemma {:induction false} WithoutSubsequence<T>(s: seq<T>, gone: set<T>)
    ensures Subsequence(Without(s, gone), s)
  {
    if s != [] {
      var t, l := s[..|s| - 1], s[|s| - 1];
      var w := Without(t, gone);
      WithoutSubsequence(t, gone);
      assert s == t + [l];
      if l in gone {
        SubsequenceLonger(w, t, l);
        assert w + [] == w;
      } else {
        assert (w + [l])[..|w|] == w;
      }
    }
  }

  /** An element that does not occur need not be left out. */
  lemma {:induction false} WithoutAbsent<T>(s: seq<T>, gone: set<T>, x: T)
    requires x !in s
    ensures Without(s, gone + {x}) == Without(s, gone)
  {
    if s != [] {
      WithoutAbsent(s[..|s| - 1], gone, x);
      assert s[|s| - 1] in s;
    }
  }

  lemma {:induction false} WithoutMembers<T>(s: seq<T>, gone: set<T>)
    ensures forall x :: x in Without(s, gone) <==> x in s && x !in gone
  {
    if s != [] {
      var t := s[..|s| - 1];
      WithoutMembers(t, gone);
      assert forall x :: x in s <==> x in t || x == s[|s| - 1];
    }
  }

  /** Leaving out one more element removes it where it stands. */
  lemma {:induction false} WithoutOneMore<T>(s: seq<T>, gone: set<T>, x: T)
    requires NoDup(s) && x in Without(s, gone)
    ensures Without(s, gone + {x}) == RemoveAt(Without(s, gone), IndexOf(Without(s, gone), x))
  {
    var t, l := s[..|s| - 1], s[|s| - 1];
    PrefixNoDup(s);
    var w, w' := Without(t, gone), Without(t, gone + {x});
    WithoutMembers(t, gone);
    WithoutMembers(s, gone);
    if l == x {
      WithoutAbsent(t, gone, x);
      LastRemoved(w, x);
    } else if l in gone {
      WithoutOneMore(t, gone, x);
      assert w + [] == w && w' + [] == w';
    } else {
      WithoutOneMore(t, gone, x);
      EarlierRemoved(w, x, l);
      assert Without(s, gone + {x}) == w' + [l] && Without(s, gone) == w + [l];
    }
  }

  lemma {:induction false} PrefixNoDup<T>(s: seq<T>)
    requires NoDup(s) && s != []
    ensures NoDup(s[..|s| - 1]) && s[|s| - 1] !in s[..|s| - 1]
  {
    RemoveAtMembers(s, |s| - 1);
    assert RemoveAt(s, |s| - 1) == s[..|s| - 1];
  }

  lemma {:induction false} NoDupPrefix<T>(s: seq<T>, n: nat)
    requires NoDup(s) && n <= |s|
    ensures NoDup(s[..n])
  {
    forall i, j | 0 <= i < j < n
      ensures s[..n][i] != s[..n][j]
    {
      NoDupDistinct(s, i, j);
    }
    NoDupIntro(s[..n]);
  }

  lemma {:induction false} LastRemoved<T>(s: seq<T>, x: T)
    requires x !in s
    ensures RemoveAt(s + [x], IndexOf(s + [x], x)) == s
  {
    var k := IndexOf(s + [x], x);
    assert (s + [x])[|s|] == x;
    assert s == (s + [x])[..|s|];
    assert forall j :: 0 <= j < |s| ==> s[j] in s;
  }

  lemma {:induction false} EarlierRemoved<T>(s: seq<T>, x: T, y: T)
    requires x in s && x != y
    ensures RemoveAt(s + [y], IndexOf(s + [y], x)) == RemoveAt(s, IndexOf(s, x)) + [y]
  {
    var j, k := IndexOf(s, x), IndexOf(s + [y], x);
    assert (s + [y])[j] == x;
    assert k < |s| ==> s[k] == x;
    assert j == k;
  }

  lemma {:induction false} WithoutConcat<T>(s: seq<T>, t: seq<T>, gone: set<T>)
    ensures Without(s + t, gone) == Without(s, gone) + Without(t, gone)
  {
    if t == [] {
      assert s + t == s;
    } else {
      var t', l := t[..|t| - 1], t[|t| - 1];
      assert (s + t)[..|s + t| - 1] == s + t';
      WithoutConcat(s, t', gone);
    }
  }

  lemma {:induction false} WithoutTwice<T>(s: seq<T>, a: set<T>, b: set<T>)
    ensures Without(Without(s, a), b) == Without(s, a + b)
  {
    if s != [] {
      var t, l := s[..|s| - 1], s[|s| - 1];
      WithoutTwice(t, a, b);
      if l in a {
        assert Without(s, a) == Without(t, a);
      } else {
        assert (Without(t, a) + [l])[..|Without(t, a)|] == Without(t, a);
      }
    }
  }

  /** Two selections from a sequence are equal exactly if they select the same elements. */
  lemma {:induction false} WithoutEqual<T>(s: seq<T>, a: set<T>, b: set<T>)
    ensures Without(s, a) == Without(s, b) <==> forall x :: x in s ==> (x in a <==> x in b)
  {
    WithoutMembers(s, a);
    WithoutMembers(s, b);
    if forall x :: x in s ==> (x in a <==> x in b) {
      WithoutSame(s, a, b);
    }
  }

  lemma {:induction false} WithoutSame<T>(s: seq<T>, a: set<T>, b: set<T>)
    requires forall x :: x in s ==> (x in a <==> x in b)
    ensures Without(s, a) == Without(s, b)
  {
    if s != [] {
      assert s[|s| - 1] in s;
      WithoutSame(s[..|s| - 1], a, b);
    }
  }

  /** The last of an ascending list is at least every member. */
  lemma {:induction false} LastIsLargest(s: seq<nat>, x: nat)
    requires NonDecreasing(s) && x in s
    ensures x <= s[|s| - 1]
  {
    assert IndexOf(s, x) < |s| - 1 ==> s[IndexOf(s, x)] <= s[|s| - 1];
  }

  ghost predicate SameCounts(s: seq<nat>, t: seq<nat>) {
    forall x: nat :: Count(s, x) == Count(t, x)
  }

  lemma {:induction false} SameMembers(s: seq<nat>, t: seq<nat>)
    requires SameCounts(s, t)
    ensures s != [] ==> s[0] in t && s[|s| - 1] in t
  {
    if s != [] {
      assert s[0] in s && s[|s| - 1] in s;
      assert Count(s, s[0]) > 0 && Count(s, s[|s| - 1]) > 0;
    }
  }

  lemma {:induction false} SameLast(s: seq<nat>, t: seq<nat>)
    requires NonDecreasing(s) && NonDecreasing(t) && SameCounts(s, t) && s != [] && t != []
    ensures s[|s| - 1] == t[|t| - 1]
  {
    SameMembers(s, t);
    SameMembers(t, s);
    LastIsLargest(s, t[|t| - 1]);
    LastIsLargest(t, s[|s| - 1]);
  }

  lemma {:induction false} CountPrefixOf(s: seq<nat>, x: nat)
    requires s != []
    ensures Count(s, x) == Count(s[..|s| - 1], x) + if s[|s| - 1] == x then 1 else 0
  {
    assert s == s[..|s| - 1] + [s[|s| - 1]];
  }

  lemma {:induction false} SamePrefixCounts(s: seq<nat>, t: seq<nat>)
    requires SameCounts(s, t) && s != [] && t != [] && s[|s| - 1] == t[|t| - 1]
    ensures SameCounts(s[..|s| - 1], t[..|t| - 1])
  {
    var s', t' := s[..|s| - 1], t[..|t| - 1];
    forall x: nat
      ensures Count(s', x) == Count(t', x)
    {
      CountPrefixOf(s, x);
      CountPrefixOf(t, x);
    }
  }

  lemma {:induction false} SameByPrefix(s: seq<nat>, t: seq<nat>)
    requires s != [] && t != [] && s[|s| - 1] == t[|t| - 1] && s[..|s| - 1] == t[..|t| - 1]
    ensures s == t
  {
    assert s == s[..|s| - 1] + [s[|s| - 1]] && t == t[..|t| - 1] + [t[|t| - 1]];
  }

  /** Ascending lists of the same numbers are equal. */
  lemma {:induction false} SortedUnique(s: seq<nat>, t: seq<nat>)
    requires NonDecreasing(s) && NonDecreasing(t) && SameCounts(s, t)
    ensures s == t
  {
    SameMembers(s, t);
    SameMembers(t, s);
    if s != [] && t != [] {
      SameLast(s, t);
      SamePrefixCounts(s, t);
      SortedUnique(s[..|s| - 1], t[..|t| - 1]);
      SameByPrefix(s, t);
    }
  }

  /** A list that counts from zero. */
  lemma {:induction false} FromZero(s: seq<nat>)
    requires forall k :: 0 <= k < |s| ==> s[k] == k
    ensures NoDup(s) && forall k: nat :: k < |s| ==> k in s && IndexOf(s, k) == k
    ensures forall x: nat :: x in s <==> x < |s|
  {
    NoDupIntro(s);
    forall k: nat | k < |s|
      ensures k in s && IndexOf(s, k) == k
    {
      assert s[k] == k;
      IndexOfUnique(s, k);
    }
    forall x: nat | x in s
      ensures x < |s|
    {
      assert s[IndexOf(s, x)] == x;
    }
  }
}
