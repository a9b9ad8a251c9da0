/** In-place insertion sort, greatest key first, as used for ranked lists. */
module Sorting {

  ghost predicate Descending<T(!new)>(s: seq<T>, key: T -> real) {
    forall i, j :: 0 <= i < j < |s| ==> key(s[i]) >= key(s[j])
  }

  method SwapBack<T>(a: array<T>, j: nat)
    requires 0 < j < a.Length
    modifies a
    ensures a[j - 1] == old(a[j]) && a[j] == old(a[j - 1])
    ensures forall k :: 0 <= k < a.Length && k != j && k != j - 1 ==> a[k] == old(a[k])
    ensures multiset(a[..]) == multiset(old(a[..]))
  {
    a[j], a[j - 1] := a[j - 1], a[j];
  }

  /** The inner loop: element i moves back past every smaller key. */
  method Sink<T(!new)>(a: array<T>, i: nat, key: T -> real)
    requires i < a.Length
    requires Descending(a[..i], key)
    modifies a
    ensures multiset(a[..]) == multiset(old(a[..]))
    ensures Descending(a[..i + 1], key)
  {
    var j := i;
    assert forall p :: 0 <= p < i ==> a[..i][p] == a[p];
    while j > 0 && key(a[j]) > key(a[j - 1])
      invariant 0 <= j <= i
      invariant multiset(a[..]) == multiset(old(a[..]))
      invariant forall p, q :: 0 <= p < q <= i && q != j ==> key(a[p]) >= key(a[q])
    {
      SwapBack(a, j);
      j := j - 1;
    }
  }

  method InsertionSort<T(!new)>(a: array<T>, key: T -> real)
    modifies a
    ensures multiset(a[..]) == multiset(old(a[..]))
    ensures Descending(a[..], key)
  {
    var i := 1;
    while i < a.Length
      invariant 1 <= i
      invariant multiset(a[..]) == multiset(old(a[..]))
      invariant Descending(a[..if i <= a.Length then i else a.Length], key)
    {
      Sink(a, i, key);
      i := i + 1;
    }
    assert a[..a.Length] == a[..];
  }

  /** Two descending arrangements of the same elements show the same keys in the same places. */
  lemma SortedKeysAgree<T(!new)>(s: seq<T>, t: seq<T>, key: T -> real)
    requires multiset(s) == multiset(t) && Descending(s, key) && Descending(t, key)
    ensures |s| == |t| && forall i :: 0 <= i < |s| ==> key(s[i]) == key(t[i])
  {
    assert |s| == |multiset(s)| == |multiset(t)| == |t|;
    forall i | 0 <= i < |s|
      ensures key(s[i]) == key(t[i])
    {
      SortedKeyBound(s, t, key, i);
      SortedKeyBound(t, s, key, i);
    }
  }

  lemma SortedKeyBound<T(!new)>(s: seq<T>, t: seq<T>, key: T -> real, i: nat)
    requires multiset(s) == multiset(t) && Descending(s, key) && Descending(t, key)
    requires i < |s| == |t|
    ensures key(s[i]) <= key(t[i])
  {
    var x := Overlap(s, t, i);
    var j :| 0 <= j <= i && s[j] == x;
    var k :| i <= k < |t| && t[k] == x;
    assert key(s[j]) >= key(s[i]) && key(t[i]) >= key(t[k]);
  }

  /** Of two arrangements, the first i+1 places of one and all but the first i of the other share an element. */
  lemma Overlap<T>(s: seq<T>, t: seq<T>, i: nat) returns (x: T)
    requires multiset(s) == multiset(t) && i < |s| == |t|
    ensures x in s[..i + 1] && x in t[i..]
  {
    var head, rest := multiset(s[..i + 1]), multiset(t[..i]);
    assert s == s[..i + 1] + s[i + 1..] && t == t[..i] + t[i..];
    assert multiset(s) == head + multiset(s[i + 1..]) && multiset(t) == rest + multiset(t[i..]);
    SubmultisetSize(head, rest);
    var y :| head[y] > rest[y];
    assert multiset(t)[y] == rest[y] + multiset(t[i..])[y] && multiset(s)[y] >= head[y];
    x := y;
  }

  lemma SubmultisetSize<T>(a: multiset<T>, b: multiset<T>)
    ensures a <= b ==> |a| <= |b|
  {
    assert a <= b ==> b == a + (b - a);
  }

  lemma CountOne<T>(s: seq<T>, i: nat, j: nat)
    requires i < j < |s| && s[i] == s[j]
    ensures multiset(s)[s[i]] >= 2
  {
    assert s == s[..j] + s[j..];
    assert s[..j][i] == s[i] && s[j..][0] == s[j];
  }

  lemma {:induction false} DistinctCount<T>(s: seq<T>, x: T)
    requires forall i, j :: 0 <= i < j < |s| ==> s[i] != s[j]
    ensures multiset(s)[x] <= 1
  {
    if s != [] {
      assert s == [s[0]] + s[1..];
      DistinctCount(s[1..], x);
      assert s[0] !in s[1..];
    }
  }

  lemma PermutedElements<T>(s: seq<T>, t: seq<T>)
    requires multiset(s) == multiset(t)
    ensures forall x :: x in s <==> x in t
  {
    assert forall x :: x in s <==> x in multiset(s);
    assert forall x :: x in t <==> x in multiset(t);
  }

  /** Rearranging a duplicate-free sequence leaves it duplicate-free. */
  lemma PermutedDistinct<T>(s: seq<T>, t: seq<T>)
    requires multiset(s) == multiset(t)
    requires forall i, j :: 0 <= i < j < |s| ==> s[i] != s[j]
    ensures forall i, j :: 0 <= i < j < |t| ==> t[i] != t[j]
  {
    forall i, j | 0 <= i < j < |t|
      ensures t[i] != t[j]
    {
      DistinctCount(s, t[i]);
      if t[i] == t[j] {
        CountOne(t, i, j);
      }
    }
  }
}
