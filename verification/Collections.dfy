/** Counting the elements of sets and sequences. */
module Collections {

  lemma SubsetSize<T>(a: set<T>, b: set<T>)
    requires a <= b
    ensures |a| <= |b|
  {
    assert b == a + (b - a);
  }

  ghost function Elements<T>(s: seq<T>): set<T> {
    set x | x in s
  }

  lemma {:induction false} DistinctSize<T>(s: seq<T>)
    requires forall i, j :: 0 <= i < j < |s| ==> s[i] != s[j]
    ensures |Elements(s)| == |s|
  {
    if s != [] {
      DistinctSize(s[1..]);
      assert Elements(s) == {s[0]} + Elements(s[1..]);
    }
  }

  /** kept lists, in order, exactly the elements of all that satisfy keep: those at the places `at`. */
  ghost predicate KeepsAt<T(!new)>(kept: seq<T>, all: seq<T>, keep: T -> bool, at: seq<nat>) {
    && |at| == |kept|
    && (forall i, j :: 0 <= i < j < |at| ==> at[i] < at[j])
    && (forall k :: 0 <= k < |at| ==> at[k] < |all| && kept[k] == all[at[k]] && keep(kept[k]))
    && (forall j {:trigger IsPlace(at, j)} :: 0 <= j < |all| && keep(all[j]) ==> IsPlace(at, j))
  }

  predicate IsPlace(at: seq<nat>, j: int) {
    exists k :: 0 <= k < |at| && at[k] == j
  }

  ghost predicate Keeps<T(!new)>(kept: seq<T>, all: seq<T>, keep: T -> bool) {
    exists at :: KeepsAt(kept, all, keep, at)
  }

  lemma KeepsOneMore<T(!new)>(kept: seq<T>, all: seq<T>, keep: T -> bool, x: T)
    requires Keeps(kept, all, keep)
    ensures Keeps(kept + if keep(x) then [x] else [], all + [x], keep)
  {
    var at: seq<nat> :| KeepsAt(kept, all, keep, at);
    if keep(x) {
      OneMoreKept(kept, all, keep, at, x);
    } else {
      OneMoreDropped(kept, all, keep, at, x);
      assert kept + [] == kept;
    }
  }

  lemma OneMoreKept<T(!new)>(kept: seq<T>, all: seq<T>, keep: T -> bool, at: seq<nat>, x: T)
    requires KeepsAt(kept, all, keep, at) && keep(x)
    ensures KeepsAt(kept + [x], all + [x], keep, at + [|all|])
  {
    var more: seq<nat>, longer := at + [|all|], all + [x];
    forall j | 0 <= j < |longer| && keep(longer[j])
      ensures IsPlace(more, j)
    {
      if j < |all| {
        assert longer[j] == all[j] && IsPlace(at, j);
        var k :| 0 <= k < |at| && at[k] == j;
        assert more[k] == j;
      } else {
        assert more[|at|] == j;
      }
    }
    forall k | 0 <= k < |more|
      ensures more[k] < |longer| && (kept + [x])[k] == longer[more[k]] && keep((kept + [x])[k])
    {
      if k < |at| {
        assert more[k] == at[k] && (kept + [x])[k] == kept[k];
      }
    }
  }

  lemma OneMoreDropped<T(!new)>(kept: seq<T>, all: seq<T>, keep: T -> bool, at: seq<nat>, x: T)
    requires KeepsAt(kept, all, keep, at) && !keep(x)
    ensures KeepsAt(kept, all + [x], keep, at)
  {
    forall j | 0 <= j < |all + [x]| && keep((all + [x])[j])
      ensures IsPlace(at, j)
    {
      assert j < |all| && (all + [x])[j] == all[j];
    }
  }

  lemma KeepsNone<T(!new)>(keep: T -> bool)
    ensures Keeps([], [], keep)
  {
    assert KeepsAt([], [], keep, []);
  }

  function Concat<T>(parts: seq<seq<T>>): seq<T> {
    if parts == [] then [] else Concat(parts[..|parts| - 1]) + parts[|parts| - 1]
  }
}
