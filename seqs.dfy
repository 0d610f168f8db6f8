/** Sequence operations that tools.py gets from Python comprehensions,
    `sum` and `sorted`. */
module Seqs {

  /** [x for x in s if keep(x)] */
  function Filter<T>(s: seq<T>, keep: T -> bool): (r: seq<T>)
    ensures |r| <= |s|
  {
    if s == [] then []
    else Filter(s[..|s| - 1], keep) + (if keep(s[|s| - 1]) then [s[|s| - 1]] else [])
  }

  /** The positions of `s` that Filter keeps, in increasing order. */
  function Kept<T>(s: seq<T>, keep: T -> bool): seq<nat> {
    if s == [] then []
    else Kept(s[..|s| - 1], keep) + (if keep(s[|s| - 1]) then [|s| - 1] else [])
  }

  ghost predicate StrictlyIncreasing(ks: seq<nat>) {
    forall i, j :: 0 <= i < j < |ks| ==> ks[i] < ks[j]
  }

  /** Filter keeps exactly the elements `keep` accepts, in their original
      order: its i-th element is the element of `s` at the i-th kept position. */
  lemma {:induction false} FilterByPositions<T>(s: seq<T>, keep: T -> bool)
    ensures |Filter(s, keep)| == |Kept(s, keep)|
    ensures StrictlyIncreasing(Kept(s, keep))
    ensures forall j :: 0 <= j < |Kept(s, keep)| ==>
              Kept(s, keep)[j] < |s| && Filter(s, keep)[j] == s[Kept(s, keep)[j]]
    ensures forall i :: 0 <= i < |s| ==> (keep(s[i]) <==> i in Kept(s, keep))
  {
    if s != [] {
      var n := |s| - 1;
      var init := s[..n];
      FilterByPositions(init, keep);
      var r0, k0 := Filter(init, keep), Kept(init, keep);
      var r, k := Filter(s, keep), Kept(s, keep);
      assert r == r0 + (if keep(s[n]) then [s[n]] else []);
      assert k == k0 + (if keep(s[n]) then [n] else []);
      forall j | 0 <= j < |k| ensures k[j] < |s| && r[j] == s[k[j]] {
        if j < |k0| {
          assert k[j] == k0[j] && r[j] == r0[j] && s[k0[j]] == init[k0[j]];
        }
      }
      forall i | 0 <= i < |s| ensures keep(s[i]) <==> i in k {
        if i < n {
          assert s[i] == init[i];
          assert i in k <==> i in k0;
        }
      }
    }
  }

  lemma {:induction false} FilterMembers<T>(s: seq<T>, keep: T -> bool, x: T)
    ensures x in Filter(s, keep) <==> x in s && keep(x)
  {
    if s != [] {
      var init := s[..|s| - 1];
      FilterMembers(init, keep, x);
      assert s == init + [s[|s| - 1]];
    }
  }

  lemma FilterSnoc<T>(s: seq<T>, x: T, keep: T -> bool)
    ensures Filter(s + [x], keep) == Filter(s, keep) + (if keep(x) then [x] else [])
  {
    assert (s + [x])[..|s|] == s;
  }

  lemma {:induction false} FilterKeepsAll<T>(s: seq<T>, keep: T -> bool)
    requires forall i :: 0 <= i < |s| ==> keep(s[i])
    ensures Filter(s, keep) == s
  {
    if s != [] {
      FilterKeepsAll(s[..|s| - 1], keep);
    }
  }

  lemma {:induction false} FilterKeepsNone<T>(s: seq<T>, keep: T -> bool)
    requires forall i :: 0 <= i < |s| ==> !keep(s[i])
    ensures Filter(s, keep) == []
  {
    if s != [] {
      FilterKeepsNone(s[..|s| - 1], keep);
    }
  }

  /** sum(f(x) for x in s) */
  function SumOver<T>(s: seq<T>, f: T -> int): int {
    if s == [] then 0 else SumOver(s[..|s| - 1], f) + f(s[|s| - 1])
  }

  lemma {:induction false} SumOverAppend<T>(a: seq<T>, b: seq<T>, f: T -> int)
    ensures SumOver(a + b, f) == SumOver(a, f) + SumOver(b, f)
  {
    if b == [] {
      assert a + b == a;
    } else {
      assert (a + b)[..|a + b| - 1] == a + b[..|b| - 1];
      SumOverAppend(a, b[..|b| - 1], f);
    }
  }

  lemma SumOverSingleton<T>(x: T, f: T -> int)
    ensures SumOver([x], f) == f(x)
  {
    assert [x][..0] == [];
  }

  lemma SumOverSplit<T>(s: seq<T>, k: nat, f: T -> int)
    requires k <= |s|
    ensures SumOver(s, f) == SumOver(s[..k], f) + SumOver(s[k..], f)
  {
    assert s == s[..k] + s[k..];
    SumOverAppend(s[..k], s[k..], f);
  }

  /** Replacing one element changes the sum by the difference. */
  lemma SumOverUpdate<T>(s: seq<T>, i: nat, x: T, f: T -> int)
    requires i < |s|
    ensures SumOver(s[i := x], f) == SumOver(s, f) - f(s[i]) + f(x)
  {
    assert s == s[..i] + [s[i]] + s[i + 1..];
    assert s[i := x] == s[..i] + [x] + s[i + 1..];
    SumOverAppend(s[..i] + [s[i]], s[i + 1..], f);
    SumOverAppend(s[..i] + [x], s[i + 1..], f);
    SumOverAppend(s[..i], [s[i]], f);
    SumOverAppend(s[..i], [x], f);
    assert SumOver([s[i]], f) == f(s[i]) by {
      assert [s[i]][..0] == [];
    }
    assert SumOver([x], f) == f(x) by {
      assert [x][..0] == [];
    }
  }

  lemma {:induction false} SumOverNonNegative<T>(s: seq<T>, f: T -> int)
    requires forall i :: 0 <= i < |s| ==> f(s[i]) >= 0
    ensures SumOver(s, f) >= 0
  {
    if s != [] {
      SumOverNonNegative(s[..|s| - 1], f);
    }
  }

  // ---- Python's sorted(): a stable sort -----------------------------------

  /** Puts `x` in front of the first element it is `le` to; elements that
      `x` is not `le` to stay ahead of it. */
  function Insert<T>(x: T, s: seq<T>, le: (T, T) -> bool): (r: seq<T>)
    ensures |r| == |s| + 1
    ensures multiset(r) == multiset(s) + multiset{x}
  {
    if s == [] || le(x, s[0]) then [x] + s
    else
      assert s == [s[0]] + s[1..];
      [s[0]] + Insert(x, s[1..], le)
  }

  /** sorted(s) under the order `le`, stable: elements on which `le` goes
      both ways keep their relative order. */
  function SortBy<T>(s: seq<T>, le: (T, T) -> bool): (r: seq<T>)
    ensures |r| == |s|
    ensures multiset(r) == multiset(s)
  {
    if s == [] then []
    else
      assert s == [s[0]] + s[1..];
      Insert(s[0], SortBy(s[1..], le), le)
  }

  ghost predicate TotalPreorder<T(!new)>(le: (T, T) -> bool) {
    (forall a, b :: le(a, b) || le(b, a)) &&
    (forall a, b, c :: le(a, b) && le(b, c) ==> le(a, c))
  }

  ghost predicate Sorted<T>(s: seq<T>, le: (T, T) -> bool) {
    forall i, j :: 0 <= i < j < |s| ==> le(s[i], s[j])
  }

  lemma {:induction false} InsertSorted<T(!new)>(x: T, s: seq<T>, le: (T, T) -> bool)
    requires TotalPreorder(le) && Sorted(s, le)
    ensures Sorted(Insert(x, s, le), le)
  {
    if s != [] && !le(x, s[0]) {
      var t := Insert(x, s[1..], le);
      InsertSorted(x, s[1..], le);
      assert le(s[0], x);
      forall k | 0 <= k < |t| ensures le(s[0], t[k]) {
        assert t[k] in multiset(t);
        assert t[k] in multiset(s[1..]) + multiset{x};
        if t[k] != x || t[k] in multiset(s[1..]) {
          if t[k] in multiset(s[1..]) {
            var m :| 0 <= m < |s[1..]| && s[1..][m] == t[k];
            assert s[1..][m] == s[m + 1];
          }
        }
      }
    }
  }

  lemma {:induction false} SortBySorted<T(!new)>(s: seq<T>, le: (T, T) -> bool)
    requires TotalPreorder(le)
    ensures Sorted(SortBy(s, le), le)
  {
    if s != [] {
      SortBySorted(s[1..], le);
      InsertSorted(s[0], SortBy(s[1..], le), le);
    }
  }

  lemma {:induction false} SumOverInsert<T>(x: T, s: seq<T>, le: (T, T) -> bool, f: T -> int)
    ensures SumOver(Insert(x, s, le), f) == f(x) + SumOver(s, f)
  {
    if s == [] || le(x, s[0]) {
      SumOverAppend([x], s, f);
    } else {
      SumOverInsert(x, s[1..], le, f);
      SumOverAppend([s[0]], Insert(x, s[1..], le), f);
      SumOverAppend([s[0]], s[1..], f);
      assert s == [s[0]] + s[1..];
    }
  }

  /** Sorting does not change a sum over the elements. */
  lemma {:induction false} SumOverSortBy<T>(s: seq<T>, le: (T, T) -> bool, f: T -> int)
    ensures SumOver(SortBy(s, le), f) == SumOver(s, f)
  {
    if s != [] {
      var rest := SortBy(s[1..], le);
      assert SortBy(s, le) == Insert(s[0], rest, le);
      SumOverSortBy(s[1..], le, f);
      SumOverInsert(s[0], rest, le, f);
      SumOverAppend([s[0]], s[1..], f);
      SumOverSingleton(s[0], f);
      assert s == [s[0]] + s[1..];
    }
  }

  /** The first i + 1 elements are the first i and then element i. */
  lemma TakeSnoc<T>(s: seq<T>, i: nat)
    requires i < |s|
    ensures s[..i + 1] == s[..i] + [s[i]]
  {
  }

  lemma ConcatHead<T>(a: seq<T>, b: seq<T>)
    requires a != []
    ensures a + b == [a[0]] + (a[1..] + b)
  {
  }
}
