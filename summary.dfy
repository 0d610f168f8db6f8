/** file_summary: the table of file types per directory that is printed
    before the checks run. */
module Summary {
  import opened Text
  import opened Paths
  import Seqs

  // ---- collections.Counter, in insertion order ---------------------------

  /** A Counter of path suffixes: its items in insertion order. */
  type Counter = seq<(string, nat)>

  /** A dictionary in insertion order: no key occurs twice. */
  ghost predicate DistinctKeys<K, V>(s: seq<(K, V)>) {
    forall i, j :: 0 <= i < j < |s| ==> s[i].0 != s[j].0
  }

  /** Every count is at least one. */
  ghost predicate Positive(c: Counter) {
    forall j :: 0 <= j < |c| ==> c[j].1 >= 1
  }

  /** The position of key `k`, or -1 when it is missing. */
  function IndexOfKey<K(==), V>(s: seq<(K, V)>, k: K): (i: int)
    ensures -1 <= i < |s|
    ensures i >= 0 ==> s[i].0 == k
    ensures i < 0 ==> forall j :: 0 <= j < |s| ==> s[j].0 != k
  {
    if s == [] then -1
    else if s[|s| - 1].0 == k then |s| - 1
    else IndexOfKey(s[..|s| - 1], k)
  }

  lemma {:induction false} IndexOfDistinct<K, V>(s: seq<(K, V)>, j: nat)
    requires DistinctKeys(s) && j < |s|
    ensures IndexOfKey(s, s[j].0) == j
  {
    if j < |s| - 1 {
      var init := s[..|s| - 1];
      assert s[|s| - 1].0 != s[j].0;
      assert DistinctKeys(init) by {
        forall a, b | 0 <= a < b < |init| ensures init[a].0 != init[b].0 {
          assert init[a] == s[a] && init[b] == s[b];
        }
      }
      assert init[j] == s[j];
      IndexOfDistinct(init, j);
    }
  }

  /** counter[k]: zero for a missing key. */
  function Get(c: Counter, k: string): nat {
    var i := IndexOfKey(c, k);
    if i >= 0 then c[i].1 else 0
  }

  /** Two counters with the same keys at the same positions find a key at the same place. */
  lemma {:induction false} IndexOfSameKeys<K, V>(c: seq<(K, V)>, d: seq<(K, V)>, k: K)
    requires |c| == |d| && forall m :: 0 <= m < |c| ==> c[m].0 == d[m].0
    ensures IndexOfKey(c, k) == IndexOfKey(d, k)
  {
    if c != [] {
      IndexOfSameKeys(c[..|c| - 1], d[..|d| - 1], k);
    }
  }

  lemma IndexOfSnoc<K, V>(s: seq<(K, V)>, x: (K, V), k: K)
    ensures IndexOfKey(s + [x], k) == if x.0 == k then |s| else IndexOfKey(s, k)
  {
    assert (s + [x])[..|s|] == s;
  }

  function CountFn(): ((string, nat)) -> int {
    (e: (string, nat)) => e.1
  }

  /** sum(counter.values()) */
  function Total(c: Counter): nat {
    Seqs.SumOverNonNegative(c, CountFn());
    Seqs.SumOver(c, CountFn())
  }

  /** counter[k] += n: an existing key keeps its place, a new key goes last. */
  function IncrementBy(c: Counter, k: string, n: nat): Counter {
    var i := IndexOfKey(c, k);
    if i >= 0 then c[i := (k, c[i].1 + n)] else c + [(k, n)]
  }

  lemma IncrementByTotal(c: Counter, k: string, n: nat)
    ensures Total(IncrementBy(c, k, n)) == Total(c) + n
  {
    var i := IndexOfKey(c, k);
    if i >= 0 {
      Seqs.SumOverUpdate(c, i, (k, c[i].1 + n), CountFn());
    } else {
      Seqs.SumOverAppend(c, [(k, n)], CountFn());
      Seqs.SumOverSingleton((k, n), CountFn());
    }
  }

  lemma IncrementByDistinct(c: Counter, k: string, n: nat)
    requires DistinctKeys(c)
    ensures DistinctKeys(IncrementBy(c, k, n))
  {
    var i := IndexOfKey(c, k);
    var r := IncrementBy(c, k, n);
    if i >= 0 {
      assert forall m :: 0 <= m < |r| ==> r[m].0 == c[m].0;
    } else {
      assert forall m :: 0 <= m < |c| ==> r[m] == c[m];
    }
  }

  lemma IncrementByPositive(c: Counter, k: string, n: nat)
    requires Positive(c) && n >= 1
    ensures Positive(IncrementBy(c, k, n))
  {
  }

  lemma IncrementByGet(c: Counter, k: string, n: nat, k': string)
    requires DistinctKeys(c)
    ensures Get(IncrementBy(c, k, n), k') == Get(c, k') + (if k' == k then n else 0)
  {
    var i := IndexOfKey(c, k);
    var r := IncrementBy(c, k, n);
    if i >= 0 {
      IndexOfSameKeys(r, c, k');
    } else {
      IndexOfSnoc(c, (k, n), k');
    }
  }

  /** Adding to one key adds to the total and to that key's count alone,
      and adds the key when it was missing. */
  lemma IncrementByCounts(c: Counter, k: string, n: nat)
    ensures Total(IncrementBy(c, k, n)) == Total(c) + n
    ensures DistinctKeys(c) ==> DistinctKeys(IncrementBy(c, k, n))
    ensures DistinctKeys(c) ==> Get(IncrementBy(c, k, n), k) == Get(c, k) + n
    ensures DistinctKeys(c) ==> forall k' :: k' != k ==> Get(IncrementBy(c, k, n), k') == Get(c, k')
    ensures Positive(c) && n >= 1 ==> Positive(IncrementBy(c, k, n))
  {
    IncrementByTotal(c, k, n);
    if DistinctKeys(c) {
      IncrementByDistinct(c, k, n);
      IncrementByGet(c, k, n, k);
      forall k' | k' != k ensures Get(IncrementBy(c, k, n), k') == Get(c, k') {
        IncrementByGet(c, k, n, k');
      }
    }
    if Positive(c) && n >= 1 {
      IncrementByPositive(c, k, n);
    }
  }

  /** Counter addition c + d for counters whose counts are all positive (the
      only ones file_summary builds): each item of d is added in turn. */
  function Add(c: Counter, d: Counter): Counter {
    if d == [] then c else
      var last := d[|d| - 1];
      IncrementBy(Add(c, d[..|d| - 1]), last.0, last.1)
  }

  lemma {:induction false} AddTotal(c: Counter, d: Counter)
    ensures Total(Add(c, d)) == Total(c) + Total(d)
  {
    if d != [] {
      AddTotal(c, d[..|d| - 1]);
      IncrementByCounts(Add(c, d[..|d| - 1]), d[|d| - 1].0, d[|d| - 1].1);
    }
  }

  lemma {:induction false} AddDistinct(c: Counter, d: Counter)
    requires DistinctKeys(c)
    ensures DistinctKeys(Add(c, d))
  {
    if d != [] {
      AddDistinct(c, d[..|d| - 1]);
      IncrementByDistinct(Add(c, d[..|d| - 1]), d[|d| - 1].0, d[|d| - 1].1);
    }
  }

  /** Counter addition is key by key: each key's count in c + d is its
      count in c plus its count in d. */
  lemma {:induction false} AddGet(c: Counter, d: Counter, k: string)
    requires DistinctKeys(c) && DistinctKeys(d)
    ensures Get(Add(c, d), k) == Get(c, k) + Get(d, k)
  {
    if d != [] {
      var init := d[..|d| - 1];
      var last := d[|d| - 1];
      assert d == init + [last];
      assert DistinctKeys(init) by {
        forall a, b | 0 <= a < b < |init| ensures init[a].0 != init[b].0 {
          assert init[a] == d[a] && init[b] == d[b];
        }
      }
      AddGet(c, init, k);
      AddDistinct(c, init);
      IncrementByGet(Add(c, init), last.0, last.1, k);
      IndexOfSnoc(init, last, k);
      if last.0 == k {
        assert forall q :: 0 <= q < |init| ==> init[q].0 != k;
      }
    }
  }

  /** del counter[k]; Counter ignores a missing key. */
  function Delete(c: Counter, k: string): Counter {
    var i := IndexOfKey(c, k);
    if i >= 0 then c[..i] + c[i + 1..] else c
  }

  /** Deleting a key drops exactly its count and leaves no item with that key. */
  lemma DeleteCounts(c: Counter, k: string)
    requires DistinctKeys(c)
    ensures Total(Delete(c, k)) == Total(c) - Get(c, k)
    ensures forall j :: 0 <= j < |Delete(c, k)| ==> Delete(c, k)[j].0 != k
    ensures DistinctKeys(Delete(c, k))
    ensures Positive(c) ==> Positive(Delete(c, k))
  {
    var i := IndexOfKey(c, k);
    if i >= 0 {
      DeleteAtTotal(c, i);
      DeleteAtItems(c, i);
    }
  }

  /** Deleting a missing key leaves the counter as it is; deleting a present
      one removes that item alone, and every other key keeps its count and
      its place in the order. */
  lemma DeleteKeepsOthers(c: Counter, k: string)
    requires DistinctKeys(c)
    ensures IndexOfKey(c, k) < 0 ==> Delete(c, k) == c
    ensures forall k' :: k' != k ==> Get(Delete(c, k), k') == Get(c, k')
    ensures var i := IndexOfKey(c, k);
            i >= 0 ==> |Delete(c, k)| == |c| - 1
                       && forall j :: 0 <= j < |c| - 1 ==> Delete(c, k)[j] == c[if j < i then j else j + 1]
  {
    var i := IndexOfKey(c, k);
    if i >= 0 {
      forall k' | k' != k ensures Get(Delete(c, k), k') == Get(c, k') {
        DeleteGet(c, i, k');
      }
    }
  }

  /** Removing item i leaves the count of every other key as it was. */
  lemma DeleteGet(c: Counter, i: nat, k': string)
    requires i < |c| && DistinctKeys(c) && k' != c[i].0
    ensures Get(c[..i] + c[i + 1..], k') == Get(c, k')
  {
    var r := c[..i] + c[i + 1..];
    DeleteAtItems(c, i);
    assert forall j :: 0 <= j < |r| ==> r[j] == c[if j < i then j else j + 1];
    var m := IndexOfKey(c, k');
    if m >= 0 {
      var m' := if m < i then m else m - 1;
      assert r[m'] == c[m];
      IndexOfDistinct(r, m');
    } else {
      assert forall j :: 0 <= j < |r| ==> r[j].0 != k';
    }
  }

  lemma DeleteAtTotal(c: Counter, i: nat)
    requires i < |c|
    ensures Total(c[..i] + c[i + 1..]) == Total(c) - c[i].1
  {
    assert c == c[..i] + [c[i]] + c[i + 1..];
    Seqs.SumOverAppend(c[..i] + [c[i]], c[i + 1..], CountFn());
    Seqs.SumOverAppend(c[..i], [c[i]], CountFn());
    Seqs.SumOverAppend(c[..i], c[i + 1..], CountFn());
    Seqs.SumOverSingleton(c[i], CountFn());
  }

  /** Removing item i keeps the other items in order. */
  lemma DeleteAtItems(c: Counter, i: nat)
    requires i < |c| && DistinctKeys(c)
    ensures var r := c[..i] + c[i + 1..];
            && (forall j :: 0 <= j < |r| ==> r[j].0 != c[i].0)
            && DistinctKeys(r)
            && (Positive(c) ==> Positive(r))
  {
    var r := c[..i] + c[i + 1..];
    assert forall j :: 0 <= j < |r| ==> r[j] == c[if j < i then j else j + 1];
  }

  // ---- grouping the paths by directory -------------------------------------

  /** The defaultdict(Counter) of file_summary: a directory and its suffix counts. */
  type Groups = seq<(Path, Counter)>

  predicate AllHaveParts(paths: seq<Path>) {
    forall k :: 0 <= k < |paths| ==> |paths[k].parts| >= 1
  }

  /** all_counts[d], an empty Counter for a directory not seen yet. */
  function GroupOf(g: Groups, d: Path): Counter {
    var i := IndexOfKey(g, d);
    if i >= 0 then g[i].1 else []
  }

  /** all_counts[d][e] += 1 */
  function Bump(g: Groups, d: Path, e: string): Groups {
    var i := IndexOfKey(g, d);
    if i >= 0 then g[i := (d, IncrementBy(g[i].1, e, 1))] else g + [(d, IncrementBy([], e, 1))]
  }

  /** The counts after the first loop of file_summary over `paths`. */
  function Group(paths: seq<Path>, levels: int): Groups
    requires levels >= 1 && AllHaveParts(paths)
  {
    if paths == [] then []
    else
      var p := paths[|paths| - 1];
      Bump(Group(paths[..|paths| - 1], levels), Ancestor(p, levels), Suffix(p))
  }

  /** The number of paths under directory `d` (as file_summary groups them)
      whose suffix is `e`. */
  function NumWith(paths: seq<Path>, levels: int, d: Path, e: string): nat
    requires levels >= 1 && AllHaveParts(paths)
  {
    if paths == [] then 0
    else
      var p := paths[|paths| - 1];
      NumWith(paths[..|paths| - 1], levels, d, e) + (if Ancestor(p, levels) == d && Suffix(p) == e then 1 else 0)
  }

  /** The number of paths under directory `d`. */
  function NumIn(paths: seq<Path>, levels: int, d: Path): nat
    requires levels >= 1 && AllHaveParts(paths)
  {
    if paths == [] then 0
    else
      var p := paths[|paths| - 1];
      NumIn(paths[..|paths| - 1], levels, d) + (if Ancestor(p, levels) == d then 1 else 0)
  }

  function GroupTotal<K>(): ((K, Counter)) -> int {
    (r: (K, Counter)) => Total(r.1)
  }

  /** Where a directory sits after bumping: a new directory goes last,
      every other directory stays where it was. */
  lemma BumpIndex(g: Groups, d: Path, e: string, d': Path)
    ensures IndexOfKey(Bump(g, d, e), d') == if IndexOfKey(g, d) < 0 && d' == d then |g| else IndexOfKey(g, d')
  {
    var i := IndexOfKey(g, d);
    if i >= 0 {
      IndexOfSameKeys(Bump(g, d, e), g, d');
    } else {
      IndexOfSnoc(g, (d, IncrementBy([], e, 1)), d');
    }
  }

  /** Bumping adds one file to directory `d`'s counter and leaves every
      other directory's counter as it was. */
  lemma BumpCounts(g: Groups, d: Path, e: string)
    requires DistinctKeys(g)
    ensures DistinctKeys(Bump(g, d, e))
    ensures GroupOf(Bump(g, d, e), d) == IncrementBy(GroupOf(g, d), e, 1)
    ensures forall d' :: d' != d ==> GroupOf(Bump(g, d, e), d') == GroupOf(g, d')
    ensures forall d' :: IndexOfKey(Bump(g, d, e), d') >= 0 <==> IndexOfKey(g, d') >= 0 || d' == d
  {
    BumpDistinct(g, d, e);
    BumpGroupOf(g, d, e, d);
    forall d' ensures IndexOfKey(Bump(g, d, e), d') >= 0 <==> IndexOfKey(g, d') >= 0 || d' == d {
      BumpIndex(g, d, e, d');
    }
    forall d' | d' != d ensures GroupOf(Bump(g, d, e), d') == GroupOf(g, d') {
      BumpGroupOf(g, d, e, d');
    }
  }

  lemma BumpDistinct(g: Groups, d: Path, e: string)
    requires DistinctKeys(g)
    ensures DistinctKeys(Bump(g, d, e))
  {
    var r := Bump(g, d, e);
    if IndexOfKey(g, d) >= 0 {
      assert forall m :: 0 <= m < |r| ==> r[m].0 == g[m].0;
    } else {
      assert forall m :: 0 <= m < |g| ==> r[m] == g[m];
    }
  }

  lemma BumpGroupOf(g: Groups, d: Path, e: string, d': Path)
    ensures GroupOf(Bump(g, d, e), d') == if d' == d then IncrementBy(GroupOf(g, d), e, 1) else GroupOf(g, d')
  {
    BumpIndex(g, d, e, d');
  }

  lemma BumpTotal(g: Groups, d: Path, e: string)
    ensures Seqs.SumOver(Bump(g, d, e), GroupTotal()) == Seqs.SumOver(g, GroupTotal()) + 1
  {
    var i := IndexOfKey(g, d);
    if i >= 0 {
      IncrementByCounts(g[i].1, e, 1);
      Seqs.SumOverUpdate(g, i, (d, IncrementBy(g[i].1, e, 1)), GroupTotal());
    } else {
      IncrementByCounts([], e, 1);
      Seqs.SumOverAppend(g, [(d, IncrementBy([], e, 1))], GroupTotal());
      var none: Groups := [];
      assert [(d, IncrementBy([], e, 1))][..0] == none;
    }
  }

  /** What the first loop of file_summary computes: one entry per directory
      that holds at least one path, each counting exactly the paths under it
      by suffix, with no zero counts and no key twice. */
  lemma {:induction false} GroupCounts(paths: seq<Path>, levels: int)
    requires levels >= 1 && AllHaveParts(paths)
    ensures var g := Group(paths, levels);
            && DistinctKeys(g)
            && (forall d :: DistinctKeys(GroupOf(g, d)) && Positive(GroupOf(g, d)))
            && (forall d :: IndexOfKey(g, d) >= 0 <==> NumIn(paths, levels, d) > 0)
            && (forall d, e :: Get(GroupOf(g, d), e) == NumWith(paths, levels, d, e))
  {
    if paths != [] {
      var init, p := paths[..|paths| - 1], paths[|paths| - 1];
      assert AllHaveParts(init) by {
        forall k | 0 <= k < |init| ensures |init[k].parts| >= 1 {
          assert init[k] == paths[k];
        }
      }
      GroupCounts(init, levels);
      var g0 := Group(init, levels);
      var a, s := Ancestor(p, levels), Suffix(p);
      assert Group(paths, levels) == Bump(g0, a, s);
      BumpCounts(g0, a, s);
      BumpWellFormed(g0, a, s);
      forall d ensures IndexOfKey(Bump(g0, a, s), d) >= 0 <==> NumIn(paths, levels, d) > 0 {
        assert NumIn(paths, levels, d) == NumIn(init, levels, d) + (if a == d then 1 else 0);
      }
      forall d, e ensures Get(GroupOf(Bump(g0, a, s), d), e) == NumWith(paths, levels, d, e) {
        assert NumWith(paths, levels, d, e) == NumWith(init, levels, d, e) + (if a == d && s == e then 1 else 0);
        BumpGet(g0, a, s, d, e);
      }
    }
  }

  /** Bumping keeps every counter free of repeated keys and zero counts. */
  lemma BumpWellFormed(g: Groups, d: Path, e: string)
    requires DistinctKeys(g)
    requires forall d' :: DistinctKeys(GroupOf(g, d')) && Positive(GroupOf(g, d'))
    ensures forall d' :: DistinctKeys(GroupOf(Bump(g, d, e), d')) && Positive(GroupOf(Bump(g, d, e), d'))
  {
    BumpCounts(g, d, e);
    IncrementByCounts(GroupOf(g, d), e, 1);
  }

  /** Bumping adds one to the count of suffix `e` in directory `d`, and to no other. */
  lemma BumpGet(g: Groups, d: Path, e: string, d': Path, e': string)
    requires DistinctKeys(g) && DistinctKeys(GroupOf(g, d))
    ensures Get(GroupOf(Bump(g, d, e), d'), e') == Get(GroupOf(g, d'), e') + (if d == d' && e == e' then 1 else 0)
  {
    BumpCounts(g, d, e);
    if d == d' {
      IncrementByCounts(GroupOf(g, d), e, 1);
    }
  }

  /** Every path is counted exactly once. */
  lemma {:induction false} GroupTotalIsPathCount(paths: seq<Path>, levels: int)
    requires levels >= 1 && AllHaveParts(paths)
    ensures Seqs.SumOver(Group(paths, levels), GroupTotal()) == |paths|
  {
    if paths != [] {
      var init, p := paths[..|paths| - 1], paths[|paths| - 1];
      assert AllHaveParts(init) by {
        forall k | 0 <= k < |init| ensures |init[k].parts| >= 1 {
          assert init[k] == paths[k];
        }
      }
      GroupTotalIsPathCount(init, levels);
      BumpTotal(Group(init, levels), Ancestor(p, levels), Suffix(p));
    }
  }

  // ---- condensing to at most max_lines rows --------------------------------

  /** The sort key -sum(counts.values()): more files first. */
  function ByTotalDesc(): ((Path, Counter), (Path, Counter)) -> bool {
    (a: (Path, Counter), b: (Path, Counter)) => Total(a.1) >= Total(b.1)
  }

  /** sorted() on the dictionary items, which compares the directories. */
  function ByPath(): ((Path, Counter), (Path, Counter)) -> bool {
    (a: (Path, Counter), b: (Path, Counter)) => PartsLe(a.0.parts, b.0.parts)
  }

  /** The stop of the slice s[:n] on a sequence of length `len`, where a
      negative n counts from the end. */
  function SliceStop(n: int, len: nat): (k: nat)
    ensures k <= len
    ensures 0 <= n <= len ==> k == n
    ensures n < 0 ==> k == if len + n >= 0 then len + n else 0
    ensures n > len ==> k == len
  {
    if n >= 0 then (if n <= len then n else len)
    else if len + n >= 0 then len + n else 0
  }

  /** The rows of the table: the text of each directory and its counter. */
  function Labelled(g: Groups): (r: seq<(string, Counter)>)
    ensures |r| == |g|
    ensures forall i :: 0 <= i < |g| ==> r[i] == (Str(g[i].0), g[i].1)
  {
    seq(|g|, i requires 0 <= i < |g| => (Str(g[i].0), g[i].1))
  }

  /** f'({plural(others, "other")})' */
  function OthersLabel(n: nat): string {
    "(" + Plural(n, "other") + ")"
  }

  /** sum((c for _, c in others), Counter()) */
  function SumCounters(g: Groups): Counter {
    if g == [] then [] else Add(SumCounters(g[..|g| - 1]), g[|g| - 1].1)
  }

  /** The groups in order of decreasing size. */
  function BySize(g: Groups): Groups {
    Seqs.SortBy(g, ByTotalDesc())
  }

  /** How many of the largest groups keep a row of their own. */
  function KeptCount(g: Groups, maxLines: int): nat {
    SliceStop(maxLines - 1, |g|)
  }

  /** The rows file_summary prints, before formatting: every group in path
      order, or, when there are more than max_lines groups, the largest
      ones in path order and one row for all the others. */
  function Rows(g: Groups, maxLines: int): seq<(string, Counter)> {
    if |g| > maxLines then
      var counts := BySize(g);
      var k := KeptCount(g, maxLines);
      Labelled(Seqs.SortBy(counts[..k], ByPath())) + [(OthersLabel(|counts| - k), SumCounters(counts[k..]))]
    else
      Labelled(Seqs.SortBy(g, ByPath()))
  }

  lemma ByTotalDescOrders()
    ensures Seqs.TotalPreorder(ByTotalDesc())
  {
  }

  lemma ByPathOrders()
    ensures Seqs.TotalPreorder(ByPath())
  {
    forall a: (Path, Counter), b: (Path, Counter) ensures ByPath()(a, b) || ByPath()(b, a) {
      PartsLeTotal(a.0.parts, b.0.parts);
    }
    forall a: (Path, Counter), b: (Path, Counter), c: (Path, Counter) | ByPath()(a, b) && ByPath()(b, c)
      ensures ByPath()(a, c)
    {
      PartsLeTransitive(a.0.parts, b.0.parts, c.0.parts);
    }
  }

  /** No more than max_lines rows (for a positive max_lines), and exactly one
      per group when they fit. */
  lemma RowCount(g: Groups, maxLines: int)
    ensures |g| <= maxLines ==> |Rows(g, maxLines)| == |g|
    ensures |g| > maxLines >= 1 ==> |Rows(g, maxLines)| == maxLines
    ensures |g| > maxLines ==> |Rows(g, maxLines)| == KeptCount(g, maxLines) + 1
  {
  }

  lemma {:induction false} LabelledTotal(g: Groups)
    ensures Seqs.SumOver(Labelled(g), GroupTotal()) == Seqs.SumOver(g, GroupTotal())
  {
    if g != [] {
      LabelledTotal(g[..|g| - 1]);
      assert Labelled(g)[..|g| - 1] == Labelled(g[..|g| - 1]);
    }
  }

  lemma {:induction false} SumCountersTotal(g: Groups)
    ensures Total(SumCounters(g)) == Seqs.SumOver(g, GroupTotal())
  {
    if g != [] {
      SumCountersTotal(g[..|g| - 1]);
      AddTotal(SumCounters(g[..|g| - 1]), g[|g| - 1].1);
    }
  }

  /** Condensing loses no file: the row totals add up to the group totals. */
  lemma RowsKeepEveryFile(g: Groups, maxLines: int)
    ensures Seqs.SumOver(Rows(g, maxLines), GroupTotal()) == Seqs.SumOver(g, GroupTotal())
  {
    if |g| > maxLines {
      var counts := BySize(g);
      var k := KeptCount(g, maxLines);
      var kept := Seqs.SortBy(counts[..k], ByPath());
      var last := (OthersLabel(|counts| - k), SumCounters(counts[k..]));
      Seqs.SumOverAppend(Labelled(kept), [last], GroupTotal());
      var none: seq<(string, Counter)> := [];
      assert [last][..0] == none;
      LabelledTotal(kept);
      Seqs.SumOverSortBy(counts[..k], ByPath(), GroupTotal());
      SumCountersTotal(counts[k..]);
      Seqs.SumOverSplit(counts, k, GroupTotal());
      Seqs.SumOverSortBy(g, ByTotalDesc(), GroupTotal());
    } else {
      LabelledTotal(Seqs.SortBy(g, ByPath()));
      Seqs.SumOverSortBy(g, ByPath(), GroupTotal());
    }
  }

  /** When the groups do not fit, the ones that keep a row are the largest:
      none of the condensed groups holds more files than a kept one. The
      kept ones are listed in path order, and the last row counts the
      condensed groups. */
  lemma CondensedAreSmallest(g: Groups, maxLines: int)
    requires |g| > maxLines
    ensures var counts := BySize(g);
            var k := KeptCount(g, maxLines);
            var kept := Seqs.SortBy(counts[..k], ByPath());
            && multiset(kept) + multiset(counts[k..]) == multiset(g)
            && (forall i, j :: 0 <= i < |kept| && k <= j < |counts| ==> Total(kept[i].1) >= Total(counts[j].1))
            && Seqs.Sorted(kept, ByPath())
            && Rows(g, maxLines) == Labelled(kept) + [(OthersLabel(|g| - k), SumCounters(counts[k..]))]
  {
    var counts := BySize(g);
    var k := KeptCount(g, maxLines);
    var kept := Seqs.SortBy(counts[..k], ByPath());
    SplitMultiset(counts, k);
    ByPathOrders();
    Seqs.SortBySorted(counts[..k], ByPath());
    ByTotalDescOrders();
    Seqs.SortBySorted(g, ByTotalDesc());
    KeptLargest(counts, k, kept);
  }

  lemma SplitMultiset<T>(s: seq<T>, k: nat)
    requires k <= |s|
    ensures multiset(s[..k]) + multiset(s[k..]) == multiset(s)
  {
    assert s == s[..k] + s[k..];
  }

  /** Any reordering of the first k groups of a list sorted by decreasing
      size holds the k largest groups. */
  lemma KeptLargest(counts: Groups, k: nat, kept: Groups)
    requires k <= |counts| && Seqs.Sorted(counts, ByTotalDesc()) && multiset(kept) == multiset(counts[..k])
    ensures forall i, j :: 0 <= i < |kept| && k <= j < |counts| ==> Total(kept[i].1) >= Total(counts[j].1)
  {
    forall i, j | 0 <= i < |kept| && k <= j < |counts| ensures Total(kept[i].1) >= Total(counts[j].1) {
      KeptFrom(counts, k, kept, i);
      var m :| 0 <= m < k && counts[m] == kept[i];
      assert ByTotalDesc()(counts[m], counts[j]);
    }
  }

  lemma KeptFrom(counts: Groups, k: nat, kept: Groups, i: nat)
    requires k <= |counts| && i < |kept| && multiset(kept) == multiset(counts[..k])
    ensures exists m :: 0 <= m < k && counts[m] == kept[i]
  {
    assert kept[i] in multiset(counts[..k]);
    var m :| 0 <= m < k && counts[..k][m] == kept[i];
    assert counts[m] == kept[i];
  }

  /** Without condensing, every group has its row, in path order. */
  lemma UncondensedRows(g: Groups, maxLines: int)
    requires |g| <= maxLines
    ensures var sorted := Seqs.SortBy(g, ByPath());
            && multiset(sorted) == multiset(g)
            && Seqs.Sorted(sorted, ByPath())
            && Rows(g, maxLines) == Labelled(sorted)
  {
    ByPathOrders();
    Seqs.SortBySorted(g, ByPath());
  }

  // ---- formatting the rows -------------------------------------------------

  /** max(len(str(d)) + len(os.sep) for d, _ in counts), or 0 for no rows. */
  function LabelWidth(rows: seq<(string, Counter)>): (w: nat)
  {
    if rows == [] then 0
    else
      var w0 := LabelWidth(rows[..|rows| - 1]);
      var here := |rows[|rows| - 1].0| + 1;
      if w0 >= here then w0 else here
  }

  /** The width is that of the widest heading and its separator. */
  lemma {:induction false} LabelWidthIsMax(rows: seq<(string, Counter)>)
    ensures forall i :: 0 <= i < |rows| ==> |rows[i].0| + 1 <= LabelWidth(rows)
    ensures rows != [] ==> exists i :: 0 <= i < |rows| && |rows[i].0| + 1 == LabelWidth(rows)
    ensures rows == [] ==> LabelWidth(rows) == 0
  {
    if rows != [] {
      var init := rows[..|rows| - 1];
      LabelWidthIsMax(init);
      forall i | 0 <= i < |init| ensures init[i] == rows[i] {
      }
      if init != [] && LabelWidth(init) >= |rows[|rows| - 1].0| + 1 {
        var i :| 0 <= i < |init| && |init[i].0| + 1 == LabelWidth(init);
        assert rows[i] == init[i];
      }
    }
  }

  /** The sort key of most_common: larger counts first. */
  function ByCountDesc(): ((string, nat), (string, nat)) -> bool {
    (a: (string, nat), b: (string, nat)) => a.1 >= b.1
  }

  /** Counter.most_common(n): the n largest counts, ties in insertion order;
      none for n <= 0. */
  function MostCommon(c: Counter, n: int): (r: Counter)
    ensures |r| == if n <= 0 then 0 else if n < |c| then n else |c|
  {
    var sorted := Seqs.SortBy(c, ByCountDesc());
    sorted[..if n <= 0 then 0 else if n < |sorted| then n else |sorted|]
  }

  /** f'{n}' for any integer. */
  function IntText(n: int): string {
    if n < 0 then "-" + NatToString(-n) else NatToString(n)
  }

  /** The (extension, count) items shown for a row of `files`: the
      max_types most common suffixes other than '' and, when they do not
      cover every file, an 'other' item for the rest. */
  function ExtensionItems(files: Counter, maxTypes: int): seq<(string, int)> {
    var ext := MostCommon(Delete(files, ""), maxTypes);
    var other := Total(files) - Total(ext);
    Widen(ext) + (if other != 0 then [("other", other)] else [])
  }

  /** The (extension, count) items of a counter, with the counts as plain integers. */
  function Widen(ext: Counter): (w: seq<(string, int)>)
    ensures |w| == |ext|
    ensures forall i :: 0 <= i < |ext| ==> w[i] == (ext[i].0, ext[i].1 as int)
  {
    seq(|ext|, i requires 0 <= i < |ext| => (ext[i].0, ext[i].1 as int))
  }

  function ItemTexts(items: seq<(string, int)>): seq<string> {
    seq(|items|, i requires 0 <= i < |items| => IntText(items[i].1) + " " + items[i].0)
  }

  /** The " (c e, ...)" part of a line, empty when every file lacks a suffix. */
  function Types(files: Counter, maxTypes: int): string {
    if Delete(files, "") != [] then " (" + Join(ItemTexts(ExtensionItems(files, maxTypes)), ", ") + ")"
    else ""
  }

  /** f'{path}{os.sep}{pad_start}'.ljust(width, pad) */
  function Root(heading: string, width: int, pad: char, padStart: string): string {
    LJust(heading + "/" + padStart, width, pad)
  }

  /** One output line. */
  function Line(row: (string, Counter), width: int, maxTypes: int, pad: char,
                padStart: string, padEnd: string): string {
    Root(row.0, width, pad, padStart) + padEnd + Plural(Total(row.1), "file") + Types(row.1, maxTypes)
  }

  /** The lines of file_summary(paths, levels, max_lines, max_types, pad,
      pad_start, pad_end). */
  function SummaryLines(paths: seq<Path>, levels: int, maxLines: int, maxTypes: int, pad: char,
                        padStart: string, padEnd: string): (lines: seq<string>)
    requires levels >= 1 && AllHaveParts(paths)
  {
    Table(Rows(Group(paths, levels), maxLines), maxTypes, pad, padStart, padEnd)
  }

  /** The lines for the given rows, aligned to the widest heading. */
  function Table(rows: seq<(string, Counter)>, maxTypes: int, pad: char, padStart: string, padEnd: string): seq<string> {
    LinesOf(rows, Width(rows, padStart), maxTypes, pad, padStart, padEnd)
  }

  /** width: the widest heading and its separator, plus pad_start. */
  function Width(rows: seq<(string, Counter)>, padStart: string): nat {
    LabelWidth(rows) + |padStart|
  }

  /** [line(row) for row in rows] */
  function LinesOf(rows: seq<(string, Counter)>, width: int, maxTypes: int, pad: char,
                   padStart: string, padEnd: string): (lines: seq<string>)
    ensures |lines| == |rows|
  {
    if rows == [] then []
    else LinesOf(rows[..|rows| - 1], width, maxTypes, pad, padStart, padEnd)
         + [Line(rows[|rows| - 1], width, maxTypes, pad, padStart, padEnd)]
  }

  lemma {:induction false} LinesOfAt(rows: seq<(string, Counter)>, width: int, maxTypes: int, pad: char,
                                     padStart: string, padEnd: string, i: nat)
    requires i < |rows|
    ensures LinesOf(rows, width, maxTypes, pad, padStart, padEnd)[i] == Line(rows[i], width, maxTypes, pad, padStart, padEnd)
  {
    if i < |rows| - 1 {
      LinesOfAt(rows[..|rows| - 1], width, maxTypes, pad, padStart, padEnd, i);
    }
  }

  /** file_summary. The padding is one character, as str.ljust demands. */
  method FileSummary(paths: seq<Path>, levels: int, maxLines: int, maxTypes: int, pad: char,
                     padStart: string, padEnd: string) returns (output: seq<string>)
    requires levels >= 1 && AllHaveParts(paths)
    ensures output == SummaryLines(paths, levels, maxLines, maxTypes, pad, padStart, padEnd)
  {
    var allCounts := CountByDirectory(paths, levels);
    var counts := Rows(allCounts, maxLines);
    var width := Width(counts, padStart);
    output := FormatRows(counts, width, maxTypes, pad, padStart, padEnd);
  }

  /** The output loop of file_summary. */
  method FormatRows(counts: seq<(string, Counter)>, width: int, maxTypes: int, pad: char,
                    padStart: string, padEnd: string) returns (output: seq<string>)
    ensures output == LinesOf(counts, width, maxTypes, pad, padStart, padEnd)
  {
    output := [];
    for j := 0 to |counts|
      invariant output == LinesOf(counts[..j], width, maxTypes, pad, padStart, padEnd)
    {
      var line := FormatRow(counts[j], width, maxTypes, pad, padStart, padEnd);
      LinesOfSnoc(counts, j, width, maxTypes, pad, padStart, padEnd);
      output := output + [line];
    }
    assert counts[..|counts|] == counts;
  }

  lemma LinesOfSnoc(rows: seq<(string, Counter)>, j: nat, width: int, maxTypes: int, pad: char,
                    padStart: string, padEnd: string)
    requires j < |rows|
    ensures LinesOf(rows[..j + 1], width, maxTypes, pad, padStart, padEnd)
            == LinesOf(rows[..j], width, maxTypes, pad, padStart, padEnd) + [Line(rows[j], width, maxTypes, pad, padStart, padEnd)]
  {
    assert rows[..j + 1][..j] == rows[..j];
  }

  /** The first loop of file_summary: count the file types in each directory. */
  method CountByDirectory(paths: seq<Path>, levels: int) returns (allCounts: Groups)
    requires levels >= 1 && AllHaveParts(paths)
    ensures allCounts == Group(paths, levels)
  {
    allCounts := [];
    for i := 0 to |paths|
      invariant AllHaveParts(paths[..i])
      invariant allCounts == Group(paths[..i], levels)
    {
      var path := paths[i];
      assert paths[..i + 1][..i] == paths[..i];
      var parent := Ancestor(path, levels);
      allCounts := Bump(allCounts, parent, Suffix(path));
    }
    assert paths[..|paths|] == paths;
  }

  /** The body of file_summary's output loop: one row as a line. */
  method FormatRow(row: (string, Counter), width: int, maxTypes: int, pad: char,
                   padStart: string, padEnd: string) returns (line: string)
    ensures line == Line(row, width, maxTypes, pad, padStart, padEnd)
  {
    var (heading, files) := row;
    var total := Total(files);
    var named := Delete(files, "");
    var types := "";
    if named != [] {
      var extensions := MostCommon(named, maxTypes);
      var otherExtensions := total - Total(extensions);
      var items := Widen(extensions);
      if otherExtensions != 0 {
        items := items + [("other", otherExtensions)];
      }
      assert items == ExtensionItems(files, maxTypes);
      types := " (" + Join(ItemTexts(items), ", ") + ")";
    }
    var root := LJust(heading + "/" + padStart, width, pad);
    line := root + padEnd + Plural(total, "file") + types;
  }

  // ---- what the formatting promises ----------------------------------------

  /** A line whose heading fits the width: the heading, the separator and
      pad_start, then `pad` up to the width, then the counts. */
  lemma LineLayout(row: (string, Counter), width: int, maxTypes: int, pad: char, padStart: string, padEnd: string)
    requires |row.0| + 1 + |padStart| <= width
    ensures var line := Line(row, width, maxTypes, pad, padStart, padEnd);
            var head := row.0 + "/" + padStart;
            && |line| >= width
            && line[..|head|] == head
            && (forall m :: |head| <= m < width ==> line[m] == pad)
            && line[width..] == padEnd + Plural(Total(row.1), "file") + Types(row.1, maxTypes)
  {
    PaddedLayout(row.0 + "/" + padStart, width, pad, padEnd, Plural(Total(row.1), "file"), Types(row.1, maxTypes));
  }

  lemma PaddedLayout(head: string, width: int, pad: char, x: string, y: string, z: string)
    requires |head| <= width
    ensures var line := LJust(head, width, pad) + x + y + z;
            && |line| >= width
            && line[..|head|] == head
            && (forall m :: |head| <= m < width ==> line[m] == pad)
            && line[width..] == x + y + z
  {
    var root := LJust(head, width, pad);
    assert root + x + y + z == root + (x + y + z);
    assert (root + (x + y + z))[..|head|] == root[..|head|];
    assert (root + (x + y + z))[width..] == x + y + z;
  }

  /** The roots all have the same width, so the counts line up in a column:
      every line is laid out as LineLayout says, for one common width that
      the widest heading attains. */
  lemma RootsAligned(rows: seq<(string, Counter)>, maxTypes: int, pad: char, padStart: string, padEnd: string)
    ensures var lines := Table(rows, maxTypes, pad, padStart, padEnd);
            && |lines| == |rows|
            && (forall i :: 0 <= i < |rows| ==>
                  |rows[i].0| + 1 + |padStart| <= Width(rows, padStart)
                  && lines[i] == Line(rows[i], Width(rows, padStart), maxTypes, pad, padStart, padEnd))
            && (rows != [] ==> exists i :: 0 <= i < |rows| && |rows[i].0| + 1 + |padStart| == Width(rows, padStart))
  {
    var width := Width(rows, padStart);
    LabelWidthIsMax(rows);
    forall i | 0 <= i < |rows|
      ensures Table(rows, maxTypes, pad, padStart, padEnd)[i] == Line(rows[i], width, maxTypes, pad, padStart, padEnd)
    {
      LinesOfAt(rows, width, maxTypes, pad, padStart, padEnd, i);
    }
  }

  // ---- the types column ------------------------------------------------------

  function ItemCount(): ((string, int)) -> int {
    (x: (string, int)) => x.1
  }

  lemma {:induction false} WidenTotal(ext: Counter)
    ensures Seqs.SumOver(Widen(ext), ItemCount()) == Total(ext)
  {
    if ext != [] {
      var init := ext[..|ext| - 1];
      WidenTotal(init);
      assert Widen(ext)[..|ext| - 1] == Widen(init);
    }
  }

  lemma {:induction false} SumOverPrefix(c: Counter, k: nat)
    requires k <= |c|
    ensures Total(c[..k]) <= Total(c)
  {
    Seqs.SumOverSplit(c, k, CountFn());
    Seqs.SumOverNonNegative(c[k..], CountFn());
  }

  /** The items shown for a row account for every one of its files: the
      shown suffixes are the most common ones (never ''), there are at most
      max_types of them, and 'other' counts the rest, including the files
      without a suffix. */
  lemma ExtensionItemsAccount(files: Counter, maxTypes: int)
    requires DistinctKeys(files) && Positive(files)
    ensures var named := Delete(files, "");
            var sorted := Seqs.SortBy(named, ByCountDesc());
            var ext := MostCommon(named, maxTypes);
            var items := ExtensionItems(files, maxTypes);
            && Seqs.SumOver(items, ItemCount()) == Total(files)
            && (forall i :: 0 <= i < |items| ==> items[i].1 >= 1)
            && |ext| <= |items| <= |ext| + 1
            && (forall i :: 0 <= i < |ext| ==> items[i].0 == ext[i].0 && ext[i].0 != "")
            && ext == sorted[..|ext|]
            && (forall i, j :: 0 <= i < |ext| <= j < |sorted| ==> ext[i].1 >= sorted[j].1)
            && |ext| == (if maxTypes <= 0 then 0 else if maxTypes < |named| then maxTypes else |named|)
            && (|items| == |ext| + 1 <==> Total(ext) < Total(files))
            && (|items| == |ext| + 1 ==> items[|ext|] == ("other", Total(files) - Total(ext)))
  {
    var named := Delete(files, "");
    DeleteCounts(files, "");
    MostCommonPrefix(named, maxTypes);
    ExtensionItemsSum(files, maxTypes);
    ExtensionItemsShape(files, maxTypes);
    ExtensionItemsOther(files, maxTypes);
    var ext := MostCommon(named, maxTypes);
    forall i | 0 <= i < |ext| ensures ext[i].0 != "" && ext[i].1 >= 1 {
      MostCommonFrom(named, maxTypes, i);
    }
  }

  /** most_common(n) takes the first entries of the sorted counter, and
      none of the entries it leaves out is larger. */
  lemma MostCommonPrefix(c: Counter, n: int)
    ensures var sorted := Seqs.SortBy(c, ByCountDesc());
            var ext := MostCommon(c, n);
            && ext == sorted[..|ext|]
            && (forall i, j :: 0 <= i < |ext| <= j < |sorted| ==> ext[i].1 >= sorted[j].1)
  {
    ByCountDescOrders();
    Seqs.SortBySorted(c, ByCountDesc());
  }

  lemma ByCountDescOrders()
    ensures Seqs.TotalPreorder(ByCountDesc())
  {
  }

  /** Every entry most_common returns is an entry of the counter. */
  lemma MostCommonFrom(c: Counter, n: int, i: nat)
    requires i < |MostCommon(c, n)|
    ensures exists m :: 0 <= m < |c| && c[m] == MostCommon(c, n)[i]
  {
    var sorted := Seqs.SortBy(c, ByCountDesc());
    assert MostCommon(c, n)[i] == sorted[i];
    assert sorted[i] in multiset(c);
  }

  /** most_common never counts more than the whole counter. */
  lemma MostCommonTotal(c: Counter, n: int)
    ensures Total(MostCommon(c, n)) <= Total(c)
  {
    var sorted := Seqs.SortBy(c, ByCountDesc());
    SumOverPrefix(sorted, |MostCommon(c, n)|);
    Seqs.SumOverSortBy(c, ByCountDesc(), CountFn());
  }

  /** The counts shown for a row add up to its number of files. */
  lemma ExtensionItemsSum(files: Counter, maxTypes: int)
    requires DistinctKeys(files)
    ensures Seqs.SumOver(ExtensionItems(files, maxTypes), ItemCount()) == Total(files)
  {
    var named := Delete(files, "");
    DeleteCounts(files, "");
    MostCommonTotal(named, maxTypes);
    var ext := MostCommon(named, maxTypes);
    var other := Total(files) - Total(ext);
    var tail: seq<(string, int)> := if other != 0 then [("other", other)] else [];
    WidenTotal(ext);
    Seqs.SumOverAppend(Widen(ext), tail, ItemCount());
    if other != 0 {
      Seqs.SumOverSingleton(("other", other), ItemCount());
    }
  }

  /** An item follows the shown suffixes iff they leave files uncounted,
      and it is the 'other' item with the rest. */
  lemma ExtensionItemsOther(files: Counter, maxTypes: int)
    requires DistinctKeys(files)
    ensures var items := ExtensionItems(files, maxTypes);
            var ext := MostCommon(Delete(files, ""), maxTypes);
            && (|items| == |ext| + 1 <==> Total(ext) < Total(files))
            && (|items| == |ext| + 1 ==> items[|ext|] == ("other", Total(files) - Total(ext)))
  {
    var named := Delete(files, "");
    DeleteCounts(files, "");
    MostCommonTotal(named, maxTypes);
  }

  /** The items are the shown suffixes, each with a positive count, and
      possibly one 'other' item after them. */
  lemma ExtensionItemsShape(files: Counter, maxTypes: int)
    requires DistinctKeys(files) && Positive(files)
    ensures var items := ExtensionItems(files, maxTypes);
            var ext := MostCommon(Delete(files, ""), maxTypes);
            && |ext| <= |items| <= |ext| + 1
            && (forall i :: 0 <= i < |ext| ==> items[i].0 == ext[i].0)
            && (forall i :: 0 <= i < |items| ==> items[i].1 >= 1)
  {
    var named := Delete(files, "");
    DeleteCounts(files, "");
    MostCommonTotal(named, maxTypes);
    var ext := MostCommon(named, maxTypes);
    var other := Total(files) - Total(ext);
    var tail: seq<(string, int)> := if other != 0 then [("other", other)] else [];
    var items := ExtensionItems(files, maxTypes);
    assert items == Widen(ext) + tail;
    forall i | 0 <= i < |items| ensures items[i].1 >= 1 {
      if i < |ext| {
        MostCommonFrom(named, maxTypes, i);
        assert items[i] == Widen(ext)[i];
      } else {
        assert items[i] == tail[0];
      }
    }
  }

  /** Every counter in the table has distinct keys and no zero count. */
  lemma RowCountersWellFormed(paths: seq<Path>, levels: int, maxLines: int)
    requires levels >= 1 && AllHaveParts(paths)
    ensures var rows := Rows(Group(paths, levels), maxLines);
            forall i :: 0 <= i < |rows| ==> DistinctKeys(rows[i].1) && Positive(rows[i].1)
  {
    var g := Group(paths, levels);
    GroupsWellFormed(paths, levels);
    RowsWellFormed(g, maxLines);
  }

  /** Every counter in a list has distinct keys and no zero count. */
  ghost predicate CountersWellFormed<K>(g: seq<(K, Counter)>) {
    forall j :: 0 <= j < |g| ==> DistinctKeys(g[j].1) && Positive(g[j].1)
  }

  /** Every counter of the first loop has distinct keys and no zero count. */
  lemma GroupsWellFormed(paths: seq<Path>, levels: int)
    requires levels >= 1 && AllHaveParts(paths)
    ensures CountersWellFormed(Group(paths, levels))
  {
    var g := Group(paths, levels);
    GroupCounts(paths, levels);
    forall j | 0 <= j < |g| ensures DistinctKeys(g[j].1) && Positive(g[j].1) {
      IndexOfDistinct(g, j);
      assert GroupOf(g, g[j].0) == g[j].1;
    }
  }

  /** Condensing keeps every counter well formed, the summed one included. */
  lemma RowsWellFormed(g: Groups, maxLines: int)
    requires CountersWellFormed(g)
    ensures CountersWellFormed(Rows(g, maxLines))
  {
    if |g| > maxLines {
      var counts := BySize(g);
      var k := KeptCount(g, maxLines);
      var kept := Seqs.SortBy(counts[..k], ByPath());
      WellFormedAfterReorder(g, counts);
      WellFormedSlice(counts, k);
      WellFormedAfterReorder(counts[..k], kept);
      SumCountersWellFormed(counts[k..]);
      LabelledWellFormed(kept);
      WellFormedSnoc(Labelled(kept), (OthersLabel(|counts| - k), SumCounters(counts[k..])));
    } else {
      WellFormedAfterReorder(g, Seqs.SortBy(g, ByPath()));
      LabelledWellFormed(Seqs.SortBy(g, ByPath()));
    }
  }

  lemma WellFormedSlice(g: Groups, k: nat)
    requires k <= |g| && CountersWellFormed(g)
    ensures CountersWellFormed(g[..k]) && CountersWellFormed(g[k..])
  {
    assert forall j :: 0 <= j < k ==> g[..k][j] == g[j];
    assert forall j :: 0 <= j < |g| - k ==> g[k..][j] == g[k + j];
  }

  lemma LabelledWellFormed(g: Groups)
    requires CountersWellFormed(g)
    ensures CountersWellFormed(Labelled(g))
  {
  }

  lemma WellFormedSnoc(rows: seq<(string, Counter)>, row: (string, Counter))
    requires CountersWellFormed(rows) && DistinctKeys(row.1) && Positive(row.1)
    ensures CountersWellFormed(rows + [row])
  {
    assert forall j :: 0 <= j < |rows| ==> (rows + [row])[j] == rows[j];
  }

  lemma WellFormedAfterReorder(g: Groups, h: Groups)
    requires multiset(h) == multiset(g) && CountersWellFormed(g)
    ensures CountersWellFormed(h)
  {
    forall j | 0 <= j < |h| ensures DistinctKeys(h[j].1) && Positive(h[j].1) {
      assert h[j] in multiset(g);
      var m :| 0 <= m < |g| && g[m] == h[j];
    }
  }

  lemma {:induction false} SumCountersWellFormed(g: Groups)
    requires CountersWellFormed(g)
    ensures DistinctKeys(SumCounters(g)) && Positive(SumCounters(g))
  {
    if g != [] {
      WellFormedSlice(g, |g| - 1);
      SumCountersWellFormed(g[..|g| - 1]);
      AddWellFormed(SumCounters(g[..|g| - 1]), g[|g| - 1].1);
    }
  }

  /** The count of a key in a row's counter, as a function on rows. */
  function CountOfKey(k: string): ((Path, Counter)) -> int {
    (e: (Path, Counter)) => Get(e.1, k)
  }

  /** sum(..., Counter()) adds key by key: each suffix's count in the sum
      is the sum of its counts in the summed counters. */
  lemma {:induction false} SumCountersGet(g: Groups, k: string)
    requires CountersWellFormed(g)
    ensures Get(SumCounters(g), k) == Seqs.SumOver(g, CountOfKey(k))
  {
    if g != [] {
      var init := g[..|g| - 1];
      WellFormedSlice(g, |g| - 1);
      SumCountersGet(init, k);
      SumCountersWellFormed(init);
      AddGet(SumCounters(init), g[|g| - 1].1, k);
    }
  }

  /** The "(N others)" row counts, for every suffix, the files with that
      suffix in the condensed directories. */
  lemma OthersRowCounts(g: Groups, maxLines: int, k: string)
    requires |g| > maxLines && CountersWellFormed(g)
    ensures var rows := Rows(g, maxLines);
            var others := BySize(g)[KeptCount(g, maxLines)..];
            Get(rows[|rows| - 1].1, k) == Seqs.SumOver(others, CountOfKey(k))
  {
    var counts := BySize(g);
    var k0 := KeptCount(g, maxLines);
    WellFormedAfterReorder(g, counts);
    WellFormedSlice(counts, k0);
    SumCountersGet(counts[k0..], k);
  }

  lemma {:induction false} AddWellFormed(c: Counter, d: Counter)
    requires DistinctKeys(c) && Positive(c) && Positive(d)
    ensures DistinctKeys(Add(c, d)) && Positive(Add(c, d))
  {
    if d != [] {
      AddWellFormed(c, d[..|d| - 1]);
      IncrementByCounts(Add(c, d[..|d| - 1]), d[|d| - 1].0, d[|d| - 1].1);
    }
  }

  /** The table counts every path exactly once. */
  lemma TableCountsEveryPath(paths: seq<Path>, levels: int, maxLines: int)
    requires levels >= 1 && AllHaveParts(paths)
    ensures Seqs.SumOver(Rows(Group(paths, levels), maxLines), GroupTotal()) == |paths|
  {
    RowsKeepEveryFile(Group(paths, levels), maxLines);
    GroupTotalIsPathCount(paths, levels);
  }
}
