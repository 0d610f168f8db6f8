/** _apply_filters and _map_checks_to_paths: which checks run, and on which
    paths. */
module Resolver {
  import opened Paths
  import opened Filters
  import opened Checks
  import Seqs

  /** A check stays in the program when its filter selects some path or
      it is always-run. */
  predicate Keeps(c: Check, paths: seq<Path>, fullMatch: Matcher) {
    Subset(c.filter, paths, fullMatch) != [] || c.alwaysRun
  }

  function KeepsFn(paths: seq<Path>, fullMatch: Matcher): Check -> bool {
    c => Keeps(c, paths, fullMatch)
  }

  function HasFilterFn(filt: PathFilter): Check -> bool {
    (c: Check) => c.filter == filt
  }

  function AlwaysRunFn(): Check -> bool {
    (c: Check) => c.alwaysRun
  }

  /** Pairs each check with the subset its own filter selects. */
  function Attach(checks: seq<Check>, paths: seq<Path>, fullMatch: Matcher): (r: seq<(Check, seq<Path>)>)
    ensures |r| == |checks|
    ensures forall j :: 0 <= j < |checks| ==> r[j] == (checks[j], Subset(checks[j].filter, paths, fullMatch))
  {
    seq(|checks|, j requires 0 <= j < |checks| => (checks[j], Subset(checks[j].filter, paths, fullMatch)))
  }

  /** The executed program, computed check by check: every check that stays,
      in program order, with the subset of its own filter. This is the
      reference for the grouped computation of ApplyFilters. */
  function Resolve(checks: seq<Check>, paths: seq<Path>, fullMatch: Matcher): seq<(Check, seq<Path>)> {
    Attach(Seqs.Filter(checks, KeepsFn(paths, fullMatch)), paths, fullMatch)
  }

  /** A check is dropped iff its filter selects no path and it is not
      always-run; the checks that stay keep their program order, and each
      receives the subset of its own filter. */
  lemma ResolveKeepsOrder(checks: seq<Check>, paths: seq<Path>, fullMatch: Matcher)
    ensures var ks := Seqs.Kept(checks, KeepsFn(paths, fullMatch));
            var r := Resolve(checks, paths, fullMatch);
            && |r| == |ks|
            && Seqs.StrictlyIncreasing(ks)
            && (forall j :: 0 <= j < |ks| ==>
                  ks[j] < |checks| && r[j] == (checks[ks[j]], Subset(checks[ks[j]].filter, paths, fullMatch)))
            && (forall i :: 0 <= i < |checks| ==>
                  (i !in ks <==> Subset(checks[i].filter, paths, fullMatch) == [] && !checks[i].alwaysRun))
  {
    Seqs.FilterByPositions(checks, KeepsFn(paths, fullMatch));
  }

  /** Two checks with equal filters receive identical path subsets. */
  lemma EqualFiltersEqualSubsets(checks: seq<Check>, paths: seq<Path>, fullMatch: Matcher, j: nat, k: nat)
    requires j < |Resolve(checks, paths, fullMatch)| && k < |Resolve(checks, paths, fullMatch)|
    requires Resolve(checks, paths, fullMatch)[j].0.filter == Resolve(checks, paths, fullMatch)[k].0.filter
    ensures Resolve(checks, paths, fullMatch)[j].1 == Resolve(checks, paths, fullMatch)[k].1
  {
  }

  /** A bare callable in the program (wrapped with always_run = True and the
      default filter) always runs, and on every path. */
  lemma BareEntriesRun(program: seq<ProgramEntry>, paths: seq<Path>, fullMatch: Matcher, i: nat)
    requires i < |program| && program[i].Bare?
    ensures i in Seqs.Kept(AsChecks(program), KeepsFn(paths, fullMatch))
    ensures Subset(AsChecks(program)[i].filter, paths, fullMatch) == paths
  {
    ResolveKeepsOrder(AsChecks(program), paths, fullMatch);
    DefaultFilterSelectsAll(paths, fullMatch);
  }

  /** With no paths at all, exactly the always-run checks remain, each with
      an empty path list. */
  lemma NoPathsLeavesAlwaysRun(checks: seq<Check>, fullMatch: Matcher)
    ensures Resolve(checks, [], fullMatch) == Attach(Seqs.Filter(checks, AlwaysRunFn()), [], fullMatch)
    ensures forall j :: 0 <= j < |Resolve(checks, [], fullMatch)| ==>
              Resolve(checks, [], fullMatch)[j].0.alwaysRun && Resolve(checks, [], fullMatch)[j].1 == []
  {
    var byKeeps := Seqs.Filter(checks, KeepsFn([], fullMatch));
    SameFilter(checks, KeepsFn([], fullMatch), AlwaysRunFn());
    forall j | 0 <= j < |byKeeps| ensures byKeeps[j].alwaysRun {
      assert byKeeps[j] in byKeeps;
      Seqs.FilterMembers(checks, KeepsFn([], fullMatch), byKeeps[j]);
    }
  }

  /** Filtering with two predicates that agree on every element gives the same result. */
  lemma {:induction false} SameFilter(s: seq<Check>, p: Check -> bool, q: Check -> bool)
    requires forall i :: 0 <= i < |s| ==> p(s[i]) == q(s[i])
    ensures Seqs.Filter(s, p) == Seqs.Filter(s, q)
  {
    if s != [] {
      SameFilter(s[..|s| - 1], p, q);
    }
  }

  /** [(c, m[c]) for c in checks if c in m] */
  function Pairs(checks: seq<Check>, m: map<Check, seq<Path>>): seq<(Check, seq<Path>)> {
    if checks == [] then []
    else
      var c := checks[|checks| - 1];
      Pairs(checks[..|checks| - 1], m) + (if c in m then [(c, m[c])] else [])
  }

  lemma {:induction false} PairsResolve(checks: seq<Check>, m: map<Check, seq<Path>>,
                                        paths: seq<Path>, fullMatch: Matcher)
    requires forall i :: 0 <= i < |checks| ==> (checks[i] in m <==> Keeps(checks[i], paths, fullMatch))
    requires forall c :: c in m ==> m[c] == Subset(c.filter, paths, fullMatch)
    ensures Pairs(checks, m) == Resolve(checks, paths, fullMatch)
  {
    if checks != [] {
      var init, c := checks[..|checks| - 1], checks[|checks| - 1];
      PairsResolve(init, m, paths, fullMatch);
      assert checks == init + [c];
      Seqs.FilterSnoc(init, c, KeepsFn(paths, fullMatch));
    }
  }

  /** _map_checks_to_paths: one subset per distinct filter; a check listed
      under a filter gets that subset unless it is empty and the check is
      not always-run. Filters are visited in an arbitrary order. */
  method MapChecksToPaths(filterToChecks: map<PathFilter, seq<Check>>, paths: seq<Path>,
                          fullMatch: Matcher) returns (checksToPaths: map<Check, seq<Path>>)
    requires forall f, c :: f in filterToChecks && c in filterToChecks[f] ==> c.filter == f
    ensures forall c :: c in checksToPaths <==>
              c.filter in filterToChecks && c in filterToChecks[c.filter] && Keeps(c, paths, fullMatch)
    ensures forall c :: c in checksToPaths ==> checksToPaths[c] == Subset(c.filter, paths, fullMatch)
  {
    checksToPaths := map[];
    var pending := filterToChecks.Keys;
    while pending != {}
      invariant pending <= filterToChecks.Keys
      invariant forall c :: c in checksToPaths <==>
                  c.filter in filterToChecks && c.filter !in pending && c in filterToChecks[c.filter]
                  && Keeps(c, paths, fullMatch)
      invariant forall c :: c in checksToPaths ==> checksToPaths[c] == Subset(c.filter, paths, fullMatch)
      decreases pending
    {
      var filt :| filt in pending;
      var filtered := Subset(filt, paths, fullMatch);
      var checks := filterToChecks[filt];
      var j := 0;
      while j < |checks|
        invariant 0 <= j <= |checks|
        invariant forall c :: c in checksToPaths <==>
                    (c.filter in filterToChecks && c.filter !in pending && c in filterToChecks[c.filter]
                     && Keeps(c, paths, fullMatch))
                    || (c.filter == filt && c in checks[..j] && Keeps(c, paths, fullMatch))
        invariant forall c :: c in checksToPaths ==> checksToPaths[c] == Subset(c.filter, paths, fullMatch)
      {
        var check := checks[j];
        assert check.filter == filt;
        if filtered != [] || check.alwaysRun {
          checksToPaths := checksToPaths[check := filtered];
        }
        assert checks[..j + 1] == checks[..j] + [check];
        j := j + 1;
      }
      assert checks[..j] == checks;
      pending := pending - {filt};
    }
  }

  /** filter_to_checks after the grouping loop over `checks`: a filter is a
      key iff some check has it, and it lists those checks in program order. */
  ghost predicate GroupedBy(m: map<PathFilter, seq<Check>>, checks: seq<Check>) {
    && (forall f :: f in m <==> Seqs.Filter(checks, HasFilterFn(f)) != [])
    && (forall f :: f in m ==> m[f] == Seqs.Filter(checks, HasFilterFn(f)))
  }

  /** filter_to_checks[check.filter].append(check) keeps the grouping. */
  lemma GroupAppend(m: map<PathFilter, seq<Check>>, checks: seq<Check>, check: Check)
    requires GroupedBy(m, checks)
    ensures GroupedBy(m[check.filter := (if check.filter in m then m[check.filter] else []) + [check]], checks + [check])
  {
    forall f ensures Seqs.Filter(checks + [check], HasFilterFn(f)) ==
                     Seqs.Filter(checks, HasFilterFn(f)) + (if check.filter == f then [check] else []) {
      Seqs.FilterSnoc(checks, check, HasFilterFn(f));
    }
  }

  /** Every check is listed under its own filter, and only there. */
  lemma GroupedMembers(m: map<PathFilter, seq<Check>>, checks: seq<Check>)
    requires GroupedBy(m, checks)
    ensures forall f, c :: f in m && c in m[f] ==> c.filter == f
    ensures forall k :: 0 <= k < |checks| ==> checks[k].filter in m && checks[k] in m[checks[k].filter]
  {
    forall f, c | f in m && c in m[f] ensures c.filter == f {
      Seqs.FilterMembers(checks, HasFilterFn(f), c);
    }
    forall k | 0 <= k < |checks| ensures checks[k].filter in m && checks[k] in m[checks[k].filter] {
      Seqs.FilterMembers(checks, HasFilterFn(checks[k].filter), checks[k]);
    }
  }

  /** _apply_filters: groups the checks by filter value, computes each
      filter's subset once, and returns the checks that stay, in program
      order, each with its subset. The result is the check-by-check
      reference Resolve: grouping is not observable. */
  method ApplyFilters(program: seq<ProgramEntry>, paths: seq<Path>, fullMatch: Matcher)
    returns (resolved: seq<(Check, seq<Path>)>)
    ensures resolved == Resolve(AsChecks(program), paths, fullMatch)
  {
    var checks := AsChecks(program);
    var filterToChecks: map<PathFilter, seq<Check>> := map[];
    for i := 0 to |checks|
      invariant GroupedBy(filterToChecks, checks[..i])
    {
      var check := checks[i];
      GroupAppend(filterToChecks, checks[..i], check);
      assert checks[..i + 1] == checks[..i] + [check];
      var group := if check.filter in filterToChecks then filterToChecks[check.filter] else [];
      filterToChecks := filterToChecks[check.filter := group + [check]];
    }
    assert checks[..|checks|] == checks;
    GroupedMembers(filterToChecks, checks);
    var checkToPaths := MapChecksToPaths(filterToChecks, paths, fullMatch);
    PairsResolve(checks, checkToPaths, paths, fullMatch);
    resolved := Pairs(checks, checkToPaths);
  }
}
