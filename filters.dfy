/** _PathFilter, _make_tuple and the path selection of _map_checks_to_paths. */
module Filters {
  import opened Text
  import opened Paths
  import Seqs

  /** re.fullmatch(pattern, text) is not None: whether `pattern` matches the
      whole of `text`. The regular-expression language itself is not modelled. */
  type Matcher = (string, string) -> bool

  /** _PathFilter: a value, so two filters with equal fields are the same key. */
  datatype PathFilter = PathFilter(endswith: seq<string>, exclude: seq<string>)

  /** _PathFilter() with its defaults: endswith ('',), exclude (). */
  const DefaultFilter := PathFilter([""], [])

  /** An argument of filter_paths: a single string or an iterable of strings. */
  datatype Strings = OneString(s: string) | ManyStrings(items: seq<string>)

  /** _make_tuple: a single string becomes a one-element tuple (not the
      tuple of its characters); any other iterable is taken as it is. */
  function MakeTuple(value: Strings): (r: seq<string>)
    ensures value.OneString? ==> r == [value.s]
    ensures value.ManyStrings? ==> r == value.items
  {
    match value
    case OneString(s) => [s]
    case ManyStrings(items) => items
  }

  predicate EndsWithAny(path: string, ends: seq<string>) {
    exists k :: 0 <= k < |ends| && EndsWith(path, ends[k])
  }

  predicate FullyMatchesAny(path: string, patterns: seq<string>, fullMatch: Matcher) {
    exists k :: 0 <= k < |patterns| && fullMatch(patterns[k], path)
  }

  /** The condition a path must meet to be passed to a check with this filter. */
  predicate Selects(filt: PathFilter, path: string, fullMatch: Matcher) {
    EndsWithAny(path, filt.endswith) && !FullyMatchesAny(path, filt.exclude, fullMatch)
  }

  function SelectsFn(filt: PathFilter, fullMatch: Matcher): Path -> bool {
    p => Selects(filt, Str(p), fullMatch)
  }

  /** filtered_paths: the paths the filter selects, as a tuple in input order. */
  function Subset(filt: PathFilter, paths: seq<Path>, fullMatch: Matcher): (r: seq<Path>)
    ensures |r| <= |paths|
  {
    Seqs.Filter(paths, SelectsFn(filt, fullMatch))
  }

  /** A path is in a filter's subset iff its text ends with one of the
      suffixes and fully matches none of the exclude patterns; the subset
      lists the selected paths in the order of the input. */
  lemma SubsetSelects(filt: PathFilter, paths: seq<Path>, fullMatch: Matcher)
    ensures forall p :: p in Subset(filt, paths, fullMatch) <==>
              p in paths && EndsWithAny(Str(p), filt.endswith)
              && !FullyMatchesAny(Str(p), filt.exclude, fullMatch)
    ensures var ks := Seqs.Kept(paths, SelectsFn(filt, fullMatch));
            && |Subset(filt, paths, fullMatch)| == |ks|
            && Seqs.StrictlyIncreasing(ks)
            && (forall j :: 0 <= j < |ks| ==>
                  ks[j] < |paths| && Subset(filt, paths, fullMatch)[j] == paths[ks[j]])
            && (forall i :: 0 <= i < |paths| ==>
                  (i in ks <==> Selects(filt, Str(paths[i]), fullMatch)))
  {
    forall p ensures p in Subset(filt, paths, fullMatch) <==>
                     p in paths && Selects(filt, Str(p), fullMatch) {
      Seqs.FilterMembers(paths, SelectsFn(filt, fullMatch), p);
    }
    Seqs.FilterByPositions(paths, SelectsFn(filt, fullMatch));
  }

  /** The default filter (and filter_paths' default endswith='') selects
      every path: every string ends with ''. */
  lemma DefaultFilterSelectsAll(paths: seq<Path>, fullMatch: Matcher)
    ensures Subset(DefaultFilter, paths, fullMatch) == paths
  {
    forall i | 0 <= i < |paths| ensures SelectsFn(DefaultFilter, fullMatch)(paths[i]) {
      assert EndsWith(Str(paths[i]), DefaultFilter.endswith[0]);
    }
    Seqs.FilterKeepsAll(paths, SelectsFn(DefaultFilter, fullMatch));
  }

  /** An empty endswith tuple selects no path at all. */
  lemma NoSuffixSelectsNothing(exclude: seq<string>, paths: seq<Path>, fullMatch: Matcher)
    ensures Subset(PathFilter([], exclude), paths, fullMatch) == []
  {
    Seqs.FilterKeepsNone(paths, SelectsFn(PathFilter([], exclude), fullMatch));
  }

  /** Suffix matching is case-sensitive: endswith ('.h',) over
      a.h, b.c, c.H selects a.h alone. */
  lemma HeaderSuffixExample(fullMatch: Matcher)
    ensures Subset(PathFilter([".h"], []), [Path(["a.h"]), Path(["b.c"]), Path(["c.H"])], fullMatch)
            == [Path(["a.h"])]
  {
    var f := PathFilter([".h"], []);
    var ps := [Path(["a.h"]), Path(["b.c"]), Path(["c.H"])];
    var keep := SelectsFn(f, fullMatch);
    HeaderSelections(fullMatch);
    Seqs.FilterSnoc([], ps[0], keep);
    Seqs.FilterSnoc([ps[0]], ps[1], keep);
    Seqs.FilterSnoc([ps[0], ps[1]], ps[2], keep);
    assert [] + [ps[0]] == [ps[0]] && [ps[0]] + [ps[1]] == [ps[0], ps[1]] && [ps[0], ps[1]] + [ps[2]] == ps;
  }

  lemma HeaderSelections(fullMatch: Matcher)
    ensures var keep := SelectsFn(PathFilter([".h"], []), fullMatch);
            keep(Path(["a.h"])) && !keep(Path(["b.c"])) && !keep(Path(["c.H"]))
  {
    var ends := [".h"];
    assert EndsWith("a.h", ends[0]);
    assert !EndsWith("b.c", ends[0]) by {
      assert "b.c"[2] != ".h"[1];
    }
    assert !EndsWith("c.H", ends[0]) by {
      assert "c.H"[2] != ".h"[1];
    }
  }

  /** Exclusion is a full match against the path's text: with a pattern that
      fully matches x/generated/a.h and not x/a.h, only x/a.h is selected. */
  lemma ExcludeExample(fullMatch: Matcher)
    requires fullMatch(".*generated.*", "x/generated/a.h")
    requires !fullMatch(".*generated.*", "x/a.h")
    ensures Subset(PathFilter([".h"], [".*generated.*"]),
                   [Path(["x", "generated", "a.h"]), Path(["x", "a.h"])], fullMatch)
            == [Path(["x", "a.h"])]
  {
    var ps := [Path(["x", "generated", "a.h"]), Path(["x", "a.h"])];
    var f := PathFilter([".h"], [".*generated.*"]);
    var keep := SelectsFn(f, fullMatch);
    ExcludeTexts();
    assert EndsWith("x/a.h", f.endswith[0]);
    assert fullMatch(f.exclude[0], Str(ps[0]));
    assert !keep(ps[0]) && keep(ps[1]);
    Seqs.FilterSnoc([], ps[0], keep);
    Seqs.FilterSnoc([ps[0]], ps[1], keep);
    assert [] + [ps[0]] == [ps[0]] && [ps[0]] + [ps[1]] == ps;
  }

  lemma ExcludeTexts()
    ensures Str(Path(["x", "generated", "a.h"])) == "x/generated/a.h"
    ensures Str(Path(["x", "a.h"])) == "x/a.h"
  {
    var three := ["x", "generated", "a.h"];
    assert three[1..] == ["generated", "a.h"] && three[1..][1..] == ["a.h"];
    assert Join(three, "/") == "x" + "/" + ("generated" + "/" + "a.h");
    var two := ["x", "a.h"];
    assert two[1..] == ["a.h"];
    assert Join(two, "/") == "x" + "/" + "a.h";
  }
}
