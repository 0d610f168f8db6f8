/** The Presubmit class: Presubmit.run, _execute_checks, _log_summary and
    the log-directory naming of _context. */
module Presubmit {
  import opened Text
  import opened Paths
  import opened Filters
  import opened Checks
  import opened Resolver
  import Seqs
  import Summary

  /** A Presubmit: the repository root, the output directory and the paths
      (relative to the root) it checks. None of them changes after __init__. */
  datatype Presubmit = Presubmit(repositoryRoot: Path, outputDirectory: Path, paths: seq<Path>)

  /** PresubmitContext, the value a check function is called with. */
  datatype PresubmitContext = PresubmitContext(repositoryRoot: Path, outputDirectory: Path, paths: seq<Path>)

  /** One call of Check.run: the 1-based position, the program length, the
      check's name and the context it was given. */
  datatype Invocation = Invocation(index: nat, total: nat, name: string, context: PresubmitContext)

  // ---- log directory names -------------------------------------------------

  /** Characters in the class [\W_]: everything but letters and digits. */
  predicate IsSeparator(c: char) {
    !IsAlnum(c)
  }

  /** Drops the separators at the front of `s`. */
  function DropSeparators(s: string): (r: string)
    ensures |r| <= |s|
    ensures r != [] ==> IsAlnum(r[0])
  {
    if s != [] && IsSeparator(s[0]) then DropSeparators(s[1..]) else s
  }

  /** DropSeparators removes exactly the leading run of separators: what
      it drops are separators, and what it keeps is the rest of the input. */
  lemma {:induction false} DropSeparatorsSuffix(s: string)
    ensures var r := DropSeparators(s);
            && r == s[|s| - |r|..]
            && forall i :: 0 <= i < |s| - |r| ==> IsSeparator(s[i])
  {
    if s != [] && IsSeparator(s[0]) {
      DropSeparatorsSuffix(s[1..]);
      var r := DropSeparators(s);
      forall i | 0 < i < |s| - |r| ensures IsSeparator(s[i]) {
        assert s[i] == s[1..][i - 1];
      }
    }
  }

  /** re.sub(r'[\W_]+', '_', s): every maximal run of separators becomes one '_'. */
  function CollapseSeparators(s: string): string
    decreases |s|
  {
    if s == [] then []
    else if IsAlnum(s[0]) then [s[0]] + CollapseSeparators(s[1..])
    else "_" + CollapseSeparators(DropSeparators(s[1..]))
  }

  /** No two '_' stand next to each other. */
  ghost predicate NoDoubleUnderscore(s: string) {
    forall i, j :: 0 <= i && j == i + 1 && j < |s| ==> !(s[i] == '_' && s[j] == '_')
  }

  /** The collapsed text holds letters, digits and single '_'s, and starts
      as the original does. */
  lemma {:induction false} CollapseShape(s: string)
    ensures var r := CollapseSeparators(s);
            && |r| <= |s| && (r == [] <==> s == [])
            && (forall i :: 0 <= i < |r| ==> IsAlnum(r[i]) || r[i] == '_')
            && NoDoubleUnderscore(r)
            && (s != [] && IsAlnum(s[0]) ==> r[0] == s[0])
            && (s != [] && IsSeparator(s[0]) ==> r[0] == '_')
    decreases |s|
  {
    if s != [] {
      if IsAlnum(s[0]) {
        CollapseShape(s[1..]);
      } else {
        CollapseShape(DropSeparators(s[1..]));
      }
    }
  }

  /** The sanitized_name of _context: separators collapsed, then lower-cased. */
  function SanitizedName(name: string): string {
    Lower(CollapseSeparators(name))
  }

  /** Only lower-case letters, digits and '_'; never two '_' in a row;
      empty only for an empty name. */
  lemma SanitizedNameShape(name: string)
    ensures var r := SanitizedName(name);
            && (forall i :: 0 <= i < |r| ==> IsLower(r[i]) || IsDigit(r[i]) || r[i] == '_')
            && NoDoubleUnderscore(r)
            && (r == [] <==> name == [])
  {
    var c := CollapseSeparators(name);
    var r := SanitizedName(name);
    CollapseShape(name);
    forall i, j | 0 <= i && j == i + 1 && j < |r| ensures !(r[i] == '_' && r[j] == '_') {
      assert r[i] == '_' ==> c[i] == '_';
      assert r[j] == '_' ==> c[j] == '_';
    }
  }

  /** A string already in sanitized shape collapses to itself. */
  lemma {:induction false} CollapseFixed(s: string)
    requires forall i :: 0 <= i < |s| ==> IsAlnum(s[i]) || s[i] == '_'
    requires NoDoubleUnderscore(s)
    ensures CollapseSeparators(s) == s
  {
    if s != [] {
      var t := s[1..];
      assert forall i :: 0 <= i < |t| ==> t[i] == s[i + 1];
      CollapseFixed(t);
      if !IsAlnum(s[0]) {
        assert t != [] ==> IsAlnum(t[0]);
        assert DropSeparators(t) == t;
      }
      assert s == [s[0]] + t;
    }
  }

  /** Sanitizing is idempotent. */
  lemma SanitizedNameIdempotent(name: string)
    ensures SanitizedName(SanitizedName(name)) == SanitizedName(name)
  {
    var r := SanitizedName(name);
    SanitizedNameShape(name);
    CollapseFixed(r);
    assert Lower(r) == r;
  }

  function AlnumFn(): char -> bool {
    c => IsAlnum(c)
  }

  /** The letters and digits of a string, in order. */
  function Alnums(s: string): string {
    Seqs.Filter(s, AlnumFn())
  }

  lemma {:induction false} AlnumsPrepend(c: char, s: string)
    ensures Alnums([c] + s) == (if IsAlnum(c) then [c] else []) + Alnums(s)
    decreases |s|
  {
    if s != [] {
      var init := s[..|s| - 1];
      AlnumsPrepend(c, init);
      assert ([c] + s)[..|[c] + s| - 1] == [c] + init;
    } else {
      assert ([c] + s)[..0] == [];
    }
  }

  lemma {:induction false} AlnumsDropSeparators(s: string)
    ensures Alnums(DropSeparators(s)) == Alnums(s)
    decreases |s|
  {
    if s != [] && IsSeparator(s[0]) {
      AlnumsDropSeparators(s[1..]);
      AlnumsPrepend(s[0], s[1..]);
      assert s == [s[0]] + s[1..];
    }
  }

  lemma {:induction false} AlnumsCollapse(s: string)
    ensures Alnums(CollapseSeparators(s)) == Alnums(s)
    decreases |s|
  {
    if s != [] {
      assert s == [s[0]] + s[1..];
      AlnumsPrepend(s[0], s[1..]);
      if IsAlnum(s[0]) {
        AlnumsCollapse(s[1..]);
        AlnumsPrepend(s[0], CollapseSeparators(s[1..]));
      } else {
        var rest := DropSeparators(s[1..]);
        AlnumsCollapse(rest);
        AlnumsDropSeparators(s[1..]);
        AlnumsPrepend('_', CollapseSeparators(rest));
      }
    }
  }

  lemma {:induction false} AlnumsLower(s: string)
    ensures Alnums(Lower(s)) == Lower(Alnums(s))
  {
    if s != [] {
      var init := s[..|s| - 1];
      AlnumsLower(init);
      assert Lower(s)[..|s| - 1] == Lower(init);
    }
  }

  /** Sanitizing keeps every letter and digit of the name, in order, lower-cased:
      only the separators are rewritten. */
  lemma SanitizedNameKeepsAlnums(name: string)
    ensures Alnums(SanitizedName(name)) == Lower(Alnums(name))
  {
    AlnumsLower(CollapseSeparators(name));
    AlnumsCollapse(name);
  }

  /** Each maximal run of separators between two words becomes a single
      '_': sanitizing word + run + rest gives the lower-cased word, one '_'
      and the sanitized rest. */
  lemma SeparatorRunCollapses(word: string, run: string, rest: string)
    requires forall i :: 0 <= i < |word| ==> IsAlnum(word[i])
    requires run != [] && forall i :: 0 <= i < |run| ==> IsSeparator(run[i])
    requires rest == [] || IsAlnum(rest[0])
    ensures SanitizedName(word + run + rest) == Lower(word) + "_" + SanitizedName(rest)
  {
    CollapseRun(word, run, rest);
    LowerAroundUnderscore(word, CollapseSeparators(rest));
  }

  /** A worked example: a run of spaces and punctuation becomes one '_', and
      capitals become small letters. */
  lemma SanitizedNameExample()
    ensures SanitizedName("My Check!!2") == "my_check_2"
  {
    SanitizedNameExampleTail();
    SeparatorRunCollapses("My", " ", "Check!!2");
    SanitizedNameExampleWords();
  }

  /** Part of SanitizedNameExample: the text after the first separator run. */
  lemma SanitizedNameExampleTail()
    ensures SanitizedName("Check!!2") == "check_2"
  {
    assert CollapseSeparators("2") == "2";
    SeparatorRunCollapses("Check", "!!", "2");
    SanitizedNameExampleWords();
  }

  /** Part of SanitizedNameExample: how its strings split into words and
      separator runs, and the lowered words. */
  lemma SanitizedNameExampleWords()
    ensures "My Check!!2" == "My" + " " + "Check!!2"
    ensures "my" + "_" + "check_2" == "my_check_2"
    ensures "Check!!2" == "Check" + "!!" + "2"
    ensures "check" + "_" + "2" == "check_2"
    ensures Lower("My") == "my"
    ensures Lower("Check") == "check"
  {
  }

  lemma LowerAroundUnderscore(a: string, b: string)
    ensures Lower(a + "_" + b) == Lower(a) + "_" + Lower(b)
  {
    LowerAppend(a + "_", b);
    LowerAppend(a, "_");
    assert Lower("_") == "_";
  }

  lemma CollapseRun(word: string, run: string, rest: string)
    requires forall i :: 0 <= i < |word| ==> IsAlnum(word[i])
    requires run != [] && forall i :: 0 <= i < |run| ==> IsSeparator(run[i])
    requires rest == [] || IsAlnum(rest[0])
    ensures CollapseSeparators(word + run + rest) == word + "_" + CollapseSeparators(rest)
  {
    CollapseRunHead(run, rest);
    CollapseWord(word, run + rest);
    assert word + run + rest == word + (run + rest);
    assert word + ("_" + CollapseSeparators(rest)) == word + "_" + CollapseSeparators(rest);
  }

  /** A maximal run of separators at the front becomes a single '_'. */
  lemma CollapseRunHead(run: string, rest: string)
    requires run != [] && forall i :: 0 <= i < |run| ==> IsSeparator(run[i])
    requires rest == [] || IsAlnum(rest[0])
    ensures CollapseSeparators(run + rest) == "_" + CollapseSeparators(rest)
  {
    var t := run + rest;
    assert t[0] == run[0];
    assert t[1..] == run[1..] + rest;
    DropRun(run[1..], rest);
  }

  /** A word of letters and digits is copied through unchanged. */
  lemma {:induction false} CollapseWord(w: string, rest: string)
    requires forall i :: 0 <= i < |w| ==> IsAlnum(w[i])
    ensures CollapseSeparators(w + rest) == w + CollapseSeparators(rest)
  {
    if w == [] {
      assert w + rest == rest;
    } else {
      CollapseWord(w[1..], rest);
      Seqs.ConcatHead(w, rest);
      CollapseAlnumHead(w[0], w[1..] + rest);
      Seqs.ConcatHead(w, CollapseSeparators(rest));
    }
  }

  lemma CollapseAlnumHead(c: char, t: string)
    requires IsAlnum(c)
    ensures CollapseSeparators([c] + t) == [c] + CollapseSeparators(t)
  {
    assert ([c] + t)[1..] == t;
  }

  lemma {:induction false} DropRun(run: string, rest: string)
    requires forall i :: 0 <= i < |run| ==> IsSeparator(run[i])
    requires rest == [] || IsAlnum(rest[0])
    ensures DropSeparators(run + rest) == rest
  {
    if run == [] {
      assert run + rest == rest;
      assert !(rest != [] && IsSeparator(rest[0]));
    } else {
      var s, tail := run + rest, run[1..];
      assert s[0] == run[0] && IsSeparator(s[0]);
      assert s[1..] == tail + rest;
      assert forall i :: 0 <= i < |tail| ==> IsSeparator(tail[i]) by {
        forall i | 0 <= i < |tail| ensures IsSeparator(tail[i]) {
          assert tail[i] == run[i + 1];
        }
      }
      DropRun(tail, rest);
      assert DropSeparators(s) == DropSeparators(tail + rest);
    }
  }

  lemma LowerAppend(a: string, b: string)
    ensures Lower(a + b) == Lower(a) + Lower(b)
  {
  }

  /** output_directory.joinpath(sanitized_name): the directory of a check's step.log. */
  function CheckOutputDirectory(p: Presubmit, name: string): Path {
    Child(p.outputDirectory, SanitizedName(name))
  }

  /** A check's log directory sits directly in the output directory, under a
      single component that cannot contain a path separator. */
  lemma CheckOutputDirectoryIsChild(p: Presubmit, name: string)
    requires name != ""
    ensures var d := CheckOutputDirectory(p, name);
            && d.parts == p.outputDirectory.parts + [SanitizedName(name)]
            && '/' !in SanitizedName(name)
  {
    SanitizedNameShape(name);
    var s := SanitizedName(name);
    assert forall i :: 0 <= i < |s| ==> s[i] != '/';
  }

  /** The context _context builds for a check: the paths are joined to the
      repository root. */
  function MakeContext(p: Presubmit, name: string, paths: seq<Path>): (ctx: PresubmitContext)
    ensures ctx.repositoryRoot == p.repositoryRoot
    ensures ctx.outputDirectory == CheckOutputDirectory(p, name)
    ensures |ctx.paths| == |paths|
    ensures forall j :: 0 <= j < |paths| ==> ctx.paths[j] == JoinPath(p.repositoryRoot, paths[j])
  {
    PresubmitContext(p.repositoryRoot, CheckOutputDirectory(p, name),
                     seq(|paths|, j requires 0 <= j < |paths| => JoinPath(p.repositoryRoot, paths[j])))
  }

  // ---- _execute_checks -------------------------------------------------------

  /** Whether an outcome ends the run: a cancel always does, a failure only
      without keep_going. */
  predicate Stops(r: Result, keepGoing: bool) {
    r == Cancel || (r == Fail && !keepGoing)
  }

  /** How many checks _execute_checks invokes, given their outcomes in order. */
  function RunLength(outcomes: seq<Result>, keepGoing: bool): (n: nat)
    ensures n <= |outcomes|
  {
    if outcomes == [] then 0
    else if Stops(outcomes[0], keepGoing) then 1
    else 1 + RunLength(outcomes[1..], keepGoing)
  }

  function CountOf(s: seq<Result>, r: Result): (n: nat)
    ensures n <= |s|
  {
    if s == [] then 0 else CountOf(s[..|s| - 1], r) + (if s[|s| - 1] == r then 1 else 0)
  }

  /** The outcome of each check of the program, as _call_function classifies its call. */
  function Outcomes(behaviours: seq<Behaviour>): (o: seq<Result>)
    ensures |o| == |behaviours|
    ensures forall i :: 0 <= i < |behaviours| ==> o[i] == CallFunction(behaviours[i])
  {
    seq(|behaviours|, i requires 0 <= i < |behaviours| => CallFunction(behaviours[i]))
  }

  function Passed(o: seq<Result>, keepGoing: bool): nat {
    CountOf(o[..RunLength(o, keepGoing)], Pass)
  }

  function Failed(o: seq<Result>, keepGoing: bool): nat {
    CountOf(o[..RunLength(o, keepGoing)], Fail)
  }

  /** len(program) - passed - failed */
  function Skipped(o: seq<Result>, keepGoing: bool): int {
    |o| - Passed(o, keepGoing) - Failed(o, keepGoing)
  }

  /** The call of the check at position j (0-based): number j + 1 of
      |program|, with the check's name and its context. */
  function Call(p: Presubmit, program: seq<(Check, seq<Path>)>, j: nat): Invocation
    requires j < |program|
  {
    Invocation(j + 1, |program|, program[j].0.Name(), MakeContext(p, program[j].0.Name(), program[j].1))
  }

  /** The calls _execute_checks makes on the first n checks of the program. */
  function Invocations(p: Presubmit, program: seq<(Check, seq<Path>)>, n: nat): (calls: seq<Invocation>)
    requires n <= |program|
    ensures |calls| == n
  {
    if n == 0 then [] else Invocations(p, program, n - 1) + [Call(p, program, n - 1)]
  }

  /** The j-th call made on the first n checks is the call of check j: calls
      are made in program order, one per check. */
  lemma {:induction false} InvocationsAt(p: Presubmit, program: seq<(Check, seq<Path>)>, n: nat, j: nat)
    requires j < n <= |program|
    ensures Invocations(p, program, n)[j] == Call(p, program, j)
    ensures Invocations(p, program, n)[j].index == j + 1 && Invocations(p, program, n)[j].total == |program|
    ensures Invocations(p, program, n)[j].name == program[j].0.Name()
  {
    if j < n - 1 {
      InvocationsAt(p, program, n - 1, j);
    }
  }

  lemma {:induction false} RunLengthAfter(o: seq<Result>, keepGoing: bool, i: nat)
    requires i <= |o|
    requires forall j :: 0 <= j < i ==> !Stops(o[j], keepGoing)
    ensures RunLength(o, keepGoing) == i + RunLength(o[i..], keepGoing)
  {
    if i > 0 {
      RunLengthAfter(o[1..], keepGoing, i - 1);
      assert o[1..][i - 1..] == o[i..];
    }
  }

  /** The run ends at the first check whose outcome stops it. */
  lemma RunLengthStopsAt(o: seq<Result>, keepGoing: bool, i: nat)
    requires i < |o| && Stops(o[i], keepGoing)
    requires forall j :: 0 <= j < i ==> !Stops(o[j], keepGoing)
    ensures RunLength(o, keepGoing) == i + 1
  {
    RunLengthAfter(o, keepGoing, i);
    assert o[i..][0] == o[i];
  }

  /** With no stopping outcome, every check runs. */
  lemma RunLengthAll(o: seq<Result>, keepGoing: bool)
    requires forall j :: 0 <= j < |o| ==> !Stops(o[j], keepGoing)
    ensures RunLength(o, keepGoing) == |o|
  {
    RunLengthAfter(o, keepGoing, |o|);
    assert o[|o|..] == [];
  }

  /** When check i stops the run, the counts are those of the first i + 1 checks. */
  lemma StoppedCounts(o: seq<Result>, keepGoing: bool, i: nat)
    requires i < |o| && Stops(o[i], keepGoing)
    requires forall j :: 0 <= j < i ==> !Stops(o[j], keepGoing)
    ensures RunLength(o, keepGoing) == i + 1
    ensures Passed(o, keepGoing) == CountOf(o[..i + 1], Pass)
    ensures Failed(o, keepGoing) == CountOf(o[..i + 1], Fail)
  {
    RunLengthStopsAt(o, keepGoing, i);
  }

  /** When no check stops the run, the counts are those of the whole program. */
  lemma FinishedCounts(o: seq<Result>, keepGoing: bool)
    requires forall j :: 0 <= j < |o| ==> !Stops(o[j], keepGoing)
    ensures RunLength(o, keepGoing) == |o|
    ensures Passed(o, keepGoing) == CountOf(o[..|o|], Pass)
    ensures Failed(o, keepGoing) == CountOf(o[..|o|], Fail)
  {
    RunLengthAll(o, keepGoing);
  }

  /** One step of the run: a stopping outcome ends it, any other goes on. */
  lemma RunStep(o: seq<Result>, keepGoing: bool, i: nat)
    requires i < |o|
    ensures RunLength(o[i..], keepGoing) ==
            if Stops(o[i], keepGoing) then 1 else 1 + RunLength(o[i + 1..], keepGoing)
  {
    assert o[i..][0] == o[i] && o[i..][1..] == o[i + 1..];
  }

  lemma RunEnd(o: seq<Result>, keepGoing: bool)
    ensures RunLength(o[|o|..], keepGoing) == 0
  {
    assert o[|o|..] == [];
  }

  lemma CountOfSnoc(s: seq<Result>, i: nat, r: Result)
    requires i < |s|
    ensures CountOf(s[..i + 1], r) == CountOf(s[..i], r) + (if s[i] == r then 1 else 0)
  {
    assert s[..i + 1][..i] == s[..i];
  }

  /** _execute_checks: runs the checks in order, counting passes and
      failures; a cancel ends the run, and so does a failure unless
      keep_going. Returns the counts and the calls made. */
  method ExecuteChecks(p: Presubmit, program: seq<(Check, seq<Path>)>, keepGoing: bool,
                       behaviours: seq<Behaviour>)
    returns (passed: nat, failed: nat, skipped: nat, calls: seq<Invocation>)
    requires |behaviours| == |program|
    ensures passed == Passed(Outcomes(behaviours), keepGoing)
    ensures failed == Failed(Outcomes(behaviours), keepGoing)
    ensures passed + failed + skipped == |program|
    ensures calls == Invocations(p, program, RunLength(Outcomes(behaviours), keepGoing))
  {
    ghost var o := Outcomes(behaviours);
    passed, failed := 0, 0;
    calls := [];
    var i := 0;
    assert o[0..] == o;
    while i < |program|
      invariant 0 <= i <= |program|
      invariant RunLength(o, keepGoing) == i + RunLength(o[i..], keepGoing)
      invariant passed == CountOf(o[..i], Pass) && failed == CountOf(o[..i], Fail)
      invariant passed + failed == i
      invariant calls == Invocations(p, program, i)
    {
      // The context _context prepares, and check.run(ctx, i + 1, len(program)).
      var (check, paths) := program[i];
      var ctx := MakeContext(p, check.Name(), paths);
      calls := calls + [Invocation(i + 1, |program|, check.Name(), ctx)];
      var result := CallFunction(behaviours[i]);
      CountOfSnoc(o, i, Pass);
      CountOfSnoc(o, i, Fail);
      RunStep(o, keepGoing, i);
      if result == Pass {
        passed := passed + 1;
      } else if result == Cancel {
        break;
      } else {
        failed := failed + 1;
        if !keepGoing {
          break;
        }
      }
      i := i + 1;
    }
    if i == |program| {
      RunEnd(o, keepGoing);
    }
    skipped := |program| - passed - failed;
  }

  // ---- what _execute_checks promises ------------------------------------------

  /** The three counts add up to the program length, and skipped is never negative. */
  lemma CountsAddUp(o: seq<Result>, keepGoing: bool)
    ensures Passed(o, keepGoing) + Failed(o, keepGoing) + Skipped(o, keepGoing) == |o|
    ensures Skipped(o, keepGoing) >= 0
  {
    CountPassFail(o[..RunLength(o, keepGoing)]);
  }

  lemma {:induction false} CountPassFail(s: seq<Result>)
    ensures CountOf(s, Pass) + CountOf(s, Fail) <= |s|
  {
    if s != [] {
      CountPassFail(s[..|s| - 1]);
    }
  }

  /** RunLength is one past the first outcome that stops the run, or the
      whole program when none does. */
  lemma {:induction false} RunLengthFirstStop(o: seq<Result>, keepGoing: bool)
    ensures var n := RunLength(o, keepGoing);
            && (forall j :: 0 <= j < n - 1 ==> !Stops(o[j], keepGoing))
            && (n < |o| ==> n >= 1 && Stops(o[n - 1], keepGoing))
            && (o != [] ==> n >= 1)
  {
    if o != [] && !Stops(o[0], keepGoing) {
      RunLengthFirstStop(o[1..], keepGoing);
      var n := RunLength(o, keepGoing);
      forall j | 0 <= j < n - 1 ensures !Stops(o[j], keepGoing) {
        if j > 0 {
          assert o[j] == o[1..][j - 1];
        }
      }
    }
  }

  /** Whether the run goes past check k, for a k the run reaches: it does
      iff check k does not stop it and it is not the last check. */
  lemma RunGoesPast(o: seq<Result>, keepGoing: bool, k: nat)
    requires k < |o|
    requires forall j :: 0 <= j < k ==> !Stops(o[j], keepGoing)
    ensures RunLength(o, keepGoing) > k + 1 <==> !Stops(o[k], keepGoing) && k + 1 < |o|
  {
    RunLengthAfter(o, keepGoing, k);
    if !Stops(o[k], keepGoing) && k + 1 < |o| {
      RunLengthAfter(o, keepGoing, k + 1);
      assert o[k + 1..] != [];
    }
  }

  /** A cancel ends the run whatever keep_going is; the cancelled check and
      every check after it count as skipped. */
  lemma CancelEndsRun(o: seq<Result>, keepGoing: bool, k: nat)
    requires k < |o| && o[k] == Cancel
    requires forall j :: 0 <= j < k ==> !Stops(o[j], keepGoing)
    ensures RunLength(o, keepGoing) == k + 1
    ensures Passed(o, keepGoing) + Failed(o, keepGoing) == k
    ensures Skipped(o, keepGoing) == |o| - k
  {
    RunLengthAfter(o, keepGoing, k);
    CountOfSnoc(o, k, Pass);
    CountOfSnoc(o, k, Fail);
    PassFailPrefix(o, keepGoing, k);
  }

  lemma {:induction false} PassFailPrefix(o: seq<Result>, keepGoing: bool, k: nat)
    requires k <= |o|
    requires forall j :: 0 <= j < k ==> !Stops(o[j], keepGoing)
    ensures CountOf(o[..k], Pass) + CountOf(o[..k], Fail) == k
  {
    if k > 0 {
      PassFailPrefix(o, keepGoing, k - 1);
      CountOfSnoc(o, k - 1, Pass);
      CountOfSnoc(o, k - 1, Fail);
    }
  }

  /** A failure ends the run exactly when keep_going is off (or it was the
      last check anyway). */
  lemma FailEndsRunUnlessKeepGoing(o: seq<Result>, keepGoing: bool, k: nat)
    requires k < |o| && o[k] == Fail
    requires forall j :: 0 <= j < k ==> !Stops(o[j], keepGoing)
    ensures RunLength(o, keepGoing) > k + 1 <==> keepGoing && k + 1 < |o|
  {
    RunGoesPast(o, keepGoing, k);
  }

  /** A pass never ends the run. */
  lemma PassContinuesRun(o: seq<Result>, keepGoing: bool, k: nat)
    requires k < |o| && o[k] == Pass
    requires forall j :: 0 <= j < k ==> !Stops(o[j], keepGoing)
    ensures RunLength(o, keepGoing) > k + 1 <==> k + 1 < |o|
  {
    RunGoesPast(o, keepGoing, k);
  }

  /** With keep_going and no cancel, every check runs and none is skipped. */
  lemma KeepGoingRunsAll(o: seq<Result>)
    requires forall j :: 0 <= j < |o| ==> o[j] != Cancel
    ensures RunLength(o, true) == |o|
    ensures Skipped(o, true) == 0
  {
    RunLengthAfter(o, true, |o|);
    PassFailPrefix(o, true, |o|);
    assert o[..|o|] == o;
  }

  /** The run succeeds (nothing failed, nothing skipped) iff every check of
      the program passes, whatever keep_going is. */
  lemma SuccessIffAllPass(o: seq<Result>, keepGoing: bool)
    ensures (Failed(o, keepGoing) == 0 && Skipped(o, keepGoing) == 0) <==>
            forall j :: 0 <= j < |o| ==> o[j] == Pass
  {
    var n := RunLength(o, keepGoing);
    if forall j :: 0 <= j < |o| ==> o[j] == Pass {
      RunLengthAfter(o, keepGoing, |o|);
      AllPassCount(o, |o|);
      assert o[..|o|] == o;
      CountPassFail(o);
    }
    if Failed(o, keepGoing) == 0 && Skipped(o, keepGoing) == 0 {
      CountPassFail(o[..n]);
      assert CountOf(o[..n], Pass) == |o|;
      assert n == |o|;
      assert o[..n] == o;
      PassCountFull(o);
    }
  }

  /** The same verdict in terms of what the check functions did: nothing
      failed and nothing was skipped iff every function returned. */
  lemma SuccessIffAllReturn(behaviours: seq<Behaviour>, keepGoing: bool)
    ensures (Failed(Outcomes(behaviours), keepGoing) == 0 && Skipped(Outcomes(behaviours), keepGoing) == 0) <==>
            forall j :: 0 <= j < |behaviours| ==> behaviours[j].Returns?
  {
    var o := Outcomes(behaviours);
    SuccessIffAllPass(o, keepGoing);
    assert (forall j :: 0 <= j < |o| ==> o[j] == Pass) <==>
           (forall j :: 0 <= j < |behaviours| ==> behaviours[j].Returns?);
  }

  lemma {:induction false} AllPassCount(o: seq<Result>, k: nat)
    requires k <= |o|
    requires forall j :: 0 <= j < |o| ==> o[j] == Pass
    ensures CountOf(o[..k], Pass) == k
  {
    if k > 0 {
      AllPassCount(o, k - 1);
      CountOfSnoc(o, k - 1, Pass);
    }
  }

  lemma {:induction false} PassCountFull(s: seq<Result>)
    requires CountOf(s, Pass) == |s|
    ensures forall j :: 0 <= j < |s| ==> s[j] == Pass
  {
    if s != [] {
      var init := s[..|s| - 1];
      assert CountOf(init, Pass) <= |init|;
      PassCountFull(init);
      forall j | 0 <= j < |s| ensures s[j] == Pass {
        if j < |init| {
          assert s[j] == init[j];
        }
      }
    }
  }

  /** The fail-fast example: pass, fail, pass without keep_going runs two
      checks; with keep_going it runs all three. */
  lemma FailFastExample()
    ensures RunLength([Pass, Fail, Pass], false) == 2
    ensures Passed([Pass, Fail, Pass], false) == 1 && Failed([Pass, Fail, Pass], false) == 1
    ensures Skipped([Pass, Fail, Pass], false) == 1
    ensures RunLength([Pass, Fail, Pass], true) == 3
    ensures Passed([Pass, Fail, Pass], true) == 2 && Failed([Pass, Fail, Pass], true) == 1
    ensures Skipped([Pass, Fail, Pass], true) == 0
  {
    var o := [Pass, Fail, Pass];
    assert o[1..] == [Fail, Pass] && o[1..][1..] == [Pass];
    assert o[..2][..1] == [Pass] && o[..3] == o && o[..2][..1][..0] == [];
    assert o[..3][..2] == o[..2];
  }

  // ---- _log_summary ----------------------------------------------------------

  /** The summary_items _log_summary collects, in order. */
  function SummaryItems(passed: nat, failed: nat, skipped: nat): seq<string> {
    (if passed > 0 then [NatToString(passed) + " passed"] else [])
    + (if failed > 0 then [NatToString(failed) + " failed"] else [])
    + (if skipped > 0 then [NatToString(skipped) + " not run"] else [])
  }

  /** The summary text _log_summary builds from the three counts. */
  function SummaryText(passed: nat, failed: nat, skipped: nat): string {
    if passed == 0 && failed == 0 && skipped == 0 then "nothing was done"
    else Join(SummaryItems(passed, failed, skipped), ", ")
  }

  /** The final summary line _log_summary prints (without its box and
      time), for a run over fileCount files. */
  function SummaryLine(fileCount: nat, passed: nat, failed: nat, skipped: nat): string {
    NatToString(passed + failed + skipped) + " checks on " + Plural(fileCount, "file") + ": "
    + SummaryText(passed, failed, skipped)
  }

  lemma SummaryTextOfItems(passed: nat, failed: nat, skipped: nat)
    ensures SummaryText(passed, failed, skipped)
            == if SummaryItems(passed, failed, skipped) == [] then "nothing was done"
               else Join(SummaryItems(passed, failed, skipped), ", ")
  {
    if passed > 0 || failed > 0 || skipped > 0 {
      assert SummaryItems(passed, failed, skipped) != [];
    }
  }

  lemma JoinStartsWithFirst(items: seq<string>, sep: string)
    requires items != [] && items[0] != ""
    ensures Join(items, sep) != "" && Join(items, sep)[0] == items[0][0]
  {
  }

  /** _log_summary: the verdict, the total, the summary text and the text of
      the final summary line (without its box and time). */
  method LogSummary(paths: seq<Path>, passed: nat, failed: nat, skipped: nat)
    returns (result: Result, total: nat, summary: string, line: string)
    ensures result == (if failed > 0 || skipped > 0 then Fail else Pass)
    ensures total == passed + failed + skipped
    ensures summary == "nothing was done" <==> passed == 0 && failed == 0 && skipped == 0
    ensures summary != "nothing was done" ==> summary == Join(SummaryItems(passed, failed, skipped), ", ")
    ensures summary == SummaryText(passed, failed, skipped)
    ensures line == NatToString(total) + " checks on " + Plural(|paths|, "file") + ": " + summary
  {
    var items: seq<string> := [];
    if passed > 0 {
      items := items + [NatToString(passed) + " passed"];
    }
    if failed > 0 {
      items := items + [NatToString(failed) + " failed"];
    }
    if skipped > 0 {
      items := items + [NatToString(skipped) + " not run"];
    }
    assert items == SummaryItems(passed, failed, skipped);
    SummaryTextOfItems(passed, failed, skipped);
    if items == [] {
      summary := "nothing was done";
    } else {
      summary := Join(items, ", ");
      JoinStartsWithFirst(items, ", ");
      assert IsDigit(summary[0]);
    }
    result := if failed > 0 || skipped > 0 then Fail else Pass;
    total := passed + failed + skipped;
    line := NatToString(total) + " checks on " + Plural(|paths|, "file") + ": " + summary;
  }

  // ---- Presubmit.run -----------------------------------------------------------

  /** Presubmit.run: resolves the program, runs it and reports. Returns
      whether nothing failed and nothing was skipped, the calls made and the
      verdict and text of the final summary. */
  method Run(p: Presubmit, fullProgram: seq<ProgramEntry>, keepGoing: bool, fullMatch: Matcher,
             behaviours: seq<Behaviour>)
    returns (success: bool, fileLines: seq<string>, calls: seq<Invocation>, verdict: Result, summaryLine: string)
    requires Summary.AllHaveParts(p.paths)
    requires |behaviours| == |Resolve(AsChecks(fullProgram), p.paths, fullMatch)|
    ensures fileLines == Summary.SummaryLines(p.paths, 2, 12, 3, ' ', " ", " ")
    ensures var program := Resolve(AsChecks(fullProgram), p.paths, fullMatch);
            calls == Invocations(p, program, RunLength(Outcomes(behaviours), keepGoing))
    ensures success <==> Failed(Outcomes(behaviours), keepGoing) == 0 && Skipped(Outcomes(behaviours), keepGoing) == 0
    ensures success <==> forall j :: 0 <= j < |behaviours| ==> behaviours[j].Returns?
    ensures success <==> verdict == Pass
    ensures var program := Resolve(AsChecks(fullProgram), p.paths, fullMatch);
            var o := Outcomes(behaviours);
            Skipped(o, keepGoing) >= 0
            && summaryLine == SummaryLine(|p.paths|, Passed(o, keepGoing), Failed(o, keepGoing), Skipped(o, keepGoing))
  {
    var program := ApplyFilters(fullProgram, p.paths, fullMatch);
    fileLines := Summary.FileSummary(p.paths, 2, 12, 3, ' ', " ", " ");
    success, calls, verdict, summaryLine := RunProgram(p, program, keepGoing, behaviours);
  }

  /** _log_summary called with the counts of a run o: the verdict and the
      summary line in terms of the run's own counts. */
  method ReportRun(paths: seq<Path>, ghost o: seq<Result>, keepGoing: bool, passed: nat, failed: nat, skipped: nat)
    returns (verdict: Result, summaryLine: string)
    requires passed == Passed(o, keepGoing) && failed == Failed(o, keepGoing)
    requires passed + failed + skipped == |o|
    ensures verdict == (if failed > 0 || skipped > 0 then Fail else Pass)
    ensures Skipped(o, keepGoing) >= 0
            && summaryLine == SummaryLine(|paths|, Passed(o, keepGoing), Failed(o, keepGoing), Skipped(o, keepGoing))
  {
    var total, summary;
    verdict, total, summary, summaryLine := LogSummary(paths, passed, failed, skipped);
  }

  /** The part of Presubmit.run after the file summary: executes the
      resolved program and logs the summary. */
  method RunProgram(p: Presubmit, program: seq<(Check, seq<Path>)>, keepGoing: bool, behaviours: seq<Behaviour>)
    returns (success: bool, calls: seq<Invocation>, verdict: Result, summaryLine: string)
    requires |behaviours| == |program|
    ensures calls == Invocations(p, program, RunLength(Outcomes(behaviours), keepGoing))
    ensures success <==> Failed(Outcomes(behaviours), keepGoing) == 0 && Skipped(Outcomes(behaviours), keepGoing) == 0
    ensures success <==> forall j :: 0 <= j < |behaviours| ==> behaviours[j].Returns?
    ensures success <==> verdict == Pass
    ensures var o := Outcomes(behaviours);
            Skipped(o, keepGoing) >= 0
            && summaryLine == SummaryLine(|p.paths|, Passed(o, keepGoing), Failed(o, keepGoing), Skipped(o, keepGoing))
  {
    var passed, failed, skipped;
    passed, failed, skipped, calls := ExecuteChecks(p, program, keepGoing, behaviours);
    verdict, summaryLine := ReportRun(p.paths, Outcomes(behaviours), keepGoing, passed, failed, skipped);
    success := failed == 0 && skipped == 0;
    assert success <==> Failed(Outcomes(behaviours), keepGoing) == 0 && Skipped(Outcomes(behaviours), keepGoing) == 0;
    SuccessIffAllReturn(behaviours, keepGoing);
  }
}
