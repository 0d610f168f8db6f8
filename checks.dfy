/** _Result, PresubmitFailure, _Check (its wrapping defaults and
    _call_function) and the filter_paths decorator. */
module Checks {
  import opened Text
  import opened Paths
  import opened Filters

  datatype Option<T> = None | Some(value: T)

  /** _Result: the outcome of one check. */
  datatype Result = Pass | Fail | Cancel

  /** PresubmitFailure(description, path): the designated failure of a check. */
  datatype PresubmitFailure = PresubmitFailure(description: string, path: Option<Path>)

  /** str(failure): "<path>: <description>" when a path is given, else the
      description. */
  function FailureText(f: PresubmitFailure): (r: string)
    ensures EndsWith(r, (if f.path.Some? then ": " else "") + f.description)
    ensures f.path.None? ==> r == f.description
    ensures f.path.Some? ==> |r| == |Str(f.path.value)| + 2 + |f.description|
                             && r[..|Str(f.path.value)| + 2] == Str(f.path.value) + ": "
  {
    match f.path
    case Some(p) => Str(p) + ": " + f.description
    case None => f.description
  }

  /** What calling a check's function does; the function's own logic is
      not modelled, only the way it ends. */
  datatype Behaviour =
    | Returns                                       // returns normally
    | RaisesPresubmitFailure(failure: PresubmitFailure)
    | RaisesError                                   // raises any other Exception
    | Interrupted                                   // KeyboardInterrupt during the call

  /** _Check._call_function: how the outcome of a call is classified. */
  function CallFunction(b: Behaviour): (r: Result)
    ensures r == Pass <==> b.Returns?
    ensures r == Cancel <==> b.Interrupted?
    ensures r == Fail <==> b.RaisesPresubmitFailure? || b.RaisesError?
  {
    match b
    case Returns => Pass
    case RaisesPresubmitFailure(_) => Fail
    case RaisesError => Fail
    case Interrupted => Cancel
  }

  /** The warning _call_function logs: the failure's text, when it is not empty. */
  function FailureWarning(b: Behaviour): (w: Option<string>)
    ensures w.Some? ==> b.RaisesPresubmitFailure? && w.value != ""
    ensures w.Some? ==> w.value == FailureText(b.failure)
    ensures b.RaisesPresubmitFailure? && FailureText(b.failure) != "" ==> w.Some?
  {
    if b.RaisesPresubmitFailure? && FailureText(b.failure) != "" then Some(FailureText(b.failure))
    else None
  }

  /** A PresubmitFailure is logged exactly when it names a path or has a
      non-empty description. */
  lemma FailureWarningWhen(f: PresubmitFailure)
    ensures FailureWarning(RaisesPresubmitFailure(f)).Some? <==> f.path.Some? || f.description != ""
  {
    if f.path.Some? {
      assert |FailureText(f)| >= 2;
    }
  }

  /** A check implementation: a callable with a name and a parameter count. */
  datatype CheckFunction = CheckFunction(name: string, arity: nat)

  /** _Check: the wrapped function, its path filter and always_run. */
  datatype Check = Check(impl: CheckFunction, filter: PathFilter, alwaysRun: bool) {
    /** A _Check adopts the name of the function it wraps. */
    function Name(): string {
      impl.name
    }
  }

  /** An element of a presubmit program: a _Check, or a bare callable. */
  datatype ProgramEntry = Wrapped(check: Check) | Bare(impl: CheckFunction)

  /** `c if isinstance(c, _Check) else _Check(c)`: a bare callable is
      wrapped with the default filter and always_run = True. */
  function AsCheck(e: ProgramEntry): (c: Check)
    ensures e.Wrapped? ==> c == e.check
    ensures e.Bare? ==> c.impl == e.impl && c.filter == DefaultFilter && c.alwaysRun
  {
    match e
    case Wrapped(c) => c
    case Bare(f) => Check(f, DefaultFilter, true)
  }

  function AsChecks(program: seq<ProgramEntry>): (checks: seq<Check>)
    ensures |checks| == |program|
    ensures forall i :: 0 <= i < |program| ==> checks[i] == AsCheck(program[i])
  {
    seq(|program|, i requires 0 <= i < |program| => AsCheck(program[i]))
  }

  /** What applying filter_paths(...) to a function gives: a _Check, or the
      TypeError raised at decoration time. */
  datatype Definition = Defined(check: Check) | TypeError(message: string)

  /** filter_paths(endswith, exclude, always_run)(function). The defaults are
      endswith = '' (the string), exclude = () and always_run = False. */
  function FilterPaths(endswith: Strings, exclude: Strings, alwaysRun: bool,
                       impl: CheckFunction): (d: Definition)
    ensures d.Defined? <==> impl.arity == 1
    ensures d.Defined? ==> d.check.impl == impl && d.check.alwaysRun == alwaysRun
                           && d.check.filter == PathFilter(MakeTuple(endswith), MakeTuple(exclude))
  {
    if impl.arity != 1 then
      TypeError("Functions wrapped with @filter_paths must take exactly one argument: "
                + impl.name + " takes " + NatToString(impl.arity) + ".")
    else
      Defined(Check(impl, PathFilter(MakeTuple(endswith), MakeTuple(exclude)), alwaysRun))
  }

  /** filter_paths with its default endswith wraps a one-argument function
      in a check whose filter selects every path and which is not always-run. */
  lemma FilterPathsDefaults(impl: CheckFunction, paths: seq<Path>, fullMatch: Matcher)
    requires impl.arity == 1
    ensures var d := FilterPaths(OneString(""), ManyStrings([]), false, impl);
            d.Defined? && !d.check.alwaysRun && d.check.filter == DefaultFilter
            && Subset(d.check.filter, paths, fullMatch) == paths
  {
    DefaultFilterSelectsAll(paths, fullMatch);
  }

  /** A single suffix string is one suffix, not a tuple of characters:
      filter_paths(endswith='.h') selects a path iff its text ends with ".h"
      and no exclude pattern fully matches it. */
  lemma FilterPathsSingleSuffix(suffix: string, exclude: seq<string>, impl: CheckFunction,
                                path: Path, fullMatch: Matcher)
    requires impl.arity == 1
    ensures var d := FilterPaths(OneString(suffix), ManyStrings(exclude), false, impl);
            d.Defined? &&
            (Selects(d.check.filter, Str(path), fullMatch) <==>
               EndsWith(Str(path), suffix) && !FullyMatchesAny(Str(path), exclude, fullMatch))
  {
    var d := FilterPaths(OneString(suffix), ManyStrings(exclude), false, impl);
    assert d.check.filter.endswith == [suffix];
    if EndsWith(Str(path), suffix) {
      assert EndsWith(Str(path), d.check.filter.endswith[0]);
    }
  }
}
