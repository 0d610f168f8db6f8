# Presubmit check filtering and orchestration (pw_presubmit `tools.py`)

This project models the core of Pigweed's presubmit runner in Dafny and
proves properties about that model. The runner takes a *program*, which is
a sequence of checks. Each check is either a bare callable or a `_Check`
that carries a path filter and an `always_run` flag. The runner does four
things:

- **Filter resolution.** It works out which checks run, and on which of
  the repository's paths (`_apply_filters`, `_map_checks_to_paths`).
- **Execution.** It runs the surviving checks in order. It stops on a
  cancel, and on a failure unless `keep_going` is set
  (`Presubmit._execute_checks`, `_Check._call_function`).
- **Reporting.** It reports a verdict and a one-line summary
  (`Presubmit._log_summary`, `Presubmit.run`).
- **File summary.** It prints a per-directory summary of the files under
  review (`file_summary`).

The small helpers are modelled too: `plural`, `_Result`,
`PresubmitFailure`, `_PathFilter`, `_make_tuple`, the `filter_paths`
decorator, and the log-directory name sanitiser of `Presubmit._context`.

## Modules

- `text.dfy` (`Text`): ASCII character classes, lower-casing, `str.ljust`,
  decimal rendering of naturals and its inverse, and `plural`.
- `seqs.dfy` (`Seqs`): order-preserving filtering, sums over sequences,
  and the stable sort used for Python's `sorted` and `Counter.most_common`.
- `paths.dfy` (`Paths`): relative paths as part lists, `str(path)`,
  `joinpath`, `path.suffix`, `path.parents[...]` and path ordering.
- `filters.dfy` (`Filters`): `_PathFilter`, `_make_tuple`, and the path
  selection condition.
- `checks.dfy` (`Checks`): `_Result`, `PresubmitFailure`, `_Check`,
  `_call_function` and `filter_paths`.
- `resolver.dfy` (`Resolver`): `_apply_filters` and
  `_map_checks_to_paths`. Both are imperative methods, proved equal to a
  check-by-check reference function `Resolve`.
- `presubmit.dfy` (`Presubmit`): the name sanitiser, the per-check context,
  `_execute_checks` (a loop with early exit, proved against the
  specification functions `RunLength`/`Passed`/`Failed`/`Skipped`),
  `_log_summary` and `run`.
- `summary.dfy` (`Summary`): `file_summary`. It is written as a method
  with the source's two loops (counting, then formatting) and the
  condensing step between them, and is proved equal to the function
  `SummaryLines`. The lemmas about that function give the properties.

## How the environment is modelled

- **Check functions.** A check's function is opaque. What matters is how
  the call ends, so an oracle sequence of `Behaviour` values (one per
  check of the resolved program) stands for it: returns, raises
  `PresubmitFailure`, raises another exception, or is interrupted.
  `_call_function` classifies each of these as PASS, FAIL or CANCEL.
- **Regular expressions.** `re.fullmatch` is a parameter
  `fullMatch(pattern, text)`.
- **Dictionaries and Counters.** `filter_to_checks` is a `map`. The
  iteration order of `filter_to_checks.items()` is left arbitrary
  (`:|`), and the result is proved independent of it. The dictionaries
  and Counters of `file_summary` are association lists in insertion
  order, which is the order Python's dicts keep.
- **Paths.** A `Path` is a list of parts. `str(path)` joins the parts
  with `/`; the empty list is `.`.
- **Checks.** Checks are values. Python compares `_Check` objects by
  identity; the model cannot tell two equal-valued checks apart, and
  `Resolve` gives such checks identical entries.
- **Counts.** The counts of `file_summary` are `nat`s. Python integers
  are unbounded too, so no wrap-around needs modelling.

A point where the code and the usual description differ: `skipped` is
often described as the number of checks that were never reached. The code
computes `len(program) - passed - failed` (tools.py:391), so a check that
is *cancelled* is counted as skipped even though it was started. The model
follows the code: `Presubmit.CancelEndsRun` proves `Skipped == |o| - k`
when the check at position `k` (0-based) is cancelled.

## Model

| member | source | states |
|---|---|---|
| Text.Plural | pw_presubmit/py/pw_presubmit/tools.py:66-80 | the text starts with the count in decimal and a space; when the count is 1 it is exactly "<n> <singular>"; for any other count it is longer than that |
| Text.PluralForms | pw_presubmit/py/pw_presubmit/tools.py:76-80 | for counts other than 1: a word in -y becomes -ies, otherwise a word in -s takes -es, and any other word takes -s |
| Text.PluralCountRecoverable | pw_presubmit/py/pw_presubmit/tools.py:74 | the count can be read back from the leading digits of the text |
| Text.PluralInjectiveInCount | pw_presubmit/py/pw_presubmit/tools.py:66-80 | two different counts never give the same text for the same word |
| Text.NatToString | pw_presubmit/py/pw_presubmit/tools.py:74 | f'{count}' is a non-empty string of digits with no leading zero |
| Text.ParseNatToString | pw_presubmit/py/pw_presubmit/tools.py:74 | reading the decimal text back gives the number (round trip) |
| Text.NatToStringInjective | pw_presubmit/py/pw_presubmit/tools.py:74 | different numbers render differently |
| Text.LJust | pw_presubmit/py/pw_presubmit/tools.py:282 | str.ljust keeps the text as a prefix, pads with the pad character and has length max(width, len) |
| Text.Lower | pw_presubmit/py/pw_presubmit/tools.py:352 | str.lower keeps the length, turns each upper-case ASCII letter into its own lower-case letter (code point + 32) and leaves every other character as it is |
| Paths.Suffix | pw_presubmit/py/pw_presubmit/tools.py:251 | path.suffix is non-empty iff the last dot of the name is neither its first nor its last character; then it is the name from that dot on: a dot followed by no other dot, shorter than the name |
| Paths.SuffixExamples | pw_presubmit/py/pw_presubmit/tools.py:251 | ".py" for a.py, ".gz" for a.tar.gz, and "" for .bashrc, Makefile, a. and a.b. |
| Paths.Ancestor | pw_presubmit/py/pw_presubmit/tools.py:250 | path.parents[max(len(path.parents) - levels, 0)] is the prefix of the path's first min(levels - 1, len(parts) - 1) parts |
| Paths.JoinPath | pw_presubmit/py/pw_presubmit/tools.py:378 | joinpath gives the root's parts followed by the path's parts |
| Paths.PartsLeTotal | pw_presubmit/py/pw_presubmit/tools.py:257 | the path order used by sorted() is total |
| Paths.PartsLeTransitive | pw_presubmit/py/pw_presubmit/tools.py:257 | the path order used by sorted() is transitive |
| Paths.StrLeTotal | pw_presubmit/py/pw_presubmit/tools.py:257 | the string order on path parts is total |
| Paths.StrLeAntisymmetric | pw_presubmit/py/pw_presubmit/tools.py:257 | the string order on path parts is antisymmetric |
| Paths.StrLeTransitive | pw_presubmit/py/pw_presubmit/tools.py:257 | the string order on path parts is transitive |
| Filters.MakeTuple | pw_presubmit/py/pw_presubmit/tools.py:622-623 | a single string becomes a one-element tuple, not a tuple of its characters; any other iterable is kept as given |
| Filters.Subset | pw_presubmit/py/pw_presubmit/tools.py:416-420 | filtered_paths keeps, in input order, the paths that the filter selects; never more than the input (membership and order are stated by SubsetSelects) |
| Filters.SubsetSelects | pw_presubmit/py/pw_presubmit/tools.py:416-420 | a path is in a filter's subset iff its text ends with some suffix and fully matches no exclude pattern; the subset is the selected paths at strictly increasing input positions |
| Filters.DefaultFilterSelectsAll | pw_presubmit/py/pw_presubmit/tools.py:559-561 | the default filter (endswith ('',), no excludes) selects every path, in order |
| Filters.NoSuffixSelectsNothing | pw_presubmit/py/pw_presubmit/tools.py:418-419 | an empty endswith tuple selects nothing (any() of nothing is false) |
| Filters.HeaderSuffixExample | pw_presubmit/py/pw_presubmit/tools.py:416-420 | suffix matching is case-sensitive: ('.h',) over a.h, b.c, c.H selects a.h only |
| Filters.ExcludeExample | pw_presubmit/py/pw_presubmit/tools.py:419-420 | a path whose text an exclude pattern fully matches is dropped, and the others are kept |
| Checks.CallFunction | pw_presubmit/py/pw_presubmit/tools.py:605-619 | PASS iff the function returns; CANCEL iff it is interrupted; FAIL iff it raises PresubmitFailure or any other Exception |
| Checks.FailureText | pw_presubmit/py/pw_presubmit/tools.py:206 | str(PresubmitFailure): exactly the description with no path; with a path, str(path), then ": ", then the description, and nothing else |
| Checks.FailureWarning | pw_presubmit/py/pw_presubmit/tools.py:608-610 | a warning is logged only for a PresubmitFailure, its text is exactly str(failure), and it is logged whenever that text is non-empty |
| Checks.FailureWarningWhen | pw_presubmit/py/pw_presubmit/tools.py:203-206 | a PresubmitFailure is logged iff it names a path or has a non-empty description |
| Checks.AsCheck | pw_presubmit/py/pw_presubmit/tools.py:570-576 | a bare callable is wrapped with the default filter and always_run = True; a _Check is taken as it is |
| Checks.AsChecks | pw_presubmit/py/pw_presubmit/tools.py:398 | the wrapped program has one check per entry, in program order |
| Checks.FilterPaths | pw_presubmit/py/pw_presubmit/tools.py:626-648 | decoration succeeds iff the function takes exactly one argument; the check then wraps it, with the given always_run and a filter built by _make_tuple from both arguments |
| Checks.FilterPathsDefaults | pw_presubmit/py/pw_presubmit/tools.py:626-628 | with its defaults, filter_paths gives a check that is not always-run and whose filter is the default, which selects every path |
| Checks.FilterPathsSingleSuffix | pw_presubmit/py/pw_presubmit/tools.py:645 | filter_paths(endswith='.h') selects exactly the paths ending in '.h' that no exclude pattern matches |
| Resolver.Attach | pw_presubmit/py/pw_presubmit/tools.py:405 | each check is paired with the subset its own filter selects |
| Resolver.ResolveKeepsOrder | pw_presubmit/py/pw_presubmit/tools.py:422-426 | a check is dropped iff its subset is empty and it is not always-run; the survivors keep program order, each with the subset of its own filter |
| Resolver.EqualFiltersEqualSubsets | pw_presubmit/py/pw_presubmit/tools.py:399-405 | two surviving checks with equal filters receive identical path subsets |
| Resolver.BareEntriesRun | pw_presubmit/py/pw_presubmit/tools.py:398 | a bare callable in the program always survives and receives every path |
| Resolver.NoPathsLeavesAlwaysRun | pw_presubmit/py/pw_presubmit/tools.py:422-426 | with no paths, exactly the always-run checks survive, in order, each with an empty path list |
| Resolver.PairsResolve | pw_presubmit/py/pw_presubmit/tools.py:405 | the list comprehension over a check-to-paths map that holds exactly the surviving checks is the reference resolution |
| Resolver.MapChecksToPaths | pw_presubmit/py/pw_presubmit/tools.py:408-428 | whatever order the filters are visited in, a check is in the result iff it is listed under its own filter and that filter's subset is non-empty or the check is always-run; each such check maps to its filter's subset |
| Resolver.ApplyFilters | pw_presubmit/py/pw_presubmit/tools.py:394-405 | grouping by filter is not observable: the result equals the check-by-check reference Resolve |
| Presubmit.DropSeparators | pw_presubmit/py/pw_presubmit/tools.py:352 | stripping a leading separator run leaves a string no longer than the input that is empty or starts with a letter or digit |
| Presubmit.DropSeparatorsSuffix | pw_presubmit/py/pw_presubmit/tools.py:352 | what a leading separator run leaves is a suffix of the input, and every character before it is a separator |
| Presubmit.CollapseSeparators | pw_presubmit/py/pw_presubmit/tools.py:352 | re.sub(r'[\W_]+', '_', name): each maximal run of separators becomes one '_' (characterised by CollapseShape, CollapseFixed and SeparatorRunCollapses) |
| Presubmit.CollapseShape | pw_presubmit/py/pw_presubmit/tools.py:352 | re.sub(r'[\W_]+', '_', name) gives only letters, digits and '_', never two '_' in a row, is empty iff the name is, and starts with '_' exactly where the name starts with a separator |
| Presubmit.SanitizedName | pw_presubmit/py/pw_presubmit/tools.py:352 | the sanitised name: the collapsed name, lower-cased (characterised by SanitizedNameShape, SanitizedNameKeepsAlnums, SanitizedNameIdempotent and SanitizedNameExample) |
| Presubmit.SanitizedNameShape | pw_presubmit/py/pw_presubmit/tools.py:352 | the sanitised name has only lower-case letters, digits and '_', never two '_' in a row, and is empty iff the name is |
| Presubmit.CollapseFixed | pw_presubmit/py/pw_presubmit/tools.py:352 | the substitution leaves unchanged a string already made of letters, digits and single underscores |
| Presubmit.SanitizedNameIdempotent | pw_presubmit/py/pw_presubmit/tools.py:352 | sanitising twice gives the same name as sanitising once |
| Presubmit.SanitizedNameKeepsAlnums | pw_presubmit/py/pw_presubmit/tools.py:352 | the letters and digits of the name survive in order, lower-cased; nothing else survives |
| Presubmit.SeparatorRunCollapses | pw_presubmit/py/pw_presubmit/tools.py:352 | a word followed by a maximal run of separators becomes the lower-cased word and a single '_' |
| Presubmit.SanitizedNameExample | pw_presubmit/py/pw_presubmit/tools.py:352 | "My Check!!2" is sanitised to "my_check_2" |
| Presubmit.CheckOutputDirectoryIsChild | pw_presubmit/py/pw_presubmit/tools.py:352-353 | a check's log directory is a direct child of the output directory, named by a single path part |
| Presubmit.MakeContext | pw_presubmit/py/pw_presubmit/tools.py:363-367 | PresubmitContext gets the Presubmit's repository root, the check's own log directory (the output directory joined with the sanitised name), and the check's paths joined onto the repository root, one for one |
| Presubmit.Outcomes | pw_presubmit/py/pw_presubmit/tools.py:380 | each check's outcome is its function's behaviour as _call_function classifies it |
| Presubmit.RunLength | pw_presubmit/py/pw_presubmit/tools.py:382-389 | how many checks the loop reaches: one past the first CANCEL, or the first FAIL without keep_going, or all of them; never more than the program (characterised by RunLengthFirstStop) |
| Presubmit.Passed | pw_presubmit/py/pw_presubmit/tools.py:382-383 | the number of PASS outcomes among the reached checks |
| Presubmit.Failed | pw_presubmit/py/pw_presubmit/tools.py:386-387 | the number of FAIL outcomes among the reached checks |
| Presubmit.Skipped | pw_presubmit/py/pw_presubmit/tools.py:391 | len(program) - passed - failed (non-negative by CountsAddUp) |
| Presubmit.Invocations | pw_presubmit/py/pw_presubmit/tools.py:377-380 | the first n checks give exactly n invocations |
| Presubmit.InvocationsAt | pw_presubmit/py/pw_presubmit/tools.py:377-380 | the j-th invocation is the call of check j: numbered j + 1 of len(program), with the check's name and its context |
| Presubmit.ExecuteChecks | pw_presubmit/py/pw_presubmit/tools.py:372-391 | the loop counts passed and failed as the run specification says, returns skipped = len(program) - passed - failed, and invokes exactly the checks up to the one that stops the run, in order |
| Presubmit.CountsAddUp | pw_presubmit/py/pw_presubmit/tools.py:391 | passed + failed + skipped == len(program), with skipped non-negative |
| Presubmit.RunLengthFirstStop | pw_presubmit/py/pw_presubmit/tools.py:382-389 | the run ends at the first stopping outcome, or at the end of the program; a non-empty program runs at least one check |
| Presubmit.CancelEndsRun | pw_presubmit/py/pw_presubmit/tools.py:384-385 | a CANCEL ends the run whatever keep_going is, and the cancelled check counts as skipped |
| Presubmit.FailEndsRunUnlessKeepGoing | pw_presubmit/py/pw_presubmit/tools.py:386-389 | after a FAIL the run goes on iff keep_going is set and checks remain |
| Presubmit.PassContinuesRun | pw_presubmit/py/pw_presubmit/tools.py:382-383 | after a PASS the run goes on iff checks remain |
| Presubmit.RunGoesPast | pw_presubmit/py/pw_presubmit/tools.py:382-389 | the run goes past a reached check iff that check does not stop it and checks remain |
| Presubmit.PassFailPrefix | pw_presubmit/py/pw_presubmit/tools.py:382-389 | every check before the stopping one has passed or failed |
| Presubmit.KeepGoingRunsAll | pw_presubmit/py/pw_presubmit/tools.py:377-391 | with keep_going and no CANCEL, every check runs and skipped is 0 |
| Presubmit.SuccessIffAllPass | pw_presubmit/py/pw_presubmit/tools.py:321 | failed == 0 and skipped == 0 iff every check's outcome is PASS |
| Presubmit.SuccessIffAllReturn | pw_presubmit/py/pw_presubmit/tools.py:321 | failed == 0 and skipped == 0 iff every check function returned normally (no failure, error or interrupt) |
| Presubmit.FailFastExample | pw_presubmit/py/pw_presubmit/tools.py:386-391 | PASS, FAIL, PASS gives 1/1/1 without keep_going and 2/1/0 with it |
| Presubmit.JoinStartsWithFirst | pw_presubmit/py/pw_presubmit/tools.py:332 | joining non-empty items gives a non-empty text, which never falls back to 'nothing was done' |
| Presubmit.LogSummary | pw_presubmit/py/pw_presubmit/tools.py:323-345 | the verdict is FAIL iff failed or skipped is non-zero; total is the sum of the counts; the text is 'nothing was done' iff all counts are zero and otherwise the joined items; plus the summary line's text |
| Presubmit.Run | pw_presubmit/py/pw_presubmit/tools.py:296-321 | run reports success iff nothing failed and nothing was skipped, iff every executed function returned, iff the verdict is PASS; it prints the file summary with its defaults, and invokes the resolved checks up to the first stop; the summary line reads "<total> checks on <plural of files>: <summary>", built from the run's passed, failed and skipped counts |
| Presubmit.RunProgram | pw_presubmit/py/pw_presubmit/tools.py:316-321 | after the file summary: success iff nothing failed and nothing was skipped, iff every executed function returned, iff the verdict is PASS; the calls are those of the resolved checks up to the first stop; the summary line is built from the run's own passed, failed and skipped counts |
| Presubmit.ReportRun | pw_presubmit/py/pw_presubmit/tools.py:323-345 | for the counts of a run: the verdict is FAIL iff failed or skipped is non-zero, and the summary line is '<total> checks on <plural of files>: <summary>' with the run's counts, the summary being 'nothing was done' or the joined items |
| Summary.IncrementByCounts | pw_presubmit/py/pw_presubmit/tools.py:251 | counter[key] += n adds n to that key and to the total and leaves every other key alone |
| Summary.AddTotal | pw_presubmit/py/pw_presubmit/tools.py:259 | adding Counters adds their totals |
| Summary.Add | pw_presubmit/py/pw_presubmit/tools.py:259 | Counter addition: each item of the second counter is added in turn, so existing keys keep their place and new keys go last (stated by AddGet and AddTotal) |
| Summary.AddGet | pw_presubmit/py/pw_presubmit/tools.py:259 | Counter addition is key by key: each key's count in c + d is its count in c plus its count in d |
| Summary.SumCountersGet | pw_presubmit/py/pw_presubmit/tools.py:259 | sum(counters, Counter()) gives each suffix the sum of its counts over the summed counters |
| Summary.OthersRowCounts | pw_presubmit/py/pw_presubmit/tools.py:254-259 | the "(N others)" row counts, for each suffix, the files with that suffix in all condensed directories |
| Summary.DeleteCounts | pw_presubmit/py/pw_presubmit/tools.py:270 | del files[''] lowers the total by that key's count, leaves no item with that key, and keeps the keys distinct and the counts positive |
| Summary.DeleteKeepsOthers | pw_presubmit/py/pw_presubmit/tools.py:270 | deleting a missing key leaves the counter unchanged; deleting a present one removes that single item, keeps every other item in order, and leaves every other key's count as it was |
| Summary.Delete | pw_presubmit/py/pw_presubmit/tools.py:270 | del counter[k] removes the item with that key; Counter ignores a missing key (stated by DeleteCounts and DeleteKeepsOthers) |
| Summary.CountByDirectory | pw_presubmit/py/pw_presubmit/tools.py:247-251 | the counting loop builds the directory-to-suffix-counter table of the specification function Group |
| Summary.GroupCounts | pw_presubmit/py/pw_presubmit/tools.py:247-251 | a directory has an entry iff some path falls under it, and each entry counts exactly the paths of each suffix under it |
| Summary.GroupTotalIsPathCount | pw_presubmit/py/pw_presubmit/tools.py:247-251 | the counters together count every path exactly once |
| Summary.Group | pw_presubmit/py/pw_presubmit/tools.py:247-251 | the table of the counting loop: all_counts[parent][suffix] += 1 for each path in order (characterised by GroupCounts) |
| Summary.SliceStop | pw_presubmit/py/pw_presubmit/tools.py:257 | the slice counts[:max_lines - 1] follows Python's rules, including a negative stop |
| Summary.Rows | pw_presubmit/py/pw_presubmit/tools.py:253-261 | the rows before formatting: all directories sorted by path, or the max_lines - 1 largest sorted by path plus one "(N others)" row (characterised by RowCount, CondensedAreSmallest, UncondensedRows and OthersRowCounts) |
| Summary.RowCount | pw_presubmit/py/pw_presubmit/tools.py:253-261 | there is one row per directory when they fit, and otherwise max_lines rows (with max_lines >= 1), the last for the others |
| Summary.CondensedAreSmallest | pw_presubmit/py/pw_presubmit/tools.py:254-259 | when condensed, the kept directories and the others together are all the directories; every kept directory has at least as many files as every condensed one; the kept ones are sorted by path; the last row is "(N others)" with their summed counter |
| Summary.UncondensedRows | pw_presubmit/py/pw_presubmit/tools.py:260-261 | otherwise the rows are all the directories, sorted by path |
| Summary.RowsKeepEveryFile | pw_presubmit/py/pw_presubmit/tools.py:253-261 | condensing loses no files: the row totals add up to the directory totals |
| Summary.TableCountsEveryPath | pw_presubmit/py/pw_presubmit/tools.py:247-261 | the row totals add up to the number of paths |
| Summary.RowCountersWellFormed | pw_presubmit/py/pw_presubmit/tools.py:247-261 | every row's counter has distinct keys and no zero count, the "others" row included |
| Summary.LabelWidthIsMax | pw_presubmit/py/pw_presubmit/tools.py:263 | the width is the longest label plus the separator, or 0 when there are no rows |
| Summary.MostCommon | pw_presubmit/py/pw_presubmit/tools.py:273 | most_common(n) returns exactly min(n, len) entries, and none for n <= 0 |
| Summary.ExtensionItemsAccount | pw_presubmit/py/pw_presubmit/tools.py:269-278 | the shown suffixes are the first min(max_types, number of named suffixes) entries of the counter sorted by count, so no hidden suffix is more common than a shown one, and none is ''; one more item follows iff they leave files uncounted, and it is ('other', the rest); every count is positive and the counts add up to the row's total |
| Summary.FormatRow | pw_presubmit/py/pw_presubmit/tools.py:269-283 | one output line is computed as the specification function Line says |
| Summary.FormatRows | pw_presubmit/py/pw_presubmit/tools.py:266-285 | the output loop produces one line per row, in order |
| Summary.LinesOfAt | pw_presubmit/py/pw_presubmit/tools.py:268-283 | the i-th line is the formatted i-th row |
| Summary.Line | pw_presubmit/py/pw_presubmit/tools.py:268-283 | one output line: the padded root, pad_end, the file count and the types (laid out as LineLayout states) |
| Summary.LineLayout | pw_presubmit/py/pw_presubmit/tools.py:282-283 | a line is the label, the separator and pad_start, then pad characters up to the width, then pad_end, "<n> file(s)" and the types |
| Summary.RootsAligned | pw_presubmit/py/pw_presubmit/tools.py:262-283 | every label fits the common width, so all counts start in the same column, and the widest label fills it exactly |
| Summary.SummaryLines | pw_presubmit/py/pw_presubmit/tools.py:237-285 | the lines of file_summary: Group, then Rows, then one Line per row at the common width (TableCountsEveryPath, RowCountersWellFormed and RootsAligned state what they hold) |
| Summary.FileSummary | pw_presubmit/py/pw_presubmit/tools.py:237-285 | file_summary returns the lines of the specification function SummaryLines |

## Left out

- Git and subprocess plumbing: listing files, diffs, repository discovery, `run_presubmit`, `call`, `log_run`, `find_python_packages`. These are external process I/O.
- Terminal rendering: colours, boxes and titles (`_make_color`, `_make_box`, `_title`, `_box`, `_Result.colorized`), and every `print`. The model returns the text of the file summary and of the summary line, not the boxes around them.
- Time: `time.time()` and `_format_time`, which are clocks and floating point.
- Logging: `_LOG` messages (except the warning of `_call_function`), the `logging.FileHandler` of `_context`, and the `os.makedirs` call. These are global logger state and filesystem writes.
- Argument parsing (`add_path_arguments`, `add_arguments`, `parse_args_and_run_presubmit`) and the sample check `pragma_once`, which reads files.
- The "No files are being checked!" message of `run`. It is a print only.
- `.absolute()` in `_context`: the model keeps paths as given, because resolving them needs the process's working directory.
- Checks.FilterPaths: `inspect.signature` is modelled as a parameter count carried with the function. The `TypeError` is a result value, not an exception.
- Filters.Subset: the regular-expression language is not modelled. `re.fullmatch` is a parameter, and an invalid pattern, which makes `re.compile` raise, is not modelled.
- Presubmit.SanitizedName: `\W` and `str.lower` use Unicode classes in Python. The model uses ASCII letters and digits, so a non-ASCII letter counts as a separator.
- Checks.CallFunction: a `BaseException` other than `KeyboardInterrupt` (for example `SystemExit`) would propagate out of the run. The model has no such behaviour.
- Presubmit.Run: the printing inside `_Check.run` (boxes, timing) is left out; only the call and its classified outcome are modelled.
- Resolver.ApplyFilters: `_Check` objects are hashed by identity in Python; the model compares checks by value. Two equal-valued checks in one program therefore share one map entry, but they receive the same subset in both readings.
- Summary.FileSummary: requires `levels >= 1` and paths with at least one part. With `levels < 1`, `path.parents[len(path.parents) - levels]` raises `IndexError` for every path, and for `Path('.')` it raises for any `levels`; the model does not cover that exception. `pad` is one character, since `str.ljust` demands that.
- Summary.Add: only Counters with positive counts are modelled. Python's `Counter` addition drops non-positive results, and `file_summary` only ever builds positive counts.
- Summary.MostCommon: ties among equally common suffixes keep insertion order. This relies on Python's `most_common` being a stable sort, which the model states as a stable insertion sort. The model does not prove the sort stable. The same holds for the sort by decreasing size that picks the directories to condense (Summary.BySize, tools.py:255-256): among directories with equally many files, the ones seen first keep their rows, as with Python's stable `sorted`.
- Presubmit.ExecuteChecks: the outcome oracle stands for the checks' functions. What the functions do with their context, apart from how they end, is not modelled.
- The time argument of `_log_summary`, the "Running N of M checks" log line and the debug listings are logging only.
- Text.Plural: takes the count itself. Where the source passes a collection (`plural(self._paths, 'file')`, `plural(others, 'other')`), the model passes its length, as `len(items_or_count)` gives. The `count_format` argument is left out; no call in the modelled code passes one.
- Checks.FailureText: the path of a PresubmitFailure is an `Option<Path>`. Python tests it with `if path`, so a falsy value other than `None` (such as `path=''`) would be treated like no path; the model cannot express such a value.
- `os.sep` is `/` throughout (Paths.Str, Summary.Root, Summary.LabelWidth): the model is of a POSIX system.
