/** The parts of pathlib.Path that tools.py relies on, for the relative
    paths a Presubmit is given (paths relative to the repository root). */
module Paths {
  import opened Text

  /** A path as its components: Path('src/a.py') has parts ["src", "a.py"];
      Path('.') has none. */
  datatype Path = Path(parts: seq<string>)

  /** str(path) */
  function Str(p: Path): string {
    if p.parts == [] then "." else Join(p.parts, "/")
  }

  /** base.joinpath(p) for a relative p. */
  function JoinPath(base: Path, p: Path): (r: Path)
    ensures |r.parts| == |base.parts| + |p.parts|
    ensures r.parts[..|base.parts|] == base.parts && r.parts[|base.parts|..] == p.parts
  {
    Path(base.parts + p.parts)
  }

  /** base.joinpath(name) for a single component; joining '' leaves the path as it is. */
  function Child(base: Path, name: string): Path {
    if name == "" then base else Path(base.parts + [name])
  }

  /** path.name */
  function Name(p: Path): string {
    if p.parts == [] then "" else p.parts[|p.parts| - 1]
  }

  /** str.rfind(c): the last position of `c` in `s`, or -1. */
  function RFind(s: string, c: char): (i: int)
    ensures -1 <= i < |s|
    ensures i >= 0 ==> s[i] == c
    ensures forall k :: i < k < |s| ==> s[k] != c
  {
    if s == [] then -1
    else if s[|s| - 1] == c then |s| - 1
    else RFind(s[..|s| - 1], c)
  }

  /** Position i holds the last dot of s. */
  ghost predicate LastDot(s: string, i: int)
    requires 0 <= i < |s|
  {
    forall k :: i < k < |s| ==> s[k] != '.'
  }

  /** path.suffix: from the last dot of the name on, provided that dot is
      neither the name's first nor its last character; otherwise ''. */
  function Suffix(p: Path): (r: string)
    ensures r != "" ==> |r| >= 2 && r[0] == '.' && '.' !in r[1..]
                        && |r| < |Name(p)| && EndsWith(Name(p), r)
    ensures r != "" <==> exists i :: 0 < i < |Name(p)| - 1 && Name(p)[i] == '.' && LastDot(Name(p), i)
  {
    var name := Name(p);
    var i := RFind(name, '.');
    if 0 < i < |name| - 1 then name[i..] else ""
  }

  lemma SuffixExamples()
    ensures Suffix(Path(["src", "a.py"])) == ".py"
    ensures Suffix(Path(["a.tar.gz"])) == ".gz"
    ensures Suffix(Path([".bashrc"])) == ""
    ensures Suffix(Path(["Makefile"])) == ""
    ensures Suffix(Path(["a."])) == ""
    ensures Suffix(Path(["a.b."])) == ""
  {
    assert RFind("a.py", '.') == 1;
    assert RFind("a.tar.gz", '.') == 5;
    var b := ".bashrc";
    assert b[0] == '.' && forall k :: 0 < k < |b| ==> b[k] != '.';
    assert RFind("a.", '.') == 1;
    assert RFind("a.b.", '.') == 3;
  }

  /** path.parents[max(len(path.parents) - levels, 0)] for a relative path
      with at least one part: the first levels - 1 components, or the whole
      parent when the path is shallower than that. */
  function Ancestor(p: Path, levels: int): (r: Path)
    requires |p.parts| >= 1 && levels >= 1
    ensures |r.parts| == if levels - 1 < |p.parts| - 1 then levels - 1 else |p.parts| - 1
    ensures r.parts == p.parts[..|r.parts|]
  {
    // parents[j] of a relative path with k parts is its first k - 1 - j parts.
    var k := |p.parts|;
    var j := if k - levels > 0 then k - levels else 0;
    Path(p.parts[..k - 1 - j])
  }

  // ---- ordering of paths, as sorted() compares them ------------------------

  /** Python's string comparison a <= b: code points, lexicographically. */
  predicate StrLe(a: string, b: string) {
    a == [] || (b != [] && (a[0] < b[0] || (a[0] == b[0] && StrLe(a[1..], b[1..]))))
  }

  /** PurePosixPath comparison a <= b: the lists of parts, lexicographically. */
  predicate PartsLe(a: seq<string>, b: seq<string>) {
    a == [] || (b != [] && ((StrLe(a[0], b[0]) && a[0] != b[0]) || (a[0] == b[0] && PartsLe(a[1..], b[1..]))))
  }

  lemma {:induction false} StrLeTotal(a: string, b: string)
    ensures StrLe(a, b) || StrLe(b, a)
  {
    if a != [] && b != [] && a[0] == b[0] {
      StrLeTotal(a[1..], b[1..]);
    }
  }

  lemma {:induction false} StrLeAntisymmetric(a: string, b: string)
    requires StrLe(a, b) && StrLe(b, a)
    ensures a == b
  {
    if a != [] && b != [] {
      StrLeAntisymmetric(a[1..], b[1..]);
      assert a == [a[0]] + a[1..] && b == [b[0]] + b[1..];
    }
  }

  lemma {:induction false} StrLeTransitive(a: string, b: string, c: string)
    requires StrLe(a, b) && StrLe(b, c)
    ensures StrLe(a, c)
  {
    if a != [] && b != [] && c != [] && a[0] == b[0] && b[0] == c[0] {
      StrLeTransitive(a[1..], b[1..], c[1..]);
    }
  }

  lemma {:induction false} PartsLeTotal(a: seq<string>, b: seq<string>)
    ensures PartsLe(a, b) || PartsLe(b, a)
  {
    if a != [] && b != [] {
      if a[0] == b[0] {
        PartsLeTotal(a[1..], b[1..]);
      } else {
        StrLeTotal(a[0], b[0]);
      }
    }
  }

  lemma {:induction false} PartsLeTransitive(a: seq<string>, b: seq<string>, c: seq<string>)
    requires PartsLe(a, b) && PartsLe(b, c)
    ensures PartsLe(a, c)
  {
    if a != [] && b != [] && c != [] {
      if a[0] == b[0] && b[0] == c[0] {
        PartsLeTransitive(a[1..], b[1..], c[1..]);
      } else if a[0] == b[0] || b[0] == c[0] {
      } else {
        StrLeTransitive(a[0], b[0], c[0]);
        if a[0] == c[0] {
          StrLeAntisymmetric(a[0], b[0]);
        }
      }
    }
  }
}
