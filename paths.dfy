/**
 * The part of Python's `pathlib.PurePosixPath` the backend relies on: a path
 * is an optional root `/` and a list of parts; `name`, `suffix`,
 * `is_absolute()`, `str()` and the `/` join are computed from those.
 */
module Paths {
  import opened Strings

  /** A part as pathlib keeps it: not empty, not `.`, no slash. */
  predicate IsPart(s: string)
  {
    s != [] && s != "." && '/' !in s
  }

  /** The slash-separated segments pathlib keeps: empty and `.` segments are dropped. */
  function KeepParts(segments: seq<string>): (r: seq<string>)
    ensures |r| <= |segments|
    ensures forall i :: 0 <= i < |r| ==> r[i] != [] && r[i] != "."
    ensures (forall i :: 0 <= i < |segments| ==> '/' !in segments[i]) ==> forall i :: 0 <= i < |r| ==> IsPart(r[i])
  {
    if segments == [] then []
    else if segments[0] == [] || segments[0] == "." then KeepParts(segments[1..])
    else [segments[0]] + KeepParts(segments[1..])
  }

  /** Segments that are all parts already are kept as they are. */
  lemma {:induction false} KeepPartsFixpoint(ps: seq<string>)
    requires forall i {:trigger ps[i]} :: 0 <= i < |ps| ==> IsPart(ps[i])
    ensures KeepParts(ps) == ps
  {
    if ps != [] {
      KeepPartsFixpoint(ps[1..]);
    }
  }

  /** Dropping segments works segment by segment. */
  lemma {:induction false} KeepPartsAppend(a: seq<string>, b: seq<string>)
    ensures KeepParts(a + b) == KeepParts(a) + KeepParts(b)
  {
    if a == [] {
      assert a + b == b;
    } else {
      assert (a + b)[0] == a[0] && (a + b)[1..] == a[1..] + b;
      KeepPartsAppend(a[1..], b);
    }
  }

  /** `PurePosixPath(p).parts` without the root. */
  function Parts(p: string): (r: seq<string>)
    ensures forall i :: 0 <= i < |r| ==> IsPart(r[i])
  {
    KeepParts(Split(p, '/'))
  }

  /** `PurePosixPath(p).is_absolute()`. */
  predicate IsAbsolute(p: string)
  {
    |p| > 0 && p[0] == '/'
  }

  /** `str()` of the path with the given root and parts; the empty relative path prints as `.`. */
  function Format(absolute: bool, parts: seq<string>): (r: string)
    requires forall i {:trigger parts[i]} :: 0 <= i < |parts| ==> IsPart(parts[i])
    ensures r != []
    ensures IsAbsolute(r) == absolute
  {
    if !absolute && parts == [] then "."
    else
      var body := Join(parts, '/');
      assert parts != [] ==> IsPart(parts[0]) && StartsWith(body, parts[0]) && body[0] == parts[0][0];
      if absolute then "/" + body else body
  }

  /** `str(PurePosixPath(p))`: the path with empty and `.` segments removed. */
  function Render(p: string): (r: string)
    ensures r != []
    ensures IsAbsolute(r) == IsAbsolute(p)
  {
    Format(IsAbsolute(p), Parts(p))
  }

  /** Printing a path and reading it back gives the same parts. */
  lemma PartsOfFormat(absolute: bool, parts: seq<string>)
    requires forall i {:trigger parts[i]} :: 0 <= i < |parts| ==> IsPart(parts[i])
    ensures Parts(Format(absolute, parts)) == parts
  {
    if parts == [] {
      if absolute {
        assert Format(absolute, parts) == "/";
        RootHasNoParts();
      } else {
        DotHasNoParts();
      }
    } else {
      var body := Join(parts, '/');
      SplitJoin(parts, '/');
      if absolute {
        assert Format(absolute, parts) == [] + ['/'] + body;
        SplitAtSep([], body, '/');
        KeepPartsAppend([[]], parts);
      }
      KeepPartsFixpoint(parts);
    }
  }

  /** The empty relative path `.` has no parts. */
  lemma DotHasNoParts()
    ensures Parts(".") == []
  {
    SplitWithoutSep(".", '/');
  }

  /** The root `/` has no parts. */
  lemma RootHasNoParts()
    ensures Parts("/") == []
  {
    assert "/" == [] + ['/'] + [];
    SplitAtSep([], [], '/');
    assert KeepParts([[], []]) == KeepParts([[]]) == [];
  }

  /** Printing a path is normalising: printing the printed path changes nothing. */
  lemma RenderIdempotent(p: string)
    ensures Render(Render(p)) == Render(p)
  {
    PartsOfFormat(IsAbsolute(p), Parts(p));
  }

  /**
   * `str(PurePosixPath(dir) / rel)`: an absolute `rel` replaces `dir`,
   * a relative one is appended to its parts.
   */
  function JoinUnder(dir: string, rel: string): (r: string)
    ensures IsAbsolute(r) == (IsAbsolute(rel) || IsAbsolute(dir))
  {
    if IsAbsolute(rel) then Render(rel)
    else Format(IsAbsolute(dir), Parts(dir) + Parts(rel))
  }

  /** A relative path joined under `dir` lies inside `dir`: its parts are those of `dir`, then those of `rel`. */
  lemma JoinUnderParts(dir: string, rel: string)
    requires !IsAbsolute(rel)
    ensures Parts(JoinUnder(dir, rel)) == Parts(dir) + Parts(rel)
  {
    PartsOfFormat(IsAbsolute(dir), Parts(dir) + Parts(rel));
  }

  /** `PurePosixPath(p).name`: the last part, or `""` when there is none. */
  function Name(p: string): (r: string)
    ensures r == [] || IsPart(r)
  {
    var parts := Parts(p);
    if parts == [] then [] else parts[|parts| - 1]
  }

  /** A name written under a one-part directory: the path has exactly those two parts. */
  lemma PartsOfChild(dir: string, name: string)
    requires IsPart(dir) && IsPart(name)
    ensures Parts(dir + ['/'] + name) == [dir, name]
    ensures Name(dir + ['/'] + name) == name
  {
    SplitAtSep(dir, name, '/');
    SplitWithoutSep(dir, '/');
    SplitWithoutSep(name, '/');
    KeepPartsFixpoint([dir, name]);
  }

  /** `name.rfind(".")`: the index of the last dot, or -1. */
  function LastDot(name: string): (i: int)
    ensures -1 <= i < |name|
    ensures i >= 0 ==> name[i] == '.'
    ensures forall j :: i < j < |name| ==> name[j] != '.'
  {
    if name == [] then -1
    else if name[|name| - 1] == '.' then |name| - 1
    else LastDot(name[..|name| - 1])
  }

  /** The last dot is the one with no dot after it. */
  lemma LastDotAt(name: string, i: int)
    requires 0 <= i < |name| && name[i] == '.'
    requires forall j :: i < j < |name| ==> name[j] != '.'
    ensures LastDot(name) == i
  {
  }

  /**
   * `PurePosixPath(p).suffix`: from the last dot of the name to its end,
   * provided that dot is neither the first nor the last character of the name.
   */
  function Suffix(p: string): (r: string)
    ensures r == [] || (|r| >= 2 && r[0] == '.' && '.' !in r[1..] && '/' !in r)
    ensures r != [] ==> |r| < |Name(p)| && r == Name(p)[|Name(p)| - |r|..]
    ensures var n := Name(p); var i := LastDot(n);
      (0 < i < |n| - 1 ==> r == n[i..]) && (!(0 < i < |n| - 1) ==> r == [])
  {
    var name := Name(p);
    var i := LastDot(name);
    if 0 < i < |name| - 1 then name[i..] else []
  }

  /**
   * A file name made of a stem and an extension has that extension as its
   * suffix; the stem may itself contain dots.
   */
  lemma SuffixOfFileName(stem: string, ext: string)
    requires stem != [] && '/' !in stem
    requires |ext| >= 2 && ext[0] == '.' && '.' !in ext[1..] && '/' !in ext
    ensures Name(stem + ext) == stem + ext
    ensures Suffix(stem + ext) == ext
  {
    var name := stem + ext;
    forall i | 0 <= i < |name|
      ensures name[i] != '/'
      ensures i > |stem| ==> name[i] != '.'
    {
      if i < |stem| {
        assert name[i] in stem;
      } else {
        assert name[i] == ext[i - |stem|] && name[i] in ext;
        if i > |stem| {
          assert name[i] in ext[1..];
        }
      }
    }
    SplitWithoutSep(name, '/');
    KeepPartsFixpoint([name]);
    LastDotAt(name, |stem|);
    assert name[|stem|..] == ext;
  }
}
