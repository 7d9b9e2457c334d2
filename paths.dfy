/** POSIX path handling as Node's `path.join` and `path.normalize` do it, and the
    option store's `normalize(base, value)`: an absolute value is kept verbatim,
    a relative one is joined under `base`. */
module Paths {
  import Strings

  predicate IsAbsolute(p: string)
  {
    |p| > 0 && p[0] == '/'
  }

  predicate HasTrailingSeparator(p: string)
  {
    |p| > 0 && p[|p| - 1] == '/'
  }

  /** The '/'-separated segments of a path, empty ones included. */
  function Segments(p: string): seq<string>
  {
    Strings.SplitOn(p, '/')
  }

  /** A segment that normalization keeps as it is. */
  predicate IsName(s: string)
  {
    s != "" && s != "." && s != ".." && '/' !in s
  }

  /** A resolved segment stack: names, preceded (only for a relative path) by ".." segments. */
  predicate IsClean(stack: seq<string>, allowAboveRoot: bool)
  {
    forall i :: 0 <= i < |stack| ==>
      IsName(stack[i]) ||
      (allowAboveRoot && stack[i] == ".." && forall j :: 0 <= j < i ==> stack[j] == "..")
  }

  /** Resolves segments onto a stack left to right: empty and "." segments are dropped,
      ".." removes the last name, and when there is none it is kept (relative path)
      or dropped (an absolute path cannot go above "/"). */
  function Resolve(stack: seq<string>, segs: seq<string>, allowAboveRoot: bool): seq<string>
    decreases |segs|
  {
    if segs == [] then stack
    else
      var s, rest := segs[0], segs[1..];
      if s == "" || s == "." then Resolve(stack, rest, allowAboveRoot)
      else if s == ".." then
        if |stack| > 0 && stack[|stack| - 1] != ".." then Resolve(stack[..|stack| - 1], rest, allowAboveRoot)
        else if allowAboveRoot then Resolve(stack + [".."], rest, allowAboveRoot)
        else Resolve(stack, rest, allowAboveRoot)
      else Resolve(stack + [s], rest, allowAboveRoot)
  }

  /** Writes a resolved stack back as a path: "/" for an empty absolute path, "." (or
      "./" with a trailing separator) for an empty relative one. */
  function Render(absolute: bool, trailing: bool, stack: seq<string>): string
  {
    if stack == [] then (if absolute then "/" else if trailing then "./" else ".")
    else (if absolute then "/" else "") + Strings.JoinWith(stack, '/') + (if trailing then "/" else "")
  }

  /** Node's `path.normalize`. */
  function Normalize(p: string): (r: string)
    ensures IsAbsolute(p) ==> IsAbsolute(r)
  {
    var absolute := IsAbsolute(p);
    Render(absolute, HasTrailingSeparator(p), Resolve([], Segments(p), !absolute))
  }

  /** Node's `path.join` of two arguments: empty arguments are skipped. */
  function Join(a: string, b: string): (r: string)
    ensures IsAbsolute(a) ==> IsAbsolute(r)
  {
    if a == "" && b == "" then "."
    else if a == "" then Normalize(b)
    else if b == "" then Normalize(a)
    else Normalize(a + "/" + b)
  }

  /** The option store's `normalize(base, value)`. */
  function NormalizePath(base: string, value: string): (r: string)
    ensures IsAbsolute(value) ==> r == value
    ensures IsAbsolute(base) ==> IsAbsolute(r)
  {
    if IsAbsolute(value) then value else Join(base, value)
  }

  // ---------------------------------------------------------------------------
  // Segment resolution

  /** Resolving a concatenation is resolving its halves one after the other. */
  lemma {:induction false} ResolveAppend(stack: seq<string>, a: seq<string>, b: seq<string>, allowAboveRoot: bool)
    ensures Resolve(stack, a + b, allowAboveRoot) == Resolve(Resolve(stack, a, allowAboveRoot), b, allowAboveRoot)
    decreases |a|
  {
    if a != [] {
      assert (a + b)[0] == a[0];
      assert (a + b)[1..] == a[1..] + b;
      var s := a[0];
      if s == "" || s == "." {
        ResolveAppend(stack, a[1..], b, allowAboveRoot);
      } else if s == ".." {
        if |stack| > 0 && stack[|stack| - 1] != ".." {
          ResolveAppend(stack[..|stack| - 1], a[1..], b, allowAboveRoot);
        } else if allowAboveRoot {
          ResolveAppend(stack + [".."], a[1..], b, allowAboveRoot);
        } else {
          ResolveAppend(stack, a[1..], b, allowAboveRoot);
        }
      } else {
        ResolveAppend(stack + [s], a[1..], b, allowAboveRoot);
      }
    } else {
      assert a + b == b;
    }
  }

  /** Resolution keeps a stack clean. */
  lemma {:induction false} ResolveIsClean(stack: seq<string>, segs: seq<string>, allowAboveRoot: bool)
    requires IsClean(stack, allowAboveRoot)
    requires forall i :: 0 <= i < |segs| ==> '/' !in segs[i]
    ensures IsClean(Resolve(stack, segs, allowAboveRoot), allowAboveRoot)
    decreases |segs|
  {
    if segs != [] {
      var s, rest := segs[0], segs[1..];
      assert forall i :: 0 <= i < |rest| ==> '/' !in rest[i] by {
        forall i | 0 <= i < |rest| ensures '/' !in rest[i] { assert rest[i] == segs[i + 1]; }
      }
      if s == "" || s == "." {
        ResolveIsClean(stack, rest, allowAboveRoot);
      } else if s == ".." {
        if |stack| > 0 && stack[|stack| - 1] != ".." {
          ResolveIsClean(stack[..|stack| - 1], rest, allowAboveRoot);
        } else if allowAboveRoot {
          var next := stack + [".."];
          assert forall j :: 0 <= j < |stack| ==> stack[j] == ".." by {
            if |stack| > 0 {
              assert !IsName(stack[|stack| - 1]);
            }
          }
          assert IsClean(next, allowAboveRoot) by {
            forall i | 0 <= i < |next|
              ensures IsName(next[i]) || (next[i] == ".." && forall j :: 0 <= j < i ==> next[j] == "..")
            {
              if i < |stack| {
                assert next[i] == stack[i] == "..";
                assert forall j :: 0 <= j < i ==> next[j] == stack[j];
              }
            }
          }
          ResolveIsClean(next, rest, allowAboveRoot);
        } else {
          ResolveIsClean(stack, rest, allowAboveRoot);
        }
      } else {
        var next := stack + [s];
        assert IsName(s);
        assert IsClean(next, allowAboveRoot) by {
          forall i | 0 <= i < |next|
            ensures IsName(next[i]) || (allowAboveRoot && next[i] == ".." && forall j :: 0 <= j < i ==> next[j] == "..")
          {
            if i < |stack| {
              assert next[i] == stack[i];
              assert forall j :: 0 <= j < i ==> next[j] == stack[j];
            }
          }
        }
        ResolveIsClean(next, rest, allowAboveRoot);
      }
    }
  }

  /** A clean stack resolves to itself: normalization does nothing more to it. */
  lemma {:induction false} ResolveClean(stack: seq<string>, segs: seq<string>, allowAboveRoot: bool)
    requires IsClean(stack + segs, allowAboveRoot)
    ensures Resolve(stack, segs, allowAboveRoot) == stack + segs
    decreases |segs|
  {
    var whole := stack + segs;
    if segs == [] {
      assert whole == stack;
    } else {
      var s, rest := segs[0], segs[1..];
      assert whole[|stack|] == s;
      assert (stack + [s]) + rest == whole;
      if s == ".." {
        assert forall j :: 0 <= j < |stack| ==> whole[j] == "..";
        assert |stack| > 0 ==> stack[|stack| - 1] == whole[|stack| - 1];
      } else {
        assert IsName(s);
      }
      ResolveClean(stack + [s], rest, allowAboveRoot);
    }
  }

  /** The segments of a joined clean stack, with or without a trailing separator. */
  lemma BodySegments(stack: seq<string>, trailing: bool, allowAboveRoot: bool)
    requires stack != [] && IsClean(stack, allowAboveRoot)
    ensures var body := Strings.JoinWith(stack, '/') + (if trailing then "/" else "");
      Resolve([], Segments(body), allowAboveRoot) == stack
  {
    var body := Strings.JoinWith(stack, '/');
    assert forall i :: 0 <= i < |stack| ==> '/' !in stack[i];
    Strings.SplitJoin(stack, '/');
    ResolveClean([], stack, allowAboveRoot);
    assert [] + stack == stack;
    if trailing {
      Strings.SplitOnConcat(body, "", '/');
      assert body + ['/'] + "" == body + "/";
      ResolveAppend([], stack, [""], allowAboveRoot);
    } else {
      assert body + "" == body;
    }
  }

  /** The first and last characters of a joined clean stack are not separators. */
  lemma BodyEnds(stack: seq<string>, allowAboveRoot: bool)
    requires stack != [] && IsClean(stack, allowAboveRoot)
    ensures var body := Strings.JoinWith(stack, '/');
      body != "" && body[0] != '/' && body[|body| - 1] != '/'
  {
    Strings.JoinWithEnds(stack, '/');
    var first, last := stack[0], stack[|stack| - 1];
    assert last[|last| - 1] in last;
    assert first[0] in first;
  }

  /** The segments of a rendered non-empty stack give the stack back. */
  lemma RenderSegments(absolute: bool, trailing: bool, stack: seq<string>)
    requires stack != [] && IsClean(stack, !absolute)
    ensures var r := Render(absolute, trailing, stack);
      IsAbsolute(r) == absolute &&
      HasTrailingSeparator(r) == trailing &&
      Resolve([], Segments(r), !absolute) == stack
  {
    var body := Strings.JoinWith(stack, '/');
    var tail := if trailing then "/" else "";
    BodySegments(stack, trailing, !absolute);
    BodyEnds(stack, !absolute);
    var r := Render(absolute, trailing, stack);
    if absolute {
      assert r == "" + ['/'] + (body + tail);
      Strings.SplitOnConcat("", body + tail, '/');
      ResolveAppend([], [""], Segments(body + tail), false);
    } else {
      assert r == body + tail;
    }
    assert trailing ==> r[|r| - 1] == '/';
    assert !trailing ==> r[|r| - 1] == body[|body| - 1];
  }

  /** Normalizing keeps a path absolute or relative, and renormalizing resolves to the same stack. */
  lemma NormalizedSegments(p: string)
    ensures var n := Normalize(p); var absolute := IsAbsolute(p);
      IsAbsolute(n) == absolute &&
      Resolve([], Segments(n), !absolute) == Resolve([], Segments(p), !absolute) &&
      (Resolve([], Segments(p), !absolute) != [] || !absolute ==> HasTrailingSeparator(n) == HasTrailingSeparator(p))
  {
    var absolute := IsAbsolute(p);
    var stack := Resolve([], Segments(p), !absolute);
    Strings.SplitOnPiecesFree(p, '/');
    ResolveIsClean([], Segments(p), !absolute);
    if stack == [] {
      if absolute {
        assert Normalize(p) == "/";
        assert Segments("/") == [""] + [""];
      } else if HasTrailingSeparator(p) {
        assert Normalize(p) == "./";
        DotSegments("");
        assert "./" == "." + ['/'] + "";
      } else {
        assert Normalize(p) == ".";
        DotSegments("");
      }
    } else {
      RenderSegments(absolute, HasTrailingSeparator(p), stack);
    }
  }

  lemma DotSegments(b: string)
    ensures Segments(".") == ["."]
    ensures Segments("." + ['/'] + b) == ["."] + Segments(b)
  {
    assert '/' !in ".";
    Strings.SplitOnFree(".", '/');
    Strings.SplitOnConcat(".", b, '/');
  }

  // ---------------------------------------------------------------------------
  // Properties of normalization and joining

  /** Normalization is idempotent. */
  lemma NormalizeIdempotent(p: string)
    ensures Normalize(Normalize(p)) == Normalize(p)
  {
    NormalizedSegments(p);
  }

  /** Normalization keeps a path absolute exactly when it was absolute. */
  lemma NormalizeAbsolute(p: string)
    ensures IsAbsolute(Normalize(p)) <==> IsAbsolute(p)
  {
    NormalizedSegments(p);
  }

  /** Two non-empty paths joined by a separator: their segments in sequence, absolute
      as the first is, and with a trailing separator as the second has one. */
  lemma JoinedSegments(a: string, b: string)
    requires a != "" && b != ""
    ensures Segments(a + "/" + b) == Segments(a) + Segments(b)
    ensures IsAbsolute(a + "/" + b) == IsAbsolute(a)
    ensures HasTrailingSeparator(a + "/" + b) == HasTrailingSeparator(b)
  {
    var p := a + "/" + b;
    assert p == a + ['/'] + b;
    Strings.SplitOnConcat(a, b, '/');
    assert p[0] == a[0];
    assert p[|p| - 1] == b[|b| - 1];
  }

  /** Joining two non-empty paths resolves their segments in sequence. */
  lemma JoinResolves(a: string, b: string)
    requires a != "" && b != ""
    ensures Join(a, b) == Render(IsAbsolute(a), HasTrailingSeparator(b),
                                 Resolve([], Segments(a) + Segments(b), !IsAbsolute(a)))
  {
    JoinedSegments(a, b);
  }

  /** Joining first under `a` and then under the result is joining the two relative
      parts under `a` at once: this is why a relative `source` or `mains` entry keeps
      following the paths it is joined under. */
  lemma JoinJoin(a: string, b: string, c: string)
    requires IsAbsolute(a) && b != "" && c != ""
    ensures Join(Join(a, b), c) == Join(a, b + "/" + c)
  {
    var n := Join(a, b);
    var sa, sb, sc := Segments(a), Segments(b), Segments(c);
    JoinResolves(a, b);
    NormalizedSegments(a + "/" + b);
    JoinedSegments(a, b);
    var st := Resolve([], sa + sb, false);
    assert IsAbsolute(n) && Resolve([], Segments(n), false) == st;
    JoinResolves(n, c);
    ResolveAppend([], Segments(n), sc, false);
    assert Join(n, c) == Render(true, HasTrailingSeparator(c), Resolve(st, sc, false));
    JoinedSegments(b, c);
    JoinResolves(a, b + "/" + c);
    assert sa + (sb + sc) == (sa + sb) + sc;
    ResolveAppend([], sa + sb, sc, false);
    assert Join(a, b + "/" + c) == Render(true, HasTrailingSeparator(c), Resolve(st, sc, false));
  }

  /** A leading "./" changes nothing. */
  lemma JoinDot(a: string, b: string)
    requires a != "" && b != ""
    ensures Join(a, "./" + b) == Join(a, b)
  {
    var f := !IsAbsolute(a);
    var sa, sb := Segments(a), Segments(b);
    assert "./" + b == "." + ['/'] + b;
    DotSegments(b);
    JoinResolves(a, "./" + b);
    JoinResolves(a, b);
    assert sa + Segments("./" + b) == (sa + ["."]) + sb;
    ResolveAppend([], sa + ["."], sb, f);
    ResolveAppend([], sa, ["."], f);
    var st := Resolve([], sa, f);
    assert Resolve(st, ["."], f) == Resolve(st, [], f);
    ResolveAppend([], sa, sb, f);
    assert ("./" + b)[|"./" + b| - 1] == b[|b| - 1];
  }

  /** The cascade of a relative path option under a relative path option under `root`. */
  lemma NormalizePathNested(root: string, outer: string, inner: string)
    requires IsAbsolute(root)
    requires outer != "" && !IsAbsolute(outer)
    requires inner != "" && !IsAbsolute(inner)
    ensures NormalizePath(NormalizePath(root, outer), inner) == NormalizePath(root, outer + "/" + inner)
  {
    JoinJoin(root, outer, inner);
  }
}
