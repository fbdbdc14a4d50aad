/**
 * POSIX paths as Node's `path` module treats them, on a list of segments.
 * An absolute normalised path is a sequence of segments none of which is
 * empty, `.` or `..` or holds a `/`; it is written out as `/a/b/c`.
 */
module Paths {
  import opened Text

  type Segments = seq<string>

  predicate IsSegment(x: string)
  {
    x != "" && x != "." && x != ".." && '/' !in x
  }

  predicate IsNormal(p: Segments)
  {
    forall i :: 0 <= i < |p| ==> IsSegment(p[i])
  }

  predicate IsPrefix(p: Segments, q: Segments)
  {
    |p| <= |q| && q[..|p|] == p
  }

  /** One step of normalisation: `""` and `.` are dropped, `..` goes up (never above the root). */
  function Step(acc: Segments, part: string): Segments
  {
    if part == "" || part == "." then acc
    else if part == ".." then (if |acc| == 0 then acc else acc[..|acc| - 1])
    else acc + [part]
  }

  /** Applies the pieces of a path, left to right, to the directory `acc`. */
  function Normalize(acc: Segments, parts: seq<string>): (r: Segments)
    requires forall i :: 0 <= i < |parts| ==> '/' !in parts[i]
    ensures IsNormal(acc) ==> IsNormal(r)
    decreases |parts|
  {
    if |parts| == 0 then acc else Normalize(Step(acc, parts[0]), parts[1..])
  }

  /** `path.resolve(base, p)` for an absolute `base`: an absolute `p` starts again from the root. */
  function ResolvePath(base: Segments, p: string): Segments
  {
    if StartsWith(p, "/") then Normalize([], Split(p, '/')) else Normalize(base, Split(p, '/'))
  }

  /** The string form of an absolute path; the root is `/`. */
  function Render(p: Segments): string
  {
    "/" + Join(p, "/")
  }

  function CommonPrefixLength(a: Segments, b: Segments): (k: nat)
    ensures k <= |a| && k <= |b| && a[..k] == b[..k]
    ensures k < |a| && k < |b| ==> a[k] != b[k]
    decreases |a|
  {
    if |a| == 0 || |b| == 0 || a[0] != b[0] then 0
    else
      var k := CommonPrefixLength(a[1..], b[1..]);
      assert a[..k + 1] == [a[0]] + a[1..][..k];
      assert b[..k + 1] == [b[0]] + b[1..][..k];
      k + 1
  }

  function Ups(n: nat): (r: seq<string>)
    ensures |r| == n && forall i :: 0 <= i < n ==> r[i] == ".."
  {
    seq(n, i => "..")
  }

  /** `path.relative(from, to)` for absolute normalised paths: up to the common ancestor, then down. */
  function Relative(from: Segments, to: Segments): string
  {
    var k := CommonPrefixLength(from, to);
    Join(Ups(|from| - k) + to[k..], "/")
  }

  // ---------------------------------------------------------------------------
  // Normalisation

  lemma {:induction false} NormalizeAppend(acc: Segments, xs: seq<string>, ys: seq<string>)
    requires forall i :: 0 <= i < |xs| ==> '/' !in xs[i]
    requires forall i :: 0 <= i < |ys| ==> '/' !in ys[i]
    ensures forall i :: 0 <= i < |xs + ys| ==> '/' !in (xs + ys)[i]
    ensures Normalize(acc, xs + ys) == Normalize(Normalize(acc, xs), ys)
    decreases |xs|
  {
    if |xs| > 0 {
      assert (xs + ys)[1..] == xs[1..] + ys;
      NormalizeAppend(Step(acc, xs[0]), xs[1..], ys);
    } else {
      assert xs + ys == ys;
    }
  }

  /** Normalising pieces that are all proper segments just appends them. */
  lemma {:induction false} NormalizeSegments(acc: Segments, xs: Segments)
    requires IsNormal(xs)
    ensures Normalize(acc, xs) == acc + xs
    decreases |xs|
  {
    if |xs| > 0 {
      NormalizeSegments(acc + [xs[0]], xs[1..]);
      assert acc + [xs[0]] + xs[1..] == acc + xs;
    }
  }

  /** `n` times `..` removes the last `n` segments. */
  lemma {:induction false} NormalizeUps(acc: Segments, n: nat)
    requires n <= |acc|
    ensures Normalize(acc, Ups(n)) == acc[..|acc| - n]
    decreases n
  {
    if n > 0 {
      assert Ups(n)[1..] == Ups(n - 1);
      NormalizeUps(acc[..|acc| - 1], n - 1);
      assert acc[..|acc| - 1][..|acc| - 1 - (n - 1)] == acc[..|acc| - n];
    }
  }

  // ---------------------------------------------------------------------------
  // Joining segments

  lemma {:induction false} JoinAppend(p: seq<string>, q: seq<string>, sep: string)
    requires |p| > 0 && |q| > 0
    ensures Join(p + q, sep) == Join(p, sep) + sep + Join(q, sep)
    decreases |p|
  {
    if |p| == 1 {
      assert (p + q)[1..] == q;
    } else {
      assert (p + q)[1..] == p[1..] + q;
      JoinAppend(p[1..], q, sep);
    }
  }

  lemma JoinStartsWithFirst(parts: seq<string>, sep: string)
    requires |parts| > 0
    ensures StartsWith(Join(parts, sep), parts[0])
  {
  }

  lemma RenderAppend(p: Segments, x: string)
    ensures p == [] ==> Render(p + [x]) == "/" + x
    ensures p != [] ==> Render(p + [x]) == Render(p) + "/" + x
  {
    if p != [] {
      JoinAppend(p, [x], "/");
    } else {
      assert p + [x] == [x];
    }
  }

  lemma {:induction false} SegmentsHaveNoSlash(p: Segments)
    requires IsNormal(p)
    ensures forall i :: 0 <= i < |p| ==> '/' !in p[i]
  {
  }

  /** Splitting a rendered path gives back its segments, behind the empty piece before the leading `/`. */
  lemma SplitRender(p: Segments)
    requires IsNormal(p) && p != []
    ensures Split(Render(p), '/') == [""] + p
  {
    SplitJoin(p, '/');
    SplitAfterPiece("", Join(p, "/"), '/');
    assert "" + ['/'] + Join(p, "/") == Render(p);
  }

  /** Resolving a rendered path again gives the same path. */
  lemma ResolveRendered(base: Segments, p: Segments)
    requires IsNormal(p)
    ensures ResolvePath(base, Render(p)) == p
  {
    assert StartsWith(Render(p), "/");
    if p == [] {
      assert Render(p) == "/";
      assert "/"[1..] == "";
      assert Split("/", '/') == ["", ""];
      assert Normalize([], ["", ""]) == Normalize([], [""]) == [];
    } else {
      SplitRender(p);
      NormalizeSegments([], p);
      assert Normalize([], [""] + p) == Normalize(Step([], ""), p);
    }
  }

  // ---------------------------------------------------------------------------
  // `path.relative`

  /** A target outside `from` gives a relative path that begins with `..`. */
  lemma RelativeOutside(from: Segments, to: Segments)
    requires !IsPrefix(from, to)
    ensures StartsWith(Relative(from, to), "..")
  {
    var k := CommonPrefixLength(from, to);
    assert k < |from|;
    var parts := Ups(|from| - k) + to[k..];
    assert parts[0] == "..";
    JoinStartsWithFirst(parts, "/");
  }

  /** A target inside `from` gives the segments below `from`, joined with `/`. */
  lemma RelativeInside(from: Segments, to: Segments)
    requires IsPrefix(from, to)
    ensures Relative(from, to) == Join(to[|from|..], "/")
  {
    var k := CommonPrefixLength(from, to);
    assert k == |from|;
    assert Ups(0) + to[k..] == to[k..];
  }

  /** Resolving `path.relative(from, to)` against any `root` puts the segments below `from` under `root`. */
  lemma ResolveRelativeInside(from: Segments, to: Segments, root: Segments)
    requires IsNormal(to) && IsPrefix(from, to)
    ensures ResolvePath(root, Relative(from, to)) == root + to[|from|..]
  {
    RelativeInside(from, to);
    var rest := to[|from|..];
    assert IsNormal(rest) by {
      forall i | 0 <= i < |rest| ensures IsSegment(rest[i]) {
        assert rest[i] == to[|from| + i];
      }
    }
    if rest == [] {
      assert Join(rest, "/") == "";
      assert Split("", '/') == [""];
      assert root + rest == root;
    } else {
      SplitJoin(rest, '/');
      JoinStartsWithFirst(rest, "/");
      assert rest[0][0] != '/';
      NormalizeSegments(root, rest);
    }
  }

  /** The pieces `path.relative` joins: `..` up to the common ancestor, then the rest of `to`. */
  lemma RelativePieces(from: Segments, to: Segments) returns (ups: seq<string>, rest: Segments)
    requires IsNormal(to)
    ensures var k := CommonPrefixLength(from, to);
      ups == Ups(|from| - k) && rest == to[k..] && Relative(from, to) == Join(ups + rest, "/")
    ensures IsNormal(rest)
    ensures forall i :: 0 <= i < |ups + rest| ==> '/' !in (ups + rest)[i]
    ensures ups + rest != [] ==> (ups + rest)[0] != "" && (ups + rest)[0][0] != '/'
  {
    var k := CommonPrefixLength(from, to);
    ups := Ups(|from| - k);
    rest := to[k..];
    assert IsNormal(rest) by {
      forall i | 0 <= i < |rest| ensures IsSegment(rest[i]) {
        assert rest[i] == to[k + i];
      }
    }
    var parts := ups + rest;
    forall i | 0 <= i < |parts| ensures '/' !in parts[i] {
      if i >= |ups| {
        assert parts[i] == rest[i - |ups|];
      }
    }
    if parts != [] {
      if |ups| == 0 {
        assert parts[0] == rest[0];
      }
    }
  }

  /** Applying `..` pieces and then normal segments to `root`. */
  lemma NormalizeClimbDescend(root: Segments, n: nat, rest: Segments)
    requires n <= |root| && IsNormal(rest)
    ensures forall i :: 0 <= i < |Ups(n) + rest| ==> '/' !in (Ups(n) + rest)[i]
    ensures Normalize(root, Ups(n) + rest) == root[..|root| - n] + rest
  {
    SegmentsHaveNoSlash(rest);
    NormalizeAppend(root, Ups(n), rest);
    NormalizeUps(root, n);
    NormalizeSegments(root[..|root| - n], rest);
  }

  /** Resolving `path.relative(from, to)` against `root` climbs as far as `from` is below the common ancestor, then descends as `to` does. */
  lemma ResolveRelativeAt(from: Segments, to: Segments, root: Segments)
    requires IsNormal(to)
    requires |from| - CommonPrefixLength(from, to) <= |root|
    ensures var k := CommonPrefixLength(from, to);
      ResolvePath(root, Relative(from, to)) == root[..|root| - (|from| - k)] + to[k..]
  {
    var k := CommonPrefixLength(from, to);
    var ups, rest := RelativePieces(from, to);
    var parts := ups + rest;
    var s := Relative(from, to);
    NormalizeClimbDescend(root, |from| - k, rest);
    if parts == [] {
      ResolveEmpty(root);
      assert root[..|root| - (|from| - k)] + to[k..] == root;
    } else {
      ResolveJoined(root, parts);
    }
  }

  /** The empty path resolves to the base. */
  lemma ResolveEmpty(root: Segments)
    ensures ResolvePath(root, "") == root
  {
    assert !StartsWith("", "/");
    assert Split("", '/') == [""];
    assert Normalize(root, [""]) == root;
  }

  /** A relative path of slash-free pieces resolves by normalising those pieces from the base. */
  lemma ResolveJoined(root: Segments, parts: seq<string>)
    requires parts != [] && parts[0] != "" && parts[0][0] != '/'
    requires forall i :: 0 <= i < |parts| ==> '/' !in parts[i]
    ensures ResolvePath(root, Join(parts, "/")) == Normalize(root, parts)
  {
    var s := Join(parts, "/");
    SplitJoin(parts, '/');
    JoinStartsWithFirst(parts, "/");
    assert s[0] == parts[0][0];
    assert !StartsWith(s, "/");
  }

  /** `path.resolve(from, path.relative(from, to)) == to`. */
  lemma ResolveRelative(from: Segments, to: Segments)
    requires IsNormal(from) && IsNormal(to)
    ensures ResolvePath(from, Relative(from, to)) == to
  {
    var k := CommonPrefixLength(from, to);
    ResolveRelativeAt(from, to, from);
    assert from[..k] + to[k..] == to[..k] + to[k..] == to;
  }
}
