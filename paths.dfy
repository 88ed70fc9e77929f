/**
 * POSIX paths as `pathlib` treats them for the generator: joining a relative
 * path onto a base, `resolve()` as lexical normalisation (no symbolic links),
 * `str()` of a path, `parent`, and the prefix check that `_write` applies.
 */
module Paths {
  import opened Text

  /** An absolute path, as its segments below the root `/`. */
  type Path = seq<string>

  /** A segment of a resolved path: not empty, no `/`, not `.` or `..`. */
  predicate IsSegment(s: string) {
    s != "" && s != "." && s != ".." && '/' !in s
  }

  predicate IsResolved(p: Path) {
    forall k :: 0 <= k < |p| ==> IsSegment(p[k])
  }

  /** `p` lies inside `root` (or is `root`), segment by segment. */
  predicate Within(p: Path, root: Path) {
    |root| <= |p| && p[..|root|] == root
  }

  /** `"/a" + "/b" + ...` for the segments of `p`. */
  function Slashed(p: Path): string
    decreases |p|
  {
    if p == [] then "" else "/" + p[0] + Slashed(p[1..])
  }

  /** `str(p)`: the root prints as `/`, any other path as `/a/b/...`. */
  function PathString(p: Path): string {
    if p == [] then "/" else Slashed(p)
  }

  /** `p.parent`; the root is its own parent. */
  function Parent(p: Path): (r: Path)
    ensures p != [] ==> |r| == |p| - 1 && Within(p, r)
  {
    if p == [] then [] else p[..|p| - 1]
  }

  /**
   * Lexical resolution of the segments `segs` from `cur`: empty segments
   * and `.` stay put, `..` climbs one level (never above the root), any
   * other segment descends.
   */
  function Walk(cur: Path, segs: seq<string>): (r: Path)
    ensures IsResolved(cur) && (forall k :: 0 <= k < |segs| ==> '/' !in segs[k]) ==> IsResolved(r)
    decreases |segs|
  {
    if segs == [] then cur
    else
      var s := segs[0];
      var next := if s == "" || s == "." then cur else if s == ".." then Parent(cur) else cur + [s];
      Walk(next, segs[1..])
  }

  /**
   * `(base / rel).resolve()`: a `rel` that starts with `/` replaces the base;
   * the result is resolved whenever the base is.
   */
  function Resolve(base: Path, rel: string): (r: Path)
    ensures IsResolved(base) ==> IsResolved(r)
  {
    var segs := Split(rel, "/");
    SplitPiecesFree(rel, "/", 0);
    forall k | 0 <= k < |segs| ensures '/' !in segs[k] {
      NoOccurrenceNoChar(segs[k], '/');
    }
    Walk(if StartsWith(rel, "/") then [] else base, segs)
  }

  /** A `rel` that starts with `/` replaces the base: the result does not depend on it. */
  lemma ResolveAbsolute(base: Path, rel: string)
    requires StartsWith(rel, "/")
    ensures Resolve(base, rel) == Resolve([], rel)
  {
  }

  /** A character that occurs in `s` is an occurrence of the one-character string. */
  lemma NoOccurrenceNoChar(s: string, c: char)
    requires !Contains(s, [c])
    ensures c !in s
  {
    forall j | 0 <= j < |s| ensures s[j] != c {
      assert !OccursAt(s, [c], j);
      assert s[j..j + 1] == [s[j]];
    }
  }

  /** The check in `_write`: `str(full).startswith(str(root))`. */
  predicate PassesPrefixCheck(full: Path, root: Path) {
    StartsWith(PathString(full), PathString(root))
  }

  lemma SlashedAppend(a: Path, b: Path)
    ensures Slashed(a + b) == Slashed(a) + Slashed(b)
    decreases |a|
  {
    if a == [] {
      assert a + b == b;
    } else {
      assert (a + b)[1..] == a[1..] + b;
      SlashedAppend(a[1..], b);
    }
  }

  /** Every path inside the root passes the check: it never rejects a contained path. */
  lemma WithinPassesCheck(full: Path, root: Path)
    requires Within(full, root)
    ensures PassesPrefixCheck(full, root)
  {
    var rest := full[|root|..];
    assert full == root + rest;
    SlashedAppend(root, rest);
    if root != [] && full != [] {
      assert PathString(full)[..|PathString(root)|] == PathString(root);
    }
  }

  /** Walking plain segments just appends them. */
  lemma {:induction false} WalkPlain(cur: Path, segs: seq<string>)
    requires IsResolved(segs)
    ensures Walk(cur, segs) == cur + segs
    decreases |segs|
  {
    if segs != [] {
      WalkPlain(cur + [segs[0]], segs[1..]);
      assert cur + [segs[0]] + segs[1..] == cur + segs;
    }
  }

  /** A relative path made of plain segments resolves to the base extended by them. */
  lemma ResolvePlain(base: Path, segs: seq<string>)
    requires |segs| >= 1 && IsResolved(segs)
    ensures Resolve(base, Join(segs, "/")) == base + segs
    ensures Within(base + segs, base)
  {
    var rel := Join(segs, "/");
    SplitJoin(segs, '/');
    assert !StartsWith(rel, "/") by {
      JoinStartsWithFirst(segs, "/");
      assert rel[0] == segs[0][0];
    }
    WalkPlain(base, segs);
    assert (base + segs)[..|base|] == base;
  }

  lemma JoinStartsWithFirst(segs: seq<string>, sep: string)
    requires |segs| >= 1 && segs[0] != []
    ensures |Join(segs, sep)| >= 1 && Join(segs, sep)[0] == segs[0][0]
  {
  }

  /** `"/" + Join(p, "/")` is the same text as `Slashed(p)` for a non-empty `p`. */
  lemma SlashedIsJoin(p: Path)
    requires p != []
    ensures Slashed(p) == Join([""] + p, "/")
    decreases |p|
  {
    if |p| == 1 {
      assert ([""] + p)[1..] == p;
      assert Slashed(p) == "/" + p[0];
    } else {
      SlashedIsJoin(p[1..]);
      SlashedJoinStep(p);
    }
  }

  lemma SlashedJoinStep(p: Path)
    requires |p| >= 2 && Slashed(p[1..]) == Join([""] + p[1..], "/")
    ensures Slashed(p) == Join([""] + p, "/")
  {
    var j := Join(p[1..], "/");
    JoinCons("", p[1..], "/");
    JoinCons("", p, "/");
    assert [p[0]] + p[1..] == p;
    JoinCons(p[0], p[1..], "/");
    assert "" + "/" == "/";
    assert Slashed(p) == ("/" + p[0]) + ("/" + j);
    assert Join([""] + p, "/") == "/" + ((p[0] + "/") + j);
    Regroup4("/", p[0], "/", j);
  }

  lemma Regroup4(w: string, x: string, y: string, z: string)
    ensures (w + x) + (y + z) == w + ((x + y) + z)
  {
  }

  /** Resolving the printed form of a resolved path gives the path back. */
  lemma ResolvePathString(base: Path, p: Path)
    requires IsResolved(p)
    ensures Resolve(base, PathString(p)) == p
  {
    var s := PathString(p);
    var parts := if p == [] then ["", ""] else [""] + p;
    if p == [] {
      assert s == Join(parts, "/");
    } else {
      SlashedIsJoin(p);
    }
    forall k | 0 <= k < |parts| ensures '/' !in parts[k] {
      if k > 0 && p != [] { assert parts[k] == p[k - 1]; }
    }
    SplitJoin(parts, '/');
    assert StartsWith(s, "/") by {
      if p != [] { assert s == "/" + p[0] + Slashed(p[1..]); }
    }
    if p == [] {
      assert Walk([], parts) == Walk([], [""]);
    } else {
      assert parts[1..] == p;
      WalkPlain([], p);
    }
  }

  /**
   * What the string check really admits for a non-root `root`: every
   * segment of `root` but the last is matched exactly, and the last
   * segment of `root` need only be a string prefix of the corresponding
   * segment of `full`.
   */
  predicate PrefixUpToLast(full: Path, root: Path)
    requires root != []
  {
    var n := |root| - 1;
    |root| <= |full| && full[..n] == root[..n] && StartsWith(full[n], root[n])
  }

  lemma StartsWithCommon(x: string, a: string, b: string)
    ensures StartsWith(x + a, x + b) <==> StartsWith(a, b)
  {
    if |x + b| <= |x + a| {
      assert (x + a)[..|x + b|] == x + a[..|b|];
      if (x + a)[..|x + b|] == x + b {
        assert a[..|b|] == (x + a)[..|x + b|][|x|..];
      }
    }
  }

  lemma SlashedStart(p: Path)
    requires p != []
    ensures Slashed(p) == "/" + p[0] + Slashed(p[1..]) && Slashed(p)[0] == '/'
  {
  }

  /** The prefix check, exactly: see `PrefixUpToLast`. */
  lemma PrefixCheckExactly(full: Path, root: Path)
    requires IsResolved(full) && IsResolved(root) && root != []
    ensures PassesPrefixCheck(full, root) <==> PrefixUpToLast(full, root)
  {
    SlashedStart(root);
    if full != [] {
      SlashedPrefix(full, root);
    }
  }

  lemma {:induction false} SlashedPrefix(f: Path, r: Path)
    requires IsResolved(f) && IsResolved(r) && f != [] && r != []
    ensures StartsWith(Slashed(f), Slashed(r)) <==> PrefixUpToLast(f, r)
    decreases |r|
  {
    var f0, F, r0, R := f[0], f[1..], r[0], r[1..];
    SlashedStart(f);
    SlashedStart(r);
    assert Slashed(f) == "/" + (f0 + Slashed(F));
    assert Slashed(r) == "/" + (r0 + Slashed(R));
    StartsWithCommon("/", f0 + Slashed(F), r0 + Slashed(R));
    if R == [] {
      assert r == [r0];
      PrefixOfLast(f, r0);
    } else if |f0| != |r0| {
      PrefixMismatch(f, r);
    } else {
      PrefixSameFirst(f, r);
      if F != [] && f0 == r0 {
        SlashedPrefix(F, R);
        PrefixUpToLastTail(f, r);
      }
    }
  }

  /** The rest of a resolved path prints as empty or starting with `/`. */
  lemma SlashedTail(p: Path)
    requires p != []
    ensures p[1..] != [] ==> Slashed(p[1..])[0] == '/'
  {
    if p[1..] != [] { SlashedStart(p[1..]); }
  }

  /** The last segment of the output directory need only be a string prefix. */
  lemma PrefixOfLast(f: Path, r0: string)
    requires IsResolved(f) && f != [] && IsSegment(r0)
    ensures StartsWith(f[0] + Slashed(f[1..]), r0 + Slashed([])) <==> PrefixUpToLast(f, [r0])
  {
    var f0, sF := f[0], Slashed(f[1..]);
    SlashedTail(f);
    assert r0 + Slashed([]) == r0;
    assert f[..0] == [r0][..0];
    if |r0| <= |f0| {
      assert (f0 + sF)[..|r0|] == f0[..|r0|];
    } else if |r0| <= |f0 + sF| {
      assert (f0 + sF)[|f0|] == '/';
      assert r0[|f0|] != '/';
      assert (f0 + sF)[..|r0|][|f0|] != r0[|f0|];
    }
  }

  /** First segments of different lengths: the texts differ and so do the paths. */
  lemma PrefixMismatch(f: Path, r: Path)
    requires IsResolved(f) && IsResolved(r) && f != [] && |r| >= 2 && |f[0]| != |r[0]|
    ensures !StartsWith(f[0] + Slashed(f[1..]), r[0] + Slashed(r[1..]))
    ensures !PrefixUpToLast(f, r)
  {
    var f0, sF, r0, sR := f[0], Slashed(f[1..]), r[0], Slashed(r[1..]);
    SlashedTail(f);
    SlashedTail(r);
    assert (r0 + sR)[|r0|] == '/';
    if |f0| < |r0| {
      if |r0 + sR| <= |f0 + sF| {
        assert (f0 + sF)[|f0|] == '/';
        assert r0[|f0|] != '/';
        assert (f0 + sF)[..|r0 + sR|][|f0|] != (r0 + sR)[|f0|];
      }
    } else {
      assert '/' !in f0;
      if |r0 + sR| <= |f0 + sF| {
        assert (f0 + sF)[..|r0 + sR|][|r0|] != (r0 + sR)[|r0|];
      }
    }
    if |r| <= |f| {
      assert f[..|r| - 1][0] == f0;
      assert r[..|r| - 1][0] == r0;
    }
  }

  /**
   * First segments of the same length: both sides hold only if the first
   * segments are equal, and then they come down to the rest of the paths.
   */
  lemma PrefixSameFirst(f: Path, r: Path)
    requires IsResolved(f) && IsResolved(r) && f != [] && |r| >= 2 && |f[0]| == |r[0]|
    ensures StartsWith(f[0] + Slashed(f[1..]), r[0] + Slashed(r[1..]))
      <==> f[0] == r[0] && StartsWith(Slashed(f[1..]), Slashed(r[1..]))
    ensures PrefixUpToLast(f, r) ==> f[0] == r[0] && f[1..] != []
  {
    var f0, sF, r0, sR := f[0], Slashed(f[1..]), r[0], Slashed(r[1..]);
    if StartsWith(f0 + sF, r0 + sR) {
      assert f0 == (f0 + sF)[..|r0 + sR|][..|r0|];
      assert r0 == (r0 + sR)[..|r0|];
    }
    if f0 == r0 {
      StartsWithCommon(f0, sF, sR);
    }
    if PrefixUpToLast(f, r) {
      assert f[..|r| - 1][0] == f0;
      assert r[..|r| - 1][0] == r0;
    }
  }

  /** With equal first segments, the condition carries over to the rest. */
  lemma PrefixUpToLastTail(f: Path, r: Path)
    requires |f| >= 2 && |r| >= 2 && f[0] == r[0]
    ensures PrefixUpToLast(f, r) <==> PrefixUpToLast(f[1..], r[1..])
  {
    var n := |r| - 1;
    if |r| <= |f| {
      assert f[..n] == [f[0]] + f[1..][..n - 1];
      assert r[..n] == [r[0]] + r[1..][..n - 1];
      assert f[n] == f[1..][n - 1] && r[n] == r[1..][n - 1];
    }
  }

  /**
   * The check lets a sibling directory through. For an output directory
   * `P/name` and a sibling `P/name+suffix`, the relative path
   * `../name+suffix/...` escapes the output directory and still passes
   * (under `/w/blog`, `../blog2/x` resolves to `/w/blog2/x`).
   */
  lemma SiblingDirectoryPassesCheck(parent: Path, name: string, suffix: string, rest: Path)
    requires IsResolved(parent) && IsResolved(rest) && IsSegment(name)
    requires suffix != [] && IsSegment(name + suffix)
    ensures var full := parent + [name + suffix] + rest;
      && Resolve(parent + [name], Join([".."] + [name + suffix] + rest, "/")) == full
      && PassesPrefixCheck(full, parent + [name])
      && !Within(full, parent + [name])
  {
    ResolveSibling(parent, name, name + suffix, rest);
    SiblingCheck(parent, name, suffix, rest);
  }

  lemma ResolveSibling(parent: Path, name: string, other: string, rest: Path)
    requires IsResolved(parent) && IsResolved(rest) && IsSegment(other)
    ensures Resolve(parent + [name], Join([".."] + [other] + rest, "/")) == parent + [other] + rest
  {
    SiblingSegments(other, rest);
    JoinStartsWithFirst([".."] + [other] + rest, "/");
    ResolveUp(parent, name, Join([".."] + [other] + rest, "/"), other, rest);
  }

  /** A relative path whose first piece is `..` and whose other pieces are plain climbs once, then descends. */
  lemma ResolveUp(parent: Path, name: string, rel: string, other: string, rest: Path)
    requires |rel| >= 1 && rel[0] != '/' && Split(rel, "/") == [".."] + [other] + rest
    requires IsResolved([other] + rest)
    ensures Resolve(parent + [name], rel) == parent + [other] + rest
  {
    var root := parent + [name];
    var tail := [other] + rest;
    var segs := [".."] + [other] + rest;
    assert !StartsWith(rel, "/");
    assert Resolve(root, rel) == Walk(root, segs);
    assert segs[0] == ".." && segs[1..] == tail;
    assert Parent(root) == parent;
    assert Walk(root, segs) == Walk(parent, tail);
    WalkPlain(parent, tail);
    assert parent + tail == parent + [other] + rest;
  }

  lemma SiblingSegments(other: string, rest: Path)
    requires IsResolved(rest) && IsSegment(other)
    ensures IsResolved([other] + rest)
    ensures Split(Join([".."] + [other] + rest, "/"), "/") == [".."] + [other] + rest
  {
    var tail := [other] + rest;
    var segs := [".."] + [other] + rest;
    forall k | 0 <= k < |tail| ensures IsSegment(tail[k]) {
      if k >= 1 { assert tail[k] == rest[k - 1]; }
    }
    forall k | 0 <= k < |segs| ensures '/' !in segs[k] {
      if k >= 2 { assert segs[k] == rest[k - 2]; }
    }
    SplitJoin(segs, '/');
  }

  lemma SiblingCheck(parent: Path, name: string, suffix: string, rest: Path)
    requires IsResolved(parent) && IsResolved(rest) && IsSegment(name)
    requires suffix != [] && IsSegment(name + suffix)
    ensures PassesPrefixCheck(parent + [name + suffix] + rest, parent + [name])
    ensures !Within(parent + [name + suffix] + rest, parent + [name])
  {
    var root := parent + [name];
    var full := parent + [name + suffix] + rest;
    assert IsResolved(full) by {
      forall k | 0 <= k < |full| ensures IsSegment(full[k]) {
        if k < |parent| { assert full[k] == parent[k]; }
        else if k > |parent| { assert full[k] == rest[k - |parent| - 1]; }
      }
    }
    assert IsResolved(root) by {
      forall k | 0 <= k < |root| ensures IsSegment(root[k]) {
        if k < |parent| { assert root[k] == parent[k]; }
      }
    }
    PrefixCheckExactly(full, root);
    var n := |root| - 1;
    assert full[..n] == parent == root[..n];
    assert full[n] == name + suffix && root[n] == name;
    assert (name + suffix)[..|name|] == name;
    assert full[..|root|] != root by { assert full[..|root|][n] != root[n]; }
  }

  /** `n` times `..`. */
  function Climb(n: nat): (r: seq<string>)
    ensures |r| == n && forall k :: 0 <= k < n ==> r[k] == ".."
  {
    if n == 0 then [] else [".."] + Climb(n - 1)
  }

  lemma {:induction false} WalkClimb(cur: Path, n: nat, rest: seq<string>)
    requires |cur| <= n
    ensures Walk(cur, Climb(n) + rest) == Walk([], rest)
    decreases n
  {
    if n > 0 {
      assert (Climb(n) + rest)[1..] == Climb(n - 1) + rest;
      WalkClimb(Parent(cur), n - 1, rest);
    } else {
      assert cur == [];
      assert Climb(n) + rest == rest;
    }
  }

  /**
   * Climbing out through every level of the output directory and down into
   * `rest` (`../../etc/passwd` under `/w/blog`) lands on `rest` itself, which
   * fails the check unless `rest` shares all but the last segment of the
   * output directory and extends the last one.
   */
  lemma TraversalCheckExactly(root: Path, rest: Path)
    requires IsResolved(root) && root != [] && IsResolved(rest) && rest != []
    ensures Resolve(root, Join(Climb(|root|) + rest, "/")) == rest
    ensures PassesPrefixCheck(rest, root) <==> PrefixUpToLast(rest, root)
  {
    var segs := Climb(|root|) + rest;
    forall k | 0 <= k < |segs| ensures '/' !in segs[k] {
      if k >= |root| { assert segs[k] == rest[k - |root|]; }
    }
    SplitJoin(segs, '/');
    JoinStartsWithFirst(segs, "/");
    WalkClimb(root, |root|, rest);
    WalkPlain([], rest);
    PrefixCheckExactly(rest, root);
  }
}
