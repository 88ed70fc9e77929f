/**
 * The handful of Python `str` operations the generator and the release
 * helpers rely on: `startswith`, `in`/`find`, `split`, `join`, `replace` and
 * `strip`, each written out over `seq<char>`.
 */
module Text {
  import opened Results

  /** `s.startswith(p)`. */
  predicate StartsWith(s: string, p: string) {
    |p| <= |s| && s[..|p|] == p
  }

  /** `p` occurs in `s` at index `j`. */
  predicate OccursAt(s: string, p: string, j: nat)
    requires j <= |s|
  {
    |p| <= |s| - j && s[j..j + |p|] == p
  }

  /** `s.find(p, i)`: the first index at or after `i` at which `p` occurs. */
  function IndexFrom(s: string, p: string, i: nat): (r: Option<nat>)
    requires i <= |s|
    ensures r.Some? ==> i <= r.value <= |s| && OccursAt(s, p, r.value)
    ensures r.Some? ==> forall j :: i <= j < r.value ==> !OccursAt(s, p, j)
    ensures r.None? ==> forall j :: i <= j <= |s| ==> !OccursAt(s, p, j)
    decreases |s| - i
  {
    if OccursAt(s, p, i) then Some(i)
    else if i == |s| then None
    else IndexFrom(s, p, i + 1)
  }

  /** `s.find(p)`; None stands for Python's `-1`. */
  function IndexOf(s: string, p: string): Option<nat> {
    IndexFrom(s, p, 0)
  }

  /** `p in s` (the empty string is in every string). */
  predicate Contains(s: string, p: string) {
    IndexOf(s, p).Some?
  }

  /** `sep.join(parts)`. */
  function Join(parts: seq<string>, sep: string): string
    decreases |parts|
  {
    if |parts| == 0 then ""
    else if |parts| == 1 then parts[0]
    else parts[0] + sep + Join(parts[1..], sep)
  }

  /** A `p` that does not occur in `s` in the range `[i, k)` does not occur in `s[i..k]`. */
  lemma NoOccurrenceInSlice(s: string, i: nat, k: nat, p: string)
    requires i <= k <= |s| && p != []
    requires forall j :: i <= j < k ==> !OccursAt(s, p, j)
    ensures !Contains(s[i..k], p)
  {
    var t := s[i..k];
    forall j | 0 <= j <= |t| ensures !OccursAt(t, p, j) {
      if |p| <= |t| - j {
        assert !OccursAt(s, p, i + j);
        SliceOfSlice(s, i, k, j, |p|);
      }
    }
  }

  lemma SliceOfSlice(s: string, i: nat, k: nat, j: nat, m: nat)
    requires i <= k <= |s| && j + m <= k - i
    ensures s[i..k][j..j + m] == s[i + j..i + j + m]
  {
    var t := s[i..k];
    var u := s[i + j..i + j + m];
    forall x | 0 <= x < m ensures t[j..j + m][x] == u[x] {
    }
  }

  /** The pieces of `s[i..]` between non-overlapping occurrences of `sep`. */
  function SplitFrom(s: string, sep: string, i: nat): (parts: seq<string>)
    requires sep != [] && i <= |s|
    ensures |parts| >= 1
    decreases |s| - i
  {
    match IndexFrom(s, sep, i)
    case None => [s[i..]]
    case Some(k) => [s[i..k]] + SplitFrom(s, sep, k + |sep|)
  }

  /** Joining the pieces with the separator gives `s[i..]` back. */
  lemma {:induction false} SplitFromJoin(s: string, sep: string, i: nat)
    requires sep != [] && i <= |s|
    ensures Join(SplitFrom(s, sep, i), sep) == s[i..]
    decreases |s| - i
  {
    match IndexFrom(s, sep, i)
    case None =>
      assert SplitFrom(s, sep, i) == [s[i..]];
    case Some(k) =>
      SplitFromJoin(s, sep, k + |sep|);
      SplitCutJoin(s, sep, i, k);
  }

  /** One cut: the first piece, the separator, then the join of the rest. */
  lemma SplitCutJoin(s: string, sep: string, i: nat, k: nat)
    requires sep != [] && i <= |s| && IndexFrom(s, sep, i) == Some(k)
    requires Join(SplitFrom(s, sep, k + |sep|), sep) == s[k + |sep|..]
    ensures Join(SplitFrom(s, sep, i), sep) == s[i..]
  {
    SplitCut(s, sep, i, k);
    assert s[i..] == s[i..k] + sep + s[k + |sep|..] by {
      assert OccursAt(s, sep, k);
    }
    JoinCut(s[i..k], SplitFrom(s, sep, k + |sep|), sep, s[k + |sep|..], s[i..]);
  }

  lemma JoinCut(x: string, rest: seq<string>, sep: string, tail: string, whole: string)
    requires |rest| >= 1 && Join(rest, sep) == tail && whole == x + sep + tail
    ensures Join([x] + rest, sep) == whole
  {
    JoinCons(x, rest, sep);
  }

  /** No piece of a split holds the separator. */
  lemma {:induction false} SplitPiecesFree(s: string, sep: string, i: nat)
    requires sep != [] && i <= |s|
    ensures forall k :: 0 <= k < |SplitFrom(s, sep, i)| ==> !Contains(SplitFrom(s, sep, i)[k], sep)
    decreases |s| - i
  {
    match IndexFrom(s, sep, i)
    case None =>
      NoOccurrenceInSlice(s, i, |s|, sep);
      assert s[i..|s|] == s[i..];
    case Some(k) =>
      NoOccurrenceInSlice(s, i, k, sep);
      SplitPiecesFree(s, sep, k + |sep|);
  }

  /**
   * `s.split(sep)` for a non-empty separator: joining the pieces with `sep`
   * gives `s` back, and no piece holds `sep`.
   */
  function Split(s: string, sep: string): (parts: seq<string>)
    requires sep != []
  {
    SplitFrom(s, sep, 0)
  }

  /** `s.split(sep, 1)`: at most one cut, at the first occurrence. */
  function SplitOnce(s: string, sep: string): (parts: seq<string>)
    requires sep != []
    ensures Contains(s, sep) ==> |parts| == 2 && parts[0] + sep + parts[1] == s && !Contains(parts[0], sep)
    ensures !Contains(s, sep) ==> parts == [s]
  {
    match IndexOf(s, sep)
    case None => [s]
    case Some(i) =>
      assert s == s[..i] + sep + s[i + |sep|..];
      NoOccurrenceInSlice(s, 0, i, sep);
      [s[..i], s[i + |sep|..]]
  }

  /** Joining pieces that do not hold the one-character separator splits back into them. */
  lemma {:induction false} SplitJoin(parts: seq<string>, c: char)
    requires |parts| >= 1
    requires forall k :: 0 <= k < |parts| ==> c !in parts[k]
    ensures Split(Join(parts, [c]), [c]) == parts
  {
    SplitJoinFrom(parts, c, [], Join(parts, [c]));
  }

  lemma {:induction false} SplitJoinFrom(parts: seq<string>, c: char, pre: string, s: string)
    requires |parts| >= 1
    requires forall k :: 0 <= k < |parts| ==> c !in parts[k]
    requires s == pre + Join(parts, [c])
    ensures SplitFrom(s, [c], |pre|) == parts
    decreases |parts|
  {
    if |parts| == 1 {
      assert s == pre + parts[0];
      SplitJoinLast(parts[0], c, pre, s);
      assert parts == [parts[0]];
    } else {
      var x, rest := parts[0], parts[1..];
      assert s == pre + x + [c] + Join(rest, [c]) by {
        assert parts == [x] + rest;
        JoinCons(x, rest, [c]);
      }
      SplitJoinStep(x, c, pre, Join(rest, [c]), s);
      SplitJoinFrom(rest, c, pre + x + [c], s);
      assert parts == [x] + rest;
    }
  }

  /** A piece followed by the separator, then anything: the split cuts after the piece. */
  lemma SplitJoinStep(x: string, c: char, pre: string, t: string, s: string)
    requires c !in x && s == pre + x + [c] + t
    ensures SplitFrom(s, [c], |pre|) == [x] + SplitFrom(s, [c], |pre + x + [c]|)
  {
    var pre' := pre + x + [c];
    assert s[..|pre'|] == pre';
    SlicedPiece(x, c, pre, pre', s);
    SplitJoinCut(x, c, s, |pre|);
  }

  /** The last piece: no separator follows. */
  lemma SplitJoinLast(x: string, c: char, pre: string, s: string)
    requires c !in x && s == pre + x
    ensures SplitFrom(s, [c], |pre|) == [x]
  {
    assert s[|pre|..|s|] == x;
    NoCharIn(s, c, |pre|, |s|);
    SplitLast(s, c, |pre|);
    assert s[|pre|..] == x;
  }

  /** A piece followed by the separator is cut off at it. */
  lemma SplitJoinCut(x: string, c: char, s: string, i: nat)
    requires c !in x && i + |x| < |s| && s[i..i + |x|] == x && s[i + |x|] == c
    ensures SplitFrom(s, [c], i) == [x] + SplitFrom(s, [c], i + |x| + 1)
  {
    SplitStep(s, c, i, |x|);
  }

  lemma SlicedPiece(x: string, c: char, pre: string, pre': string, s: string)
    requires pre' == pre + x + [c] && |pre'| <= |s| && s[..|pre'|] == pre'
    ensures |pre| + |x| < |s| && s[|pre|..|pre| + |x|] == x && s[|pre| + |x|] == c
  {
    var i, n := |pre|, |x|;
    assert pre'[i..i + n] == x;
    assert s[i..i + n] == s[..|pre'|][i..i + n];
    assert s[i + n] == pre'[i + n];
  }

  /** A character absent from `s[i..k]` does not occur in `s` anywhere in `[i, k)`. */
  lemma NoCharIn(s: string, c: char, i: nat, k: nat)
    requires i <= k <= |s| && c !in s[i..k]
    ensures forall j :: i <= j < k ==> !OccursAt(s, [c], j)
  {
    forall j | i <= j < k ensures !OccursAt(s, [c], j) {
      assert s[j] == s[i..k][j - i];
    }
  }

  /** The first separator after `i` is at `i + n`: the split cuts there. */
  lemma SplitStep(s: string, c: char, i: nat, n: nat)
    requires i + n < |s| && s[i + n] == c && c !in s[i..i + n]
    ensures SplitFrom(s, [c], i) == [s[i..i + n]] + SplitFrom(s, [c], i + n + 1)
  {
    assert IndexFrom(s, [c], i) == Some(i + n) by {
      NoCharIn(s, c, i, i + n);
      assert OccursAt(s, [c], i + n) by { assert s[i + n..i + n + 1] == [c]; }
      FirstOccurrence(s, [c], i, i + n);
    }
  }

  /** The first occurrence at or after `i` is the one `find` reports. */
  lemma FirstOccurrence(s: string, p: string, i: nat, k: nat)
    requires i <= k <= |s| && OccursAt(s, p, k)
    requires forall j :: i <= j < k ==> !OccursAt(s, p, j)
    ensures IndexFrom(s, p, i) == Some(k)
  {
    var r := IndexFrom(s, p, i);
    assert r.Some?;
    assert !(r.value < k);
  }

  /** No separator after `i`: the rest is the last piece. */
  lemma SplitLast(s: string, c: char, i: nat)
    requires i <= |s|
    requires forall j :: i <= j < |s| ==> !OccursAt(s, [c], j)
    ensures SplitFrom(s, [c], i) == [s[i..]]
  {
    assert !OccursAt(s, [c], |s|);
    assert IndexFrom(s, [c], i).None?;
  }

  /** `s.replace("", t)`: `t` before every character and at the end. */
  function ReplaceEmpty(s: string, t: string): string
    decreases |s|
  {
    if s == [] then t else t + [s[0]] + ReplaceEmpty(s[1..], t)
  }

  /** The replacement scan over `s[i..]` for a non-empty `a`. */
  function ReplaceFrom(s: string, a: string, b: string, i: nat): string
    requires a != [] && i <= |s|
    decreases |s| - i
  {
    if i == |s| then []
    else if OccursAt(s, a, i) then b + ReplaceFrom(s, a, b, i + |a|)
    else [s[i]] + ReplaceFrom(s, a, b, i + 1)
  }

  /**
   * `s.replace(a, b)`: every non-overlapping occurrence of `a`, scanned left
   * to right, becomes `b`; for an empty `a`, Python inserts `b` between all
   * characters and at both ends.
   */
  function Replace(s: string, a: string, b: string): string {
    if a == [] then ReplaceEmpty(s, b) else ReplaceFrom(s, a, b, 0)
  }

  /** Content without an occurrence of a non-empty `a` comes back unchanged. */
  lemma ReplaceAbsent(s: string, a: string, b: string)
    requires a != [] && !Contains(s, a)
    ensures Replace(s, a, b) == s
  {
    ReplaceAbsentFrom(s, a, b, 0);
  }

  lemma {:induction false} ReplaceAbsentFrom(s: string, a: string, b: string, i: nat)
    requires a != [] && i <= |s|
    requires forall j :: i <= j <= |s| ==> !OccursAt(s, a, j)
    ensures ReplaceFrom(s, a, b, i) == s[i..]
    decreases |s| - i
  {
    if i < |s| {
      ReplaceAbsentFrom(s, a, b, i + 1);
      assert s[i..] == [s[i]] + s[i + 1..];
    }
  }

  /** Replacing a string by itself changes nothing, the empty string included. */
  lemma ReplaceSelf(s: string, a: string)
    ensures Replace(s, a, a) == s
  {
    if a == [] {
      ReplaceEmptyNothing(s);
    } else {
      ReplaceSelfFrom(s, a, 0);
    }
  }

  lemma {:induction false} ReplaceSelfFrom(s: string, a: string, i: nat)
    requires a != [] && i <= |s|
    ensures ReplaceFrom(s, a, a, i) == s[i..]
    decreases |s| - i
  {
    if i < |s| {
      if OccursAt(s, a, i) {
        ReplaceSelfFrom(s, a, i + |a|);
        assert s[i..] == s[i..i + |a|] + s[i + |a|..];
      } else {
        ReplaceSelfFrom(s, a, i + 1);
        assert s[i..] == [s[i]] + s[i + 1..];
      }
    }
  }

  lemma {:induction false} ReplaceEmptyNothing(s: string)
    ensures ReplaceEmpty(s, []) == s
    decreases |s|
  {
    if s != [] {
      ReplaceEmptyNothing(s[1..]);
    }
  }

  lemma JoinFirst(c: string, q: seq<string>, sep: string)
    requires |q| >= 1
    ensures Join([c + q[0]] + q[1..], sep) == c + Join(q, sep)
  {
    var l := [c + q[0]] + q[1..];
    if |q| > 1 {
      assert l[1..] == q[1..];
    }
  }

  lemma JoinCons(x: string, q: seq<string>, sep: string)
    requires |q| >= 1
    ensures Join([x] + q, sep) == x + sep + Join(q, sep)
  {
    assert ([x] + q)[1..] == q;
  }

  /** Python's `s.replace(a, b)` equals `b.join(s.split(a))` for a non-empty `a`. */
  lemma ReplaceIsJoinOfSplit(s: string, a: string, b: string)
    requires a != []
    ensures Replace(s, a, b) == Join(Split(s, a), b)
  {
    ReplaceIsJoinOfSplitFrom(s, a, b, 0);
  }

  lemma {:induction false} ReplaceIsJoinOfSplitFrom(s: string, a: string, b: string, i: nat)
    requires a != [] && i <= |s|
    ensures ReplaceFrom(s, a, b, i) == Join(SplitFrom(s, a, i), b)
    decreases |s| - i
  {
    if i == |s| {
      assert IndexFrom(s, a, i).None?;
    } else if OccursAt(s, a, i) {
      ReplaceIsJoinOfSplitFrom(s, a, b, i + |a|);
      ReplaceJoinAtOccurrence(s, a, b, i);
    } else {
      ReplaceIsJoinOfSplitFrom(s, a, b, i + 1);
      ReplaceJoinPastCharacter(s, a, b, i);
    }
  }

  /** An occurrence at `i` becomes `b` on one side and an empty first piece on the other. */
  lemma ReplaceJoinAtOccurrence(s: string, a: string, b: string, i: nat)
    requires a != [] && i < |s| && OccursAt(s, a, i)
    requires ReplaceFrom(s, a, b, i + |a|) == Join(SplitFrom(s, a, i + |a|), b)
    ensures ReplaceFrom(s, a, b, i) == Join(SplitFrom(s, a, i), b)
  {
    var rest := SplitFrom(s, a, i + |a|);
    SplitAtOccurrence(s, a, i);
    JoinCons("", rest, b);
    assert ReplaceFrom(s, a, b, i) == b + ReplaceFrom(s, a, b, i + |a|);
  }

  /** A character that starts no occurrence is kept on one side and joins the first piece on the other. */
  lemma ReplaceJoinPastCharacter(s: string, a: string, b: string, i: nat)
    requires a != [] && i < |s| && !OccursAt(s, a, i)
    requires ReplaceFrom(s, a, b, i + 1) == Join(SplitFrom(s, a, i + 1), b)
    ensures ReplaceFrom(s, a, b, i) == Join(SplitFrom(s, a, i), b)
  {
    var q := SplitFrom(s, a, i + 1);
    SplitPastCharacter(s, a, i);
    JoinFirst([s[i]], q, b);
    assert ReplaceFrom(s, a, b, i) == [s[i]] + ReplaceFrom(s, a, b, i + 1);
  }

  lemma SplitAtOccurrence(s: string, a: string, i: nat)
    requires a != [] && i <= |s| && OccursAt(s, a, i)
    ensures SplitFrom(s, a, i) == [""] + SplitFrom(s, a, i + |a|)
  {
    assert IndexFrom(s, a, i) == Some(i);
    var rest := SplitFrom(s, a, i + |a|);
    assert SplitFrom(s, a, i) == [s[i..i]] + rest;
    assert s[i..i] == "";
  }

  lemma SplitPastCharacter(s: string, a: string, i: nat)
    requires a != [] && i < |s| && !OccursAt(s, a, i)
    ensures var q := SplitFrom(s, a, i + 1); SplitFrom(s, a, i) == [[s[i]] + q[0]] + q[1..]
  {
    assert IndexFrom(s, a, i) == IndexFrom(s, a, i + 1);
    match IndexFrom(s, a, i + 1)
    case None => SplitPastCharacterLast(s, a, i);
    case Some(k) => SplitPastCharacterCut(s, a, i, k);
  }

  lemma SplitPastCharacterLast(s: string, a: string, i: nat)
    requires a != [] && i < |s| && IndexFrom(s, a, i) == None && IndexFrom(s, a, i + 1) == None
    ensures var q := SplitFrom(s, a, i + 1); SplitFrom(s, a, i) == [[s[i]] + q[0]] + q[1..]
  {
    var q := SplitFrom(s, a, i + 1);
    assert q == [s[i + 1..]];
    assert [s[i]] + s[i + 1..] == s[i..];
  }

  lemma SplitPastCharacterCut(s: string, a: string, i: nat, k: nat)
    requires a != [] && i < |s| && IndexFrom(s, a, i) == Some(k) && IndexFrom(s, a, i + 1) == Some(k)
    ensures var q := SplitFrom(s, a, i + 1); SplitFrom(s, a, i) == [[s[i]] + q[0]] + q[1..]
  {
    var q := SplitFrom(s, a, i + 1);
    var rest := SplitFrom(s, a, k + |a|);
    SplitCut(s, a, i, k);
    SplitCut(s, a, i + 1, k);
    assert s[i..k] == [s[i]] + s[i + 1..k];
    FirstPieceGrows(s[i], s[i + 1..k], s[i..k], rest, q);
  }

  lemma FirstPieceGrows(c: char, x: string, y: string, rest: seq<string>, q: seq<string>)
    requires q == [x] + rest && y == [c] + x
    ensures [y] + rest == [[c] + q[0]] + q[1..]
  {
    assert q[0] == x && q[1..] == rest;
  }

  /** `find` reports `k`: the first piece ends there and the rest is split after the separator. */
  lemma SplitCut(s: string, sep: string, i: nat, k: nat)
    requires sep != [] && i <= |s| && IndexFrom(s, sep, i) == Some(k)
    ensures k + |sep| <= |s|
    ensures SplitFrom(s, sep, i) == [s[i..k]] + SplitFrom(s, sep, k + |sep|)
  {
  }

  /** An ASCII decimal digit. */
  predicate IsAsciiDigit(c: char) {
    '0' <= c <= '9'
  }

  /** Python's `str.isspace()` for one character. */
  predicate IsSpace(c: char) {
    ('\t' <= c <= '\r') || ('\U{1C}' <= c <= '\U{20}') || c == '\U{85}' || c == '\U{A0}'
    || c == '\U{1680}' || ('\U{2000}' <= c <= '\U{200A}') || c == '\U{2028}' || c == '\U{2029}'
    || c == '\U{202F}' || c == '\U{205F}' || c == '\U{3000}'
  }

  /** Every character of `t` is whitespace. */
  predicate AllSpace(t: string) {
    forall k :: 0 <= k < |t| ==> IsSpace(t[k])
  }

  /** `s.lstrip()`. */
  function LStrip(s: string): (r: string)
    ensures |r| <= |s|
    decreases |s|
  {
    if s != [] && IsSpace(s[0]) then LStrip(s[1..]) else s
  }

  /** `s.lstrip()` is a suffix of `s` after whitespace and starts with none. */
  lemma {:induction false} LStripSpec(s: string)
    ensures var r := LStrip(s);
      && |r| <= |s| && s == s[..|s| - |r|] + r
      && AllSpace(s[..|s| - |r|])
      && (r != [] ==> !IsSpace(r[0]))
    decreases |s|
  {
    if s != [] && IsSpace(s[0]) {
      LStripSpec(s[1..]);
      var r := LStrip(s[1..]);
      assert s[..|s| - |r|] == [s[0]] + s[1..][..|s| - 1 - |r|];
    }
  }

  /** `s.rstrip()`. */
  function RStrip(s: string): (r: string)
    ensures |r| <= |s|
    decreases |s|
  {
    if s != [] && IsSpace(s[|s| - 1]) then RStrip(s[..|s| - 1]) else s
  }

  /** `s.rstrip()` is a prefix of `s` before whitespace and ends with none. */
  lemma {:induction false} RStripSpec(s: string)
    ensures var r := RStrip(s);
      && |r| <= |s| && s == r + s[|r|..]
      && AllSpace(s[|r|..])
      && (r != [] ==> !IsSpace(r[|r| - 1]))
    decreases |s|
  {
    if s != [] && IsSpace(s[|s| - 1]) {
      var init := s[..|s| - 1];
      RStripSpec(init);
      var r := RStrip(init);
      assert RStrip(s) == r;
      assert s == init + [s[|s| - 1]];
      assert s[|r|..] == init[|r|..] + [s[|s| - 1]];
      AllSpaceConcat(init[|r|..], [s[|s| - 1]]);
    }
  }

  /** `s` is `r` with whitespace `pre` before it and `post` after it. */
  predicate Padded(s: string, pre: string, r: string, post: string) {
    s == pre + r + post && AllSpace(pre) && AllSpace(post)
  }

  /** `s.strip()`. */
  function Strip(s: string): string {
    RStrip(LStrip(s))
  }

  /**
   * `s.strip()` is `s` without the whitespace padding on either side: it
   * neither starts nor ends with whitespace, and it is empty exactly when
   * `s` is all whitespace.
   */
  lemma StripSpec(s: string)
    ensures exists pre, post :: Padded(s, pre, Strip(s), post)
    ensures var r := Strip(s); r != [] ==> !IsSpace(r[0]) && !IsSpace(r[|r| - 1])
    ensures Strip(s) == [] <==> AllSpace(s)
  {
    var l := LStrip(s);
    StripParts(s);
    StripPadding(s, s[..|s| - |l|], Strip(s), l[|Strip(s)|..]);
  }

  /** `strip()` cuts `s` into leading whitespace, the result, and trailing whitespace. */
  lemma StripParts(s: string)
    ensures var l := LStrip(s); var r := Strip(s);
      && |r| <= |l| <= |s|
      && s == s[..|s| - |l|] + r + l[|r|..]
      && AllSpace(s[..|s| - |l|]) && AllSpace(l[|r|..])
      && (r != [] ==> !IsSpace(r[0]) && !IsSpace(r[|r| - 1]))
  {
    var l := LStrip(s);
    var r := RStrip(l);
    LStripSpec(s);
    RStripSpec(l);
    StripEnds(l, r);
    Regroup(s[..|s| - |l|], r, l[|r|..]);
  }

  lemma Regroup(a: string, b: string, c: string)
    ensures a + (b + c) == a + b + c
  {
  }

  lemma StripPadding(s: string, pre: string, r: string, post: string)
    requires s == pre + r + post && AllSpace(pre) && AllSpace(post)
    requires r != [] ==> !IsSpace(r[0])
    ensures Padded(s, pre, r, post)
    ensures r == [] <==> AllSpace(s)
  {
    if r == [] {
      assert s == pre + post;
      AllSpaceConcat(pre, post);
    } else {
      assert s[|pre|] == r[0];
    }
  }

  lemma StripEnds(l: string, r: string)
    requires |r| <= |l| && l == r + l[|r|..]
    requires l != [] ==> !IsSpace(l[0])
    requires r != [] ==> !IsSpace(r[|r| - 1])
    ensures r != [] ==> !IsSpace(r[0]) && !IsSpace(r[|r| - 1])
  {
    if r != [] {
      assert r[0] == l[0];
    }
  }

  /** A string that neither starts nor ends with whitespace is its own `strip()`. */
  lemma StripUnpadded(s: string)
    requires s != [] && !IsSpace(s[0]) && !IsSpace(s[|s| - 1])
    ensures Strip(s) == s
  {
    assert LStrip(s) == s;
    assert RStrip(s) == s;
  }

  lemma AllSpaceConcat(a: string, b: string)
    requires AllSpace(a) && AllSpace(b)
    ensures AllSpace(a + b)
  {
    forall k | 0 <= k < |a + b| ensures IsSpace((a + b)[k]) {
      if k >= |a| {
        assert (a + b)[k] == b[k - |a|];
      }
    }
  }
}
