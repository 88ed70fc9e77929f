/**
 * The release script's transformations of text, with the reads and writes
 * around them taken out: finding the package version, bumping its patch
 * number, rewriting the version in a file, collecting changelog entries
 * from the lines typed at the prompt, and inserting a new release section
 * into the changelog.
 */
module Release {
  import opened Results
  import opened Text

  datatype ReleaseError =
    | VersionNotFound                  // no `__version__ = "X.Y.Z"` in the file
    | InvalidVersion(version: string)  // `int()` or the three-way unpacking fails

  // ---------------------------------------------------------------------
  // get_current_version: re.search(r'__version__ = "(\d+\.\d+\.\d+)"', ...)
  // ---------------------------------------------------------------------

  const VersionPrefix: string := "__version__ = \""

  /** `\d+` matched in full (ASCII digits). */
  predicate IsDigits(s: string) {
    |s| >= 1 && forall k :: 0 <= k < |s| ==> IsAsciiDigit(s[k])
  }

  /** `\d+\.\d+\.\d+` matched in full: the group the pattern captures. */
  ghost predicate IsVersion(v: string) {
    exists a, b, c :: IsDigits(a) && IsDigits(b) && IsDigits(c) && v == a + "." + b + "." + c
  }

  /** The pattern matches `s` at index `j` with `v` as its group. */
  ghost predicate MatchesAt(s: string, j: nat, v: string)
    requires j <= |s|
  {
    IsVersion(v) && OccursAt(s, VersionPrefix + v + "\"", j)
  }

  /** The test the search applies to a candidate group: three dotted decimal pieces. */
  predicate IsVersionText(v: string) {
    var parts := Split(v, ".");
    |parts| == 3 && IsDigits(parts[0]) && IsDigits(parts[1]) && IsDigits(parts[2])
  }

  lemma JoinThree(a: string, b: string, c: string, sep: string)
    ensures Join([a, b, c], sep) == a + sep + b + sep + c
  {
    assert [a, b, c][1..] == [b, c];
    assert [b, c][1..] == [c];
    assert Join([c], sep) == c;
    assert Join([b, c], sep) == b + sep + c;
  }

  /** The piecewise test accepts exactly the strings the group matches. */
  lemma VersionTextIff(v: string)
    ensures IsVersionText(v) <==> IsVersion(v)
  {
    if IsVersionText(v) {
      var parts := Split(v, ".");
      SplitFromJoin(v, ".", 0);
      JoinThree(parts[0], parts[1], parts[2], ".");
      assert parts == [parts[0], parts[1], parts[2]];
      assert v == parts[0] + "." + parts[1] + "." + parts[2];
    }
    if IsVersion(v) {
      var a, b, c :| IsDigits(a) && IsDigits(b) && IsDigits(c) && v == a + "." + b + "." + c;
      DottedSplit(a, b, c);
    }
  }

  /** Three dot-free pieces joined with dots split back into the pieces. */
  lemma DottedSplit(a: string, b: string, c: string)
    requires '.' !in a && '.' !in b && '.' !in c
    ensures Split(a + "." + b + "." + c, ".") == [a, b, c]
  {
    JoinThree(a, b, c, ".");
    SplitJoin([a, b, c], '.');
  }

  /** A version holds nothing but digits and dots. */
  lemma VersionChars(v: string)
    requires IsVersion(v)
    ensures forall k :: 0 <= k < |v| ==> IsAsciiDigit(v[k]) || v[k] == '.'
  {
    var a, b, c :| IsDigits(a) && IsDigits(b) && IsDigits(c) && v == a + "." + b + "." + c;
    forall k | 0 <= k < |v| ensures IsAsciiDigit(v[k]) || v[k] == '.' {
      if k < |a| {
        assert v[k] == a[k];
      } else if k == |a| {
      } else if k < |a| + 1 + |b| {
        assert v[k] == b[k - |a| - 1];
      } else if k == |a| + 1 + |b| {
      } else {
        assert v[k] == c[k - |a| - |b| - 2];
      }
    }
  }

  /**
   * The group captured when the pattern is tried at `j`: after the prefix,
   * the text up to the next `"` (digits and dots hold no `"`), if that text
   * is a version.
   */
  function VersionAt(s: string, j: nat): (r: Option<string>)
    requires j <= |s|
  {
    if !OccursAt(s, VersionPrefix, j) then None
    else
      var q := j + |VersionPrefix|;
      match IndexFrom(s, "\"", q)
      case None => None
      case Some(k) => if IsVersionText(s[q..k]) then Some(s[q..k]) else None
  }

  /** `VersionAt` captures `v` at `j` exactly when the pattern matches there with group `v`. */
  lemma VersionAtMatches(s: string, j: nat, v: string)
    requires j <= |s|
    ensures VersionAt(s, j) == Some(v) <==> MatchesAt(s, j, v)
  {
    if VersionAt(s, j) == Some(v) {
      CapturedMatches(s, j, v);
    }
    if MatchesAt(s, j, v) {
      MatchCaptured(s, j, v);
    }
  }

  lemma CapturedMatches(s: string, j: nat, v: string)
    requires j <= |s| && VersionAt(s, j) == Some(v)
    ensures MatchesAt(s, j, v)
  {
    var q := j + |VersionPrefix|;
    var k := IndexFrom(s, "\"", q).value;
    VersionTextIff(v);
    assert s[j..k + 1] == s[j..q] + s[q..k] + s[k..k + 1];
  }

  lemma MatchCaptured(s: string, j: nat, v: string)
    requires j <= |s| && MatchesAt(s, j, v)
    ensures VersionAt(s, j) == Some(v)
  {
    var p, w := VersionPrefix, VersionPrefix + v + "\"";
    var q, k := j + |p|, j + |p| + |v|;
    ConcatPieces(p, v, "\"");
    OccurrencePiece(s, w, j, 0, |p|);
    OccurrencePiece(s, w, j, |p|, |p| + |v|);
    OccurrencePiece(s, w, j, |p| + |v|, |w|);
    assert OccursAt(s, p, j);
    assert OccursAt(s, "\"", k);
    NoQuoteBefore(s, v, q);
    FirstOccurrence(s, "\"", q, k);
    VersionTextIff(v);
    assert s[q..k] == v && IsVersionText(v);
  }

  lemma ConcatPieces(x: string, y: string, z: string)
    ensures (x + y + z)[0..|x|] == x
    ensures (x + y + z)[|x|..|x| + |y|] == y
    ensures (x + y + z)[|x| + |y|..|x + y + z|] == z
  {
  }

  /** A slice of an occurrence of `w` at `j` is the same slice of `w`. */
  lemma OccurrencePiece(s: string, w: string, j: nat, a: nat, b: nat)
    requires j <= |s| && OccursAt(s, w, j) && a <= b <= |w|
    ensures s[j + a..j + b] == w[a..b]
  {
    SliceOfSlice(s, j, j + |w|, a, b - a);
  }

  /** A version in `s` at `q` holds no `"`. */
  lemma NoQuoteBefore(s: string, v: string, q: nat)
    requires IsVersion(v) && q + |v| <= |s| && s[q..q + |v|] == v
    ensures forall i :: q <= i < q + |v| ==> !OccursAt(s, "\"", i)
  {
    VersionChars(v);
    forall i | q <= i < q + |v| ensures !OccursAt(s, "\"", i) {
      assert s[i] == v[i - q];
    }
  }

  /** The first index at or after `i` where the pattern matches (`re.search`). */
  function FirstMatchFrom(s: string, i: nat): (r: Option<nat>)
    requires i <= |s|
    ensures r.Some? ==> i <= r.value <= |s| && VersionAt(s, r.value).Some?
    ensures r.Some? ==> forall j :: i <= j < r.value ==> VersionAt(s, j).None?
    ensures r.None? ==> forall j :: i <= j <= |s| ==> VersionAt(s, j).None?
    decreases |s| - i
  {
    if VersionAt(s, i).Some? then Some(i)
    else if i == |s| then None
    else FirstMatchFrom(s, i + 1)
  }

  /** `get_current_version` on the file's content; the result is always a version. */
  function GetCurrentVersion(content: string): (r: Result<string, ReleaseError>)
    ensures r.Ok? ==> IsVersion(r.value)
    ensures r.Err? ==> r.error == VersionNotFound
  {
    match FirstMatchFrom(content, 0)
    case None => Err(VersionNotFound)
    case Some(j) =>
      var v := VersionAt(content, j).value;
      VersionAtMatches(content, j, v);
      Ok(v)
  }

  /** The version found is the group of the first place where the pattern matches. */
  lemma FirstMatchIsCurrentVersion(content: string, j: nat, v: string)
    requires j <= |content| && MatchesAt(content, j, v)
    requires forall i: nat, w :: i < j ==> !MatchesAt(content, i, w)
    ensures GetCurrentVersion(content) == Ok(v)
  {
    VersionAtMatches(content, j, v);
    forall i: nat | i < j ensures VersionAt(content, i).None? {
      if VersionAt(content, i).Some? {
        VersionAtMatches(content, i, VersionAt(content, i).value);
      }
    }
    var r := FirstMatchFrom(content, 0);
    assert r.Some?;
    assert r.value == j;
  }

  /** The search fails, with `ValueError`, exactly when the pattern matches nowhere. */
  lemma NoMatchIsError(content: string)
    ensures GetCurrentVersion(content).Err? <==> forall j: nat, v :: j <= |content| ==> !MatchesAt(content, j, v)
  {
    if GetCurrentVersion(content).Err? {
      forall j: nat, v | j <= |content| ensures !MatchesAt(content, j, v) {
        VersionAtMatches(content, j, v);
      }
    } else {
      var j := FirstMatchFrom(content, 0).value;
      VersionAtMatches(content, j, GetCurrentVersion(content).value);
    }
  }

  // ---------------------------------------------------------------------
  // increment_patch_version: map(int, version.split(".")), then an f-string
  // ---------------------------------------------------------------------

  function DigitValue(c: char): nat
    requires IsAsciiDigit(c)
  {
    c as int - '0' as int
  }

  function ValueDigit(d: nat): (c: char)
    requires d < 10
    ensures IsAsciiDigit(c) && DigitValue(c) == d
  {
    ('0' as int + d) as char
  }

  /**
   * Decimal digits with single underscores between them, as `int()`
   * accepts: a digit, or a run followed by a digit or by `_` and a digit.
   */
  predicate IsDigitRun(t: string)
    decreases |t|
  {
    && |t| >= 1
    && IsAsciiDigit(t[|t| - 1])
    && (|| |t| == 1
        || IsDigitRun(t[..|t| - 1])
        || (|t| >= 3 && t[|t| - 2] == '_' && IsDigitRun(t[..|t| - 2])))
  }

  /** The number a digit run denotes; underscores are skipped. */
  function Value(t: string): nat
    requires IsDigitRun(t)
    decreases |t|
  {
    var d := DigitValue(t[|t| - 1]);
    if |t| == 1 then d
    else if t[|t| - 2] == '_' then
      assert t[..|t| - 1][|t| - 2] == '_';
      assert !IsDigitRun(t[..|t| - 1]);
      10 * Value(t[..|t| - 2]) + d
    else 10 * Value(t[..|t| - 1]) + d
  }

  /** Plain digits form a run. */
  lemma {:induction false} DigitsAreRun(t: string)
    requires IsDigits(t)
    ensures IsDigitRun(t)
    decreases |t|
  {
    if |t| > 1 {
      DigitsAreRun(t[..|t| - 1]);
    }
  }

  /** `int(s)`: surrounding whitespace, an optional sign, then a digit run. */
  function ParseInt(s: string): Option<int> {
    var t := Strip(s);
    if t != [] && (t[0] == '+' || t[0] == '-') then
      if IsDigitRun(t[1..]) then
        var n: int := Value(t[1..]);
        Some(if t[0] == '-' then -n else n)
      else None
    else if IsDigitRun(t) then Some(Value(t))
    else None
  }

  /** `str(n)` for a natural number: its decimal digits, most significant first. */
  function FormatNat(n: nat): (r: string)
    ensures |r| >= 1 && forall k :: 0 <= k < |r| ==> IsAsciiDigit(r[k])
  {
    if n < 10 then [ValueDigit(n)]
    else FormatNat(n / 10) + [ValueDigit(n % 10)]
  }

  /** `str(n)`. */
  function FormatInt(n: int): (r: string)
    ensures '.' !in r && r != []
  {
    if n < 0 then "-" + FormatNat(-n) else FormatNat(n)
  }

  lemma {:induction false} ValueOfFormat(n: nat)
    ensures IsDigitRun(FormatNat(n)) && Value(FormatNat(n)) == n
  {
    if n >= 10 {
      ValueOfFormat(n / 10);
      var t := FormatNat(n);
      assert t[..|t| - 1] == FormatNat(n / 10);
    }
  }

  /** `int(str(n)) == n`. */
  lemma ParseFormat(n: int)
    ensures ParseInt(FormatInt(n)) == Some(n)
  {
    if n < 0 {
      ParseNegative(-n);
    } else {
      ParseNonNegative(n);
    }
  }

  /** `int("-" + str(m)) == -m` for a positive `m`. */
  lemma ParseNegative(m: nat)
    requires m > 0
    ensures ParseInt("-" + FormatNat(m)) == Some(-(m as int))
  {
    var d := FormatNat(m);
    var t := "-" + d;
    assert t[0] == '-' && !IsSpace(t[0]);
    assert t[|t| - 1] == d[|d| - 1] && !IsSpace(t[|t| - 1]);
    StripUnpadded(t);
    assert t[1..] == d;
    ValueOfFormat(m);
  }

  /** `int(str(m)) == m` for a natural `m`. */
  lemma ParseNonNegative(m: nat)
    ensures ParseInt(FormatNat(m)) == Some(m)
  {
    var d := FormatNat(m);
    assert !IsSpace(d[0]) && !IsSpace(d[|d| - 1]);
    StripUnpadded(d);
    assert d[0] != '+' && d[0] != '-';
    ValueOfFormat(m);
  }

  /** A parsed `major.minor.patch`. */
  datatype Version = Version(major: int, minor: int, patch: int)

  /** `map(int, version.split("."))` unpacked into three names; None stands for `ValueError`. */
  function ParseVersion(v: string): Option<Version> {
    var parts := Split(v, ".");
    if |parts| != 3 then None
    else match (ParseInt(parts[0]), ParseInt(parts[1]), ParseInt(parts[2]))
      case (Some(a), Some(b), Some(c)) => Some(Version(a, b, c))
      case _ => None
  }

  /** `f"{major}.{minor}.{patch}"`. */
  function FormatVersion(x: Version): string {
    FormatInt(x.major) + "." + FormatInt(x.minor) + "." + FormatInt(x.patch)
  }

  /** Formatting a version and parsing it back gives the same three numbers. */
  lemma ParseFormatVersion(x: Version)
    ensures ParseVersion(FormatVersion(x)) == Some(x)
  {
    DottedSplit(FormatInt(x.major), FormatInt(x.minor), FormatInt(x.patch));
    ParseFormat(x.major);
    ParseFormat(x.minor);
    ParseFormat(x.patch);
  }

  /**
   * `increment_patch_version`: the result parses back to the input's numbers
   * with the patch number one higher; an input that does not unpack into
   * three integers is an error.
   */
  function IncrementPatchVersion(v: string): (r: Result<string, ReleaseError>)
    ensures r.Err? <==> ParseVersion(v).None?
    ensures r.Err? ==> r.error == InvalidVersion(v)
    ensures r.Ok? ==> ParseVersion(r.value) == Some(ParseVersion(v).value.(patch := ParseVersion(v).value.patch + 1))
  {
    match ParseVersion(v)
    case None => Err(InvalidVersion(v))
    case Some(x) =>
      var y := x.(patch := x.patch + 1);
      ParseFormatVersion(y);
      Ok(FormatVersion(y))
  }

  lemma DigitsParse(a: string)
    requires IsDigits(a)
    ensures IsDigitRun(a) && ParseInt(a) == Some(Value(a))
  {
    DigitsAreRun(a);
    StripUnpadded(a);
  }

  /** A dotted decimal version parses to the values of its three pieces. */
  lemma DecimalVersionParses(a: string, b: string, c: string)
    requires IsDigits(a) && IsDigits(b) && IsDigits(c)
    ensures IsDigitRun(a) && IsDigitRun(b) && IsDigitRun(c)
    ensures ParseVersion(a + "." + b + "." + c) == Some(Version(Value(a), Value(b), Value(c)))
  {
    DottedSplit(a, b, c);
    DigitsParse(a);
    DigitsParse(b);
    DigitsParse(c);
  }

  /**
   * For `a.b.c` with decimal pieces, `increment_patch_version` succeeds; its
   * result is the canonical text of `(a, b, c + 1)`, parses back to those
   * numbers and is again a version the lookup pattern captures.
   */
  lemma IncrementDecimalVersion(v: string, a: string, b: string, c: string)
    requires IsDigits(a) && IsDigits(b) && IsDigits(c) && v == a + "." + b + "." + c
    ensures IsDigitRun(a) && IsDigitRun(b) && IsDigitRun(c)
    ensures IncrementPatchVersion(v).Ok?
    ensures IncrementPatchVersion(v).value == FormatVersion(Version(Value(a), Value(b), Value(c) + 1))
    ensures ParseVersion(IncrementPatchVersion(v).value) == Some(Version(Value(a), Value(b), Value(c) + 1))
    ensures IsVersion(IncrementPatchVersion(v).value)
  {
    DecimalVersionParses(a, b, c);
    IncrementParsed(v, a, b, c);
    FormattedIsVersion(Version(Value(a), Value(b), Value(c) + 1));
  }

  lemma IncrementParsed(v: string, a: string, b: string, c: string)
    requires IsDigitRun(a) && IsDigitRun(b) && IsDigitRun(c)
    requires ParseVersion(v) == Some(Version(Value(a), Value(b), Value(c)))
    ensures IncrementPatchVersion(v).Ok?
    ensures IncrementPatchVersion(v).value == FormatVersion(Version(Value(a), Value(b), Value(c) + 1))
    ensures ParseVersion(IncrementPatchVersion(v).value) == Some(Version(Value(a), Value(b), Value(c) + 1))
  {
    var r := IncrementPatchVersion(v);
    assert r.Ok?;
  }

  /** Three non-negative numbers, formatted, are a version the lookup pattern captures. */
  lemma FormattedIsVersion(x: Version)
    requires x.major >= 0 && x.minor >= 0 && x.patch >= 0
    ensures IsVersion(FormatVersion(x)) && IsVersionText(FormatVersion(x))
  {
    var a, b, c := FormatNat(x.major), FormatNat(x.minor), FormatNat(x.patch);
    assert IsDigits(a) && IsDigits(b) && IsDigits(c);
    assert FormatVersion(x) == a + "." + b + "." + c;
    VersionTextIff(FormatVersion(x));
  }

  /** A file whose version line holds a version `w` yields `w` on lookup. */
  lemma VersionLineFound(w: string)
    requires IsVersion(w)
    ensures GetCurrentVersion(VersionPrefix + w + "\"") == Ok(w)
  {
    var s := VersionPrefix + w + "\"";
    assert s[0..|s|] == s;
    FirstMatchIsCurrentVersion(s, 0, w);
  }

  /**
   * The release cycle repeats: the version written back after an increment
   * is again found by `get_current_version`.
   */
  lemma IncrementFoundAgain(content: string)
    requires GetCurrentVersion(content).Ok?
    ensures IncrementPatchVersion(GetCurrentVersion(content).value).Ok?
    ensures var w := IncrementPatchVersion(GetCurrentVersion(content).value).value;
      IsVersion(w) && GetCurrentVersion(VersionPrefix + w + "\"") == Ok(w)
  {
    var v := GetCurrentVersion(content).value;
    var a, b, c :| IsDigits(a) && IsDigits(b) && IsDigits(c) && v == a + "." + b + "." + c;
    IncrementDecimalVersion(v, a, b, c);
    VersionLineFound(IncrementPatchVersion(v).value);
  }

  /** Whatever `get_current_version` finds, `increment_patch_version` accepts. */
  lemma FoundVersionIncrements(content: string)
    requires GetCurrentVersion(content).Ok?
    ensures IncrementPatchVersion(GetCurrentVersion(content).value).Ok?
  {
    var v := GetCurrentVersion(content).value;
    var a, b, c :| IsDigits(a) && IsDigits(b) && IsDigits(c) && v == a + "." + b + "." + c;
    IncrementDecimalVersion(v, a, b, c);
  }

  // ---------------------------------------------------------------------
  // update_file_version: content.replace(old_version, new_version)
  // ---------------------------------------------------------------------

  /** The new content of a file whose version is rewritten. */
  function UpdateFileVersion(content: string, oldVersion: string, newVersion: string): string {
    Replace(content, oldVersion, newVersion)
  }

  /**
   * Every non-overlapping occurrence of the old version, scanned left to
   * right, becomes the new one; content without it is unchanged, and
   * rewriting a version to itself changes nothing.
   */
  lemma UpdateFileVersionSpec(content: string, oldVersion: string, newVersion: string)
    requires oldVersion != []
    ensures UpdateFileVersion(content, oldVersion, newVersion) == Join(Split(content, oldVersion), newVersion)
    ensures !Contains(content, oldVersion) ==> UpdateFileVersion(content, oldVersion, newVersion) == content
    ensures UpdateFileVersion(content, oldVersion, oldVersion) == content
  {
    ReplaceIsJoinOfSplit(content, oldVersion, newVersion);
    if !Contains(content, oldVersion) {
      ReplaceAbsent(content, oldVersion, newVersion);
    }
    ReplaceSelf(content, oldVersion);
  }

  /** A found version is never empty, so the rewrite is the split-and-join above. */
  lemma FoundVersionNonEmpty(content: string)
    requires GetCurrentVersion(content).Ok?
    ensures GetCurrentVersion(content).value != []
  {
    var v := GetCurrentVersion(content).value;
    var a, b, c :| IsDigits(a) && IsDigits(b) && IsDigits(c) && v == a + "." + b + "." + c;
  }

  // ---------------------------------------------------------------------
  // prompt_changelog: read lines until an empty one
  // ---------------------------------------------------------------------

  /** What a call to `input()` gives: a line, or Ctrl+C. */
  datatype Input = Line(text: string) | Interrupt

  /** How the prompt ends. */
  datatype Prompted =
    | Entries(entries: seq<string>)  // an empty line ended the list
    | Cancelled                      // KeyboardInterrupt: "Release cancelled", exit status 0
    | InputEnded                     // input() raised EOFError, which the script does not catch

  /** An input that the loop appends and reads past. */
  predicate Continues(x: Input) {
    x.Line? && Strip(x.text) != []
  }

  /** The stripped text of each input (Ctrl+C has none). */
  function Stripped(xs: seq<Input>): (r: seq<string>)
    ensures |r| == |xs|
  {
    if xs == [] then [] else [if xs[0].Line? then Strip(xs[0].text) else ""] + Stripped(xs[1..])
  }

  /** The prompt loop's outcome on a sequence of inputs. */
  function CollectEntries(inputs: seq<Input>): Prompted {
    if inputs == [] then InputEnded
    else match inputs[0]
      case Interrupt => Cancelled
      case Line(t) =>
        var e := Strip(t);
        if e == [] then Entries([])
        else match CollectEntries(inputs[1..])
          case Entries(es) => Entries([e] + es)
          case other => other
  }

  /** `es` followed by whatever the rest of the input yields. */
  function Prepend(es: seq<string>, p: Prompted): Prompted {
    match p
    case Entries(more) => Entries(es + more)
    case other => other
  }

  /** The loop of `prompt_changelog`, run over the given inputs. */
  method PromptChangelog(inputs: seq<Input>) returns (r: Prompted)
    ensures r == CollectEntries(inputs)
  {
    var entries: seq<string> := [];
    var i := 0;
    while true
      invariant 0 <= i <= |inputs|
      invariant CollectEntries(inputs) == Prepend(entries, CollectEntries(inputs[i..]))
      decreases |inputs| - i
    {
      if i == |inputs| {
        return InputEnded;
      }
      assert inputs[i..][1..] == inputs[i + 1..];
      match inputs[i]
      case Interrupt =>
        return Cancelled;
      case Line(t) =>
        var entry := Strip(t);
        if entry == [] {
          break;
        }
        assert entries + [entry] + [] == entries + [entry];
        PrependTwice(entries, entry, CollectEntries(inputs[i + 1..]));
        entries := entries + [entry];
        i := i + 1;
    }
    r := Entries(entries);
  }

  lemma PrependTwice(es: seq<string>, e: string, p: Prompted)
    ensures Prepend(es, Prepend([e], p)) == Prepend(es + [e], p)
  {
    if p.Entries? {
      assert es + ([e] + p.entries) == es + [e] + p.entries;
    }
  }

  /** `n` is the first input the loop does not read past. */
  predicate FirstStop(inputs: seq<Input>, n: nat) {
    && n < |inputs|
    && !Continues(inputs[n])
    && forall k :: 0 <= k < n ==> Continues(inputs[k])
  }

  /**
   * The loop stops at the first input that is Ctrl+C or empty after
   * stripping; for an empty line it returns the stripped lines before it,
   * in order.
   */
  lemma {:induction false} CollectEntriesAt(inputs: seq<Input>, n: nat)
    requires FirstStop(inputs, n)
    ensures CollectEntries(inputs) == if inputs[n].Interrupt? then Cancelled else Entries(Stripped(inputs[..n]))
  {
    if n > 0 {
      assert Continues(inputs[0]);
      CollectEntriesAt(inputs[1..], n - 1);
      assert inputs[..n][1..] == inputs[1..][..n - 1];
    }
  }

  /** Inputs that all carry text run out before the loop stops. */
  lemma {:induction false} CollectEntriesEnded(inputs: seq<Input>)
    requires forall k :: 0 <= k < |inputs| ==> Continues(inputs[k])
    ensures CollectEntries(inputs) == InputEnded
  {
    if inputs != [] {
      assert Continues(inputs[0]);
      CollectEntriesEnded(inputs[1..]);
    }
  }

  /**
   * Conversely, a returned list comes from an empty line right after the
   * entries, each entry is a non-empty stripped line, and they keep the
   * order they were typed in.
   */
  lemma {:induction false} EntriesShape(inputs: seq<Input>)
    requires CollectEntries(inputs).Entries?
    ensures var es := CollectEntries(inputs).entries;
      && FirstStop(inputs, |es|) && inputs[|es|].Line?
      && es == Stripped(inputs[..|es|])
      && forall k :: 0 <= k < |es| ==> es[k] != [] && Strip(es[k]) == es[k]
  {
    var es := CollectEntries(inputs).entries;
    if es != [] {
      assert inputs[0].Line? && Strip(inputs[0].text) != [];
      EntriesShape(inputs[1..]);
      assert es == [Strip(inputs[0].text)] + CollectEntries(inputs[1..]).entries;
      assert inputs[..|es|][1..] == inputs[1..][..|es| - 1];
    }
    StrippedClean(inputs[..|es|]);
  }

  /** The stripped text of lines the loop reads past is non-empty and strips to itself. */
  lemma {:induction false} StrippedClean(xs: seq<Input>)
    requires forall k :: 0 <= k < |xs| ==> Continues(xs[k])
    ensures forall k :: 0 <= k < |xs| ==> Stripped(xs)[k] != [] && Strip(Stripped(xs)[k]) == Stripped(xs)[k]
  {
    if xs != [] {
      assert Continues(xs[0]);
      StrippedClean(xs[1..]);
      var e := Strip(xs[0].text);
      StripSpec(xs[0].text);
      StripUnpadded(e);
      assert Stripped(xs) == [e] + Stripped(xs[1..]);
    }
  }

  // ---------------------------------------------------------------------
  // update_changelog_file: the entry block and where it goes
  // ---------------------------------------------------------------------

  /** The first lines of a changelog the script creates; they end with the rule. */
  const ChangelogHeader: string :=
    "# Changelog\n\nAll notable changes to this project will be documented in this file.\n\n---"

  /** The heading of a release section. */
  function SectionHeading(version: string, today: string): string {
    "\n## [" + version + "] \U{2014} " + today + "\n\n### \U{1F680} Changes\n"
  }

  /** One `- entry` line per entry, in order. */
  function Bullets(entries: seq<string>): string {
    if entries == [] then ""
    else Bullets(entries[..|entries| - 1]) + "- " + entries[|entries| - 1] + "\n"
  }

  /** The release section the script inserts. */
  function NewEntry(version: string, today: string, entries: seq<string>): string {
    SectionHeading(version, today) + Bullets(entries)
  }

  /** The loop that builds the section with `+=`. */
  method BuildNewEntry(version: string, today: string, entries: seq<string>) returns (s: string)
    ensures s == NewEntry(version, today, entries)
  {
    s := SectionHeading(version, today);
    for i := 0 to |entries|
      invariant s == SectionHeading(version, today) + Bullets(entries[..i])
    {
      assert entries[..i + 1][..i] == entries[..i];
      s := s + "- " + entries[i] + "\n";
    }
    assert entries[..|entries|] == entries;
  }

  /** The bullet lines are the entries with `- ` in front, each on its own line. */
  function Dashed(entries: seq<string>): (r: seq<string>)
    ensures |r| == |entries|
  {
    seq(|entries|, k requires 0 <= k < |entries| => "- " + entries[k])
  }

  lemma JoinSnoc(parts: seq<string>, x: string, sep: string)
    requires parts != []
    ensures Join(parts + [x], sep) == Join(parts, sep) + sep + x
    decreases |parts|
  {
    if |parts| == 1 {
      assert (parts + [x])[1..] == [x];
    } else {
      assert (parts + [x])[1..] == parts[1..] + [x];
      JoinSnoc(parts[1..], x, sep);
    }
  }

  lemma {:induction false} BulletsAsJoin(entries: seq<string>)
    ensures Bullets(entries) == Join(Dashed(entries) + [""], "\n")
  {
    if entries != [] {
      var init, e := entries[..|entries| - 1], entries[|entries| - 1];
      BulletsAsJoin(init);
      assert entries == init + [e];
      BulletsSnoc(init, e);
    }
  }

  /** One more entry adds one more dashed line before the final newline. */
  lemma BulletsSnoc(init: seq<string>, e: string)
    requires Bullets(init) == Join(Dashed(init) + [""], "\n")
    ensures Bullets(init + [e]) == Join(Dashed(init + [e]) + [""], "\n")
  {
    var d, y := Dashed(init), "- " + e;
    assert (init + [e])[..|init|] == init;
    assert Bullets(init + [e]) == Bullets(init) + y + "\n";
    assert Dashed(init + [e]) == d + [y];
    JoinSnoc(d + [y], "", "\n");
    if init == [] {
      assert d + [y] == [y];
    } else {
      JoinSnoc(d, y, "\n");
      JoinSnoc(d, "", "\n");
    }
  }

  /** One-line entries can be read back by splitting the bullet lines at newlines. */
  lemma BulletsRecoverable(entries: seq<string>)
    requires forall k :: 0 <= k < |entries| ==> '\n' !in entries[k]
    ensures Split(Bullets(entries), "\n") == Dashed(entries) + [""]
  {
    BulletsAsJoin(entries);
    var parts := Dashed(entries) + [""];
    forall k | 0 <= k < |parts| ensures '\n' !in parts[k] {
      if k < |entries| {
        assert parts[k] == "- " + entries[k];
      }
    }
    SplitJoin(parts, '\n');
  }

  const Rule: string := "---"

  /**
   * The changelog after `update_changelog_file`, given its old content (None
   * when the file is missing); None when the file is left as it was.
   */
  function UpdatedChangelog(version: string, today: string, entries: seq<string>, existing: Option<string>): Option<string> {
    if entries == [] then None
    else
      var block := NewEntry(version, today, entries);
      match existing
      case None => Some(ChangelogHeader + block)
      case Some(content) =>
        if Contains(content, Rule) then
          var parts := SplitOnce(content, Rule);
          Some(parts[0] + Rule + block + parts[1])
        else Some(block + "\n" + content)
  }

  /** `update_changelog_file` with its loop, given the old content. */
  method UpdateChangelogFile(version: string, today: string, entries: seq<string>, existing: Option<string>)
    returns (r: Option<string>)
    ensures r == UpdatedChangelog(version, today, entries, existing)
  {
    if entries == [] {
      return None;
    }
    var block := BuildNewEntry(version, today, entries);
    match existing
    case None =>
      r := Some(ChangelogHeader + block);
    case Some(content) =>
      if Contains(content, Rule) {
        var parts := SplitOnce(content, Rule);
        r := Some(parts[0] + Rule + block + parts[1]);
      } else {
        r := Some(block + "\n" + content);
      }
  }

  /** No entries, no write. */
  lemma NoEntriesNoWrite(version: string, today: string, entries: seq<string>, existing: Option<string>)
    ensures UpdatedChangelog(version, today, entries, existing).None? <==> entries == []
  {
  }

  /**
   * With a rule in the file, the section goes right after the first rule:
   * the text before it, the rule, the section, the rest; cutting the
   * section out gives back the old content.
   */
  lemma InsertedAfterFirstRule(version: string, today: string, entries: seq<string>, content: string)
    requires entries != [] && Contains(content, Rule)
    ensures var r := UpdatedChangelog(version, today, entries, Some(content)).value;
      var block := NewEntry(version, today, entries);
      var i := IndexOf(content, Rule).value;
      && r == content[..i] + Rule + block + content[i + |Rule|..]
      && !Contains(content[..i], Rule)
      && r[..i + |Rule|] + r[i + |Rule| + |block|..] == content
  {
    var block := NewEntry(version, today, entries);
    var parts := SplitOnce(content, Rule);
    var i := IndexOf(content, Rule).value;
    assert parts == [content[..i], content[i + |Rule|..]];
    var r := parts[0] + Rule + block + parts[1];
    assert r[..i + |Rule|] == parts[0] + Rule;
    assert r[i + |Rule| + |block|..] == parts[1];
    assert content == parts[0] + Rule + parts[1];
  }

  /** Without a rule, the section and a blank line go on top and the old content follows. */
  lemma InsertedOnTop(version: string, today: string, entries: seq<string>, content: string)
    requires entries != [] && !Contains(content, Rule)
    ensures var r := UpdatedChangelog(version, today, entries, Some(content)).value;
      var block := NewEntry(version, today, entries);
      && r == block + "\n" + content
      && r[|block| + 1..] == content
  {
  }

  /**
   * A missing changelog is created as the header, which ends with the rule,
   * then the section.
   */
  lemma CreatedWithHeader(version: string, today: string, entries: seq<string>)
    requires entries != []
    ensures var r := UpdatedChangelog(version, today, entries, None).value;
      && r == ChangelogHeader + NewEntry(version, today, entries)
      && r[|ChangelogHeader| - |Rule|..|ChangelogHeader|] == Rule
  {
    var r := UpdatedChangelog(version, today, entries, None).value;
    assert r[..|ChangelogHeader|] == ChangelogHeader;
  }
}
