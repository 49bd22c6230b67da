/** The JavaScript string operations the server relies on, written out over
    `seq<char>`: regular-expression digit runs, `replace`, `includes`,
    `substring`, `trim`, `split`, and the decimal rendering of integers in
    template strings. */
module Text {
  import opened Wrappers

  // ---------------------------------------------------------------------
  // Character classes
  // ---------------------------------------------------------------------

  /** `\d` in a JavaScript regular expression: ASCII digits only. */
  predicate IsDigit(c: char) {
    '0' <= c <= '9'
  }

  /** `\w` in a JavaScript regular expression without the `u`/`i` flags. */
  predicate IsWordChar(c: char) {
    IsDigit(c) || 'a' <= c <= 'z' || 'A' <= c <= 'Z' || c == '_'
  }

  /** The characters `String.prototype.trim` removes: WhiteSpace and
      LineTerminator of ECMAScript. */
  predicate IsJsSpace(c: char) {
    c == '\t' || c == '\n' || c == '\U{000B}' || c == '\U{000C}' || c == '\r' || c == ' '
    || c == '\U{00A0}' || c == '\U{1680}' || ('\U{2000}' <= c <= '\U{200A}')
    || c == '\U{2028}' || c == '\U{2029}' || c == '\U{202F}' || c == '\U{205F}'
    || c == '\U{3000}' || c == '\U{FEFF}'
  }

  predicate AllDigits(s: string) {
    forall i | 0 <= i < |s| :: IsDigit(s[i])
  }

  predicate AllSpace(s: string) {
    forall i | 0 <= i < |s| :: IsJsSpace(s[i])
  }

  /** The two classes a global regular-expression match is taken over. */
  datatype CharClass = Digits | Word

  predicate InClass(c: char, cls: CharClass) {
    match cls
    case Digits => IsDigit(c)
    case Word => IsWordChar(c)
  }

  // ---------------------------------------------------------------------
  // Prefixes, suffixes and `substring`
  // ---------------------------------------------------------------------

  predicate StartsWith(s: string, prefix: string) {
    |prefix| <= |s| && s[..|prefix|] == prefix
  }

  predicate EndsWith(s: string, suffix: string) {
    |suffix| <= |s| && s[|s| - |suffix|..] == suffix
  }

  /** `s.substring(0, n)` for a non-negative `n`. */
  function Take(s: string, n: nat): (r: string)
    ensures |r| == if n < |s| then n else |s|
    ensures StartsWith(s, r)
  {
    if n < |s| then s[..n] else s
  }

  /** `a || d` where `a` is a string that may be missing: JavaScript treats
      the empty string as false. */
  function OrElse(a: Option<string>, d: string): string {
    if a.Some? && a.value != "" then a.value else d
  }

  // ---------------------------------------------------------------------
  // `replace(/\D/g, '')` and `match(/\d+/g)`
  // ---------------------------------------------------------------------

  /** `s.replace(/\D/g, '')`: the digits of `s`, in order. */
  function KeepDigits(s: string): (r: string)
    ensures AllDigits(r)
    ensures |r| <= |s|
  {
    if s == [] then []
    else (if IsDigit(s[0]) then [s[0]] else []) + KeepDigits(s[1..])
  }

  lemma {:induction false} KeepDigitsAppend(a: string, b: string)
    ensures KeepDigits(a + b) == KeepDigits(a) + KeepDigits(b)
  {
    if a != [] {
      assert (a + b)[0] == a[0];
      assert (a + b)[1..] == a[1..] + b;
      KeepDigitsAppend(a[1..], b);
    } else {
      assert a + b == b;
    }
  }

  /** A string without digits keeps nothing. */
  lemma {:induction false} KeepDigitsOfNoDigits(s: string)
    requires forall k | 0 <= k < |s| :: !IsDigit(s[k])
    ensures KeepDigits(s) == []
  {
    if s != [] {
      assert !IsDigit(s[0]);
      KeepDigitsOfNoDigits(s[1..]);
    }
  }

  /** Keeping the digits of a string made of digits changes nothing. */
  lemma {:induction false} KeepDigitsOfDigits(s: string)
    requires AllDigits(s)
    ensures KeepDigits(s) == s
  {
    if s != [] {
      KeepDigitsOfDigits(s[1..]);
    }
  }

  /** Length of the run of `cls` characters that starts `s`. */
  function LeadingRun(s: string, cls: CharClass): (n: nat)
    ensures n <= |s|
    ensures forall i | 0 <= i < n :: InClass(s[i], cls)
    ensures n < |s| ==> !InClass(s[n], cls)
  {
    if s == [] || !InClass(s[0], cls) then 0 else 1 + LeadingRun(s[1..], cls)
  }

  /** The maximal runs of `cls` characters of `s`, left to right: for
      `Digits` this is `s.match(/\d+/g)` (with `[]` for `null`). */
  function Runs(s: string, cls: CharClass): (runs: seq<string>)
    ensures forall k | 0 <= k < |runs| :: |runs[k]| > 0
    ensures forall k, i | 0 <= k < |runs| && 0 <= i < |runs[k]| :: InClass(runs[k][i], cls)
    decreases |s|
  {
    if s == [] then []
    else if !InClass(s[0], cls) then Runs(s[1..], cls)
    else
      var n := LeadingRun(s, cls);
      [s[..n]] + Runs(s[n..], cls)
  }

  function Concat(ss: seq<string>): string {
    if ss == [] then [] else ss[0] + Concat(ss[1..])
  }

  /** The digit runs of a string, glued back together, are exactly its
      digits: `match(/\d+/g)` and `replace(/\D/g, '')` see the same digits. */
  lemma {:induction false} DigitRunsAreDigits(s: string)
    ensures Concat(Runs(s, Digits)) == KeepDigits(s)
    decreases |s|
  {
    if s == [] {
    } else if !IsDigit(s[0]) {
      DigitRunsAreDigits(s[1..]);
    } else {
      var n := LeadingRun(s, Digits);
      assert s == s[..n] + s[n..];
      DigitRunsAreDigits(s[n..]);
      KeepDigitsAppend(s[..n], s[n..]);
      KeepDigitsOfDigits(s[..n]);
    }
  }

  // ---------------------------------------------------------------------
  // `includes`, `replace(/pat/g, r)` and `replace(pat, r)`
  // ---------------------------------------------------------------------

  /** `s.includes(p)` for a non-empty `p`. */
  predicate Occurs(s: string, p: string)
    requires |p| > 0
    decreases |s|
  {
    |s| >= |p| && (s[..|p|] == p || Occurs(s[1..], p))
  }

  /** `s.replace(/p/g, r)` for a literal pattern `p`: every non-overlapping
      occurrence, scanning from the left, is replaced by `r`. */
  function ReplaceAll(s: string, p: string, r: string): string
    requires |p| > 0
    decreases |s|
  {
    if |s| < |p| then s
    else if s[..|p|] == p then r + ReplaceAll(s[|p|..], p, r)
    else [s[0]] + ReplaceAll(s[1..], p, r)
  }

  /** Number of occurrences `ReplaceAll` replaces. */
  function Matches(s: string, p: string): nat
    requires |p| > 0
    decreases |s|
  {
    if |s| < |p| then 0
    else if s[..|p|] == p then 1 + Matches(s[|p|..], p)
    else Matches(s[1..], p)
  }

  lemma {:induction false} MatchesIffOccurs(s: string, p: string)
    requires |p| > 0
    ensures Matches(s, p) > 0 <==> Occurs(s, p)
    decreases |s|
  {
    if |s| >= |p| && s[..|p|] != p {
      MatchesIffOccurs(s[1..], p);
    }
  }

  /** Each replacement changes the length by `|r| - |p|`. */
  lemma {:induction false} ReplaceAllLength(s: string, p: string, r: string)
    requires |p| > 0
    ensures |ReplaceAll(s, p, r)| == |s| + Matches(s, p) * (|r| - |p|)
    decreases |s|
  {
    var d := |r| - |p|;
    if |s| < |p| {
    } else if s[..|p|] == p {
      var rest := s[|p|..];
      ReplaceAllLength(rest, p, r);
      var m := Matches(rest, p);
      var n := |ReplaceAll(rest, p, r)|;
      assert n == |rest| + m * d;
      Distribute(m, d);
    } else {
      ReplaceAllLength(s[1..], p, r);
    }
  }

  lemma Distribute(m: int, d: int)
    ensures (1 + m) * d == d + m * d
  {
  }

  /** Without an occurrence of the pattern, replacing changes nothing. */
  lemma {:induction false} ReplaceAllAbsent(s: string, p: string, r: string)
    requires |p| > 0 && !Occurs(s, p)
    ensures ReplaceAll(s, p, r) == s
    decreases |s|
  {
    if |s| >= |p| {
      ReplaceAllAbsent(s[1..], p, r);
      assert s == [s[0]] + s[1..];
    }
  }

  /** Replacing a pattern by itself gives back the original text. */
  lemma {:induction false} ReplaceAllSelf(s: string, p: string)
    requires |p| > 0
    ensures ReplaceAll(s, p, p) == s
    decreases |s|
  {
    if |s| < |p| {
    } else if s[..|p|] == p {
      ReplaceAllSelf(s[|p|..], p);
      assert s == s[..|p|] + s[|p|..];
    } else {
      ReplaceAllSelf(s[1..], p);
      assert s == [s[0]] + s[1..];
    }
  }

  /** A replacement of another length changes the length of any text in
      which the pattern occurs. */
  lemma ReplaceAllLengthChanges(s: string, p: string, r: string)
    requires |p| > 0 && |r| != |p| && Occurs(s, p)
    ensures |ReplaceAll(s, p, r)| != |s|
  {
    ReplaceAllLength(s, p, r);
    MatchesIffOccurs(s, p);
    NonZeroProduct(Matches(s, p), |r| - |p|);
  }

  lemma NonZeroProduct(m: int, d: int)
    requires m >= 1 && d != 0
    ensures d > 0 ==> m * d >= d
    ensures d < 0 ==> m * d <= d
  {
    if m > 1 {
      NonZeroProduct(m - 1, d);
      assert m * d == (m - 1) * d + d;
    }
  }

  /** With a replacement different from the pattern, the text changes
      exactly when the pattern occurs in it. */
  lemma {:induction false} ReplaceAllChangesIffOccurs(s: string, p: string, r: string)
    requires |p| > 0 && r != p
    ensures ReplaceAll(s, p, r) == s <==> !Occurs(s, p)
    decreases |s|
  {
    if !Occurs(s, p) {
      ReplaceAllAbsent(s, p, r);
    } else if s[..|p|] == p {
      if |r| == |p| {
        var out := ReplaceAll(s, p, r);
        assert out == r + ReplaceAll(s[|p|..], p, r);
        assert out[..|p|] == r;
      } else {
        ReplaceAllLengthChanges(s, p, r);
      }
    } else {
      ReplaceAllChangesIffOccurs(s[1..], p, r);
      assert ReplaceAll(s, p, r) == [s[0]] + ReplaceAll(s[1..], p, r);
      assert s == [s[0]] + s[1..];
    }
  }

  /** The replacement text of one match, as `replace` builds it from a
      replacement string: `$$` gives `$`, `$&` the match, `` $` `` the
      text before the match and `$'` the text after it; with no capture
      groups in the pattern every other `$` stands for itself. */
  function Expand(r: string, before: string, matched: string, after: string): string
    decreases |r|
  {
    if |r| >= 2 && r[0] == '$' && r[1] == '$' then "$" + Expand(r[2..], before, matched, after)
    else if |r| >= 2 && r[0] == '$' && r[1] == '&' then matched + Expand(r[2..], before, matched, after)
    else if |r| >= 2 && r[0] == '$' && r[1] == '`' then before + Expand(r[2..], before, matched, after)
    else if |r| >= 2 && r[0] == '$' && r[1] == '\'' then after + Expand(r[2..], before, matched, after)
    else if r == [] then []
    else [r[0]] + Expand(r[1..], before, matched, after)
  }

  /** A replacement without `$` is inserted as it is. */
  lemma {:induction false} ExpandPlain(r: string, before: string, matched: string, after: string)
    requires '$' !in r
    ensures Expand(r, before, matched, after) == r
    decreases |r|
  {
    if r != [] {
      assert r[0] != '$';
      assert '$' !in r[1..] by {
        forall c | c in r[1..] ensures c in r { }
      }
      ExpandPlain(r[1..], before, matched, after);
      assert r == [r[0]] + r[1..];
    }
  }

  /** `s.replace(/p/g, r)` from position `i` on: each non-overlapping
      occurrence is replaced by `r` with its `$` patterns expanded against
      the whole text. */
  function ReplaceAllFrom(s: string, i: nat, p: string, r: string): string
    requires |p| > 0 && i <= |s|
    decreases |s| - i
  {
    if |s| - i < |p| then s[i..]
    else if s[i..i + |p|] == p then Expand(r, s[..i], p, s[i + |p|..]) + ReplaceAllFrom(s, i + |p|, p, r)
    else [s[i]] + ReplaceAllFrom(s, i + 1, p, r)
  }

  /** `s.replace(/p/g, r)` for a literal pattern `p` and a replacement
      string `r`. */
  function JsReplaceAll(s: string, p: string, r: string): string
    requires |p| > 0
  {
    ReplaceAllFrom(s, 0, p, r)
  }

  /** For a replacement without `$`, `replace` is plain substitution. */
  lemma {:induction false} ReplaceAllFromPlain(s: string, i: nat, p: string, r: string)
    requires |p| > 0 && i <= |s| && '$' !in r
    ensures ReplaceAllFrom(s, i, p, r) == ReplaceAll(s[i..], p, r)
    decreases |s| - i
  {
    if |s| - i >= |p| {
      var hit := s[i..i + |p|] == p;
      var j := if hit then i + |p| else i + 1;
      ReplaceAllFromPlain(s, j, p, r);
      if hit {
        ExpandPlain(r, s[..i], p, s[i + |p|..]);
        PlainMatch(s, i, p, r);
      } else {
        PlainSkip(s, i, p, r);
      }
    }
  }

  lemma PlainMatch(s: string, i: nat, p: string, r: string)
    requires |p| > 0 && i + |p| <= |s| && s[i..i + |p|] == p
    requires Expand(r, s[..i], p, s[i + |p|..]) == r
    requires ReplaceAllFrom(s, i + |p|, p, r) == ReplaceAll(s[i + |p|..], p, r)
    ensures ReplaceAllFrom(s, i, p, r) == ReplaceAll(s[i..], p, r)
  {
    var t := s[i..];
    assert t[..|p|] == p;
    assert t[|p|..] == s[i + |p|..];
  }

  lemma PlainSkip(s: string, i: nat, p: string, r: string)
    requires |p| > 0 && i + |p| <= |s| && s[i..i + |p|] != p
    requires ReplaceAllFrom(s, i + 1, p, r) == ReplaceAll(s[i + 1..], p, r)
    ensures ReplaceAllFrom(s, i, p, r) == ReplaceAll(s[i..], p, r)
  {
    var t := s[i..];
    assert t[..|p|] == s[i..i + |p|];
    assert t[1..] == s[i + 1..];
  }

  lemma JsReplaceAllPlain(s: string, p: string, r: string)
    requires |p| > 0 && '$' !in r
    ensures JsReplaceAll(s, p, r) == ReplaceAll(s, p, r)
  {
    ReplaceAllFromPlain(s, 0, p, r);
    assert s[0..] == s;
  }

  lemma ExpandMatch(before: string, matched: string, after: string)
    ensures Expand("$&", before, matched, after) == matched
  {
    var e := "$&";
    assert e[2..] == [];
    assert Expand(e[2..], before, matched, after) == [];
  }

  /** A replacement that expands to the match wherever it occurs, such
      as `$&`, gives back the text. */
  lemma {:induction false} ReplaceAllFromByMatch(s: string, i: nat, p: string, e: string)
    requires |p| > 0 && i <= |s|
    requires forall before, after :: Expand(e, before, p, after) == p
    ensures ReplaceAllFrom(s, i, p, e) == s[i..]
    decreases |s| - i
  {
    if |s| - i >= |p| {
      var hit := s[i..i + |p|] == p;
      var j := if hit then i + |p| else i + 1;
      ReplaceAllFromByMatch(s, j, p, e);
      if hit {
        assert Expand(e, s[..i], p, s[i + |p|..]) == p;
        MatchKept(s, i, p, e);
      } else {
        SkipKept(s, i, p, e);
      }
    }
  }

  lemma SkipKept(s: string, i: nat, p: string, e: string)
    requires |p| > 0 && i + |p| <= |s| && s[i..i + |p|] != p
    requires ReplaceAllFrom(s, i + 1, p, e) == s[i + 1..]
    ensures ReplaceAllFrom(s, i, p, e) == s[i..]
  {
    assert s[i..] == [s[i]] + s[i + 1..];
  }

  lemma MatchKept(s: string, i: nat, p: string, e: string)
    requires |p| > 0 && i + |p| <= |s| && s[i..i + |p|] == p
    requires Expand(e, s[..i], p, s[i + |p|..]) == p
    requires ReplaceAllFrom(s, i + |p|, p, e) == s[i + |p|..]
    ensures ReplaceAllFrom(s, i, p, e) == s[i..]
  {
    assert s[i..] == p + s[i + |p|..];
  }

  lemma JsReplaceAllByMatch(s: string, p: string)
    requires |p| > 0
    ensures JsReplaceAll(s, p, "$&") == s
  {
    forall before, after ensures Expand("$&", before, p, after) == p {
      ExpandMatch(before, p, after);
    }
    ReplaceAllFromByMatch(s, 0, p, "$&");
    assert s[0..] == s;
  }

  /** Without an occurrence of the pattern, `replace` changes nothing. */
  lemma {:induction false} ReplaceAllFromAbsent(s: string, i: nat, p: string, r: string)
    requires |p| > 0 && i <= |s| && !Occurs(s[i..], p)
    ensures ReplaceAllFrom(s, i, p, r) == s[i..]
    decreases |s| - i
  {
    var t := s[i..];
    if |s| - i >= |p| {
      assert t[..|p|] == s[i..i + |p|];
      assert t[1..] == s[i + 1..];
      ReplaceAllFromAbsent(s, i + 1, p, r);
      assert s[i..] == [s[i]] + s[i + 1..];
    }
  }

  /** `s.replace(p, r)` with a string pattern: only the first occurrence. */
  function ReplaceFirst(s: string, p: string, r: string): (res: string)
    requires |p| > 0
    ensures !Occurs(s, p) ==> res == s
    ensures Occurs(s, p) ==> |res| == |s| - |p| + |r|
    decreases |s|
  {
    if |s| < |p| then s
    else if s[..|p|] == p then r + s[|p|..]
    else [s[0]] + ReplaceFirst(s[1..], p, r)
  }

  /** Removing the first occurrence of a suffix that starts with a
      non-digit from "digits + suffix" leaves exactly the digits. */
  lemma {:induction false} ReplaceFirstAfterDigits(d: string, p: string)
    requires |p| > 0 && !IsDigit(p[0]) && AllDigits(d)
    ensures ReplaceFirst(d + p, p, "") == d
    decreases |d|
  {
    var s := d + p;
    if d == [] {
      assert s[..|p|] == p;
      assert s[|p|..] == [];
    } else {
      assert s[0] == d[0];
      assert s[..|p|] != p by {
        assert s[..|p|][0] == d[0];
      }
      assert s[1..] == d[1..] + p;
      ReplaceFirstAfterDigits(d[1..], p);
    }
  }

  // ---------------------------------------------------------------------
  // `trim`
  // ---------------------------------------------------------------------

  function TrimStart(s: string): (r: string)
    ensures |r| <= |s| && r == s[|s| - |r|..]
    ensures r == [] || !IsJsSpace(r[0])
    ensures AllSpace(s[..|s| - |r|])
  {
    if s == [] || !IsJsSpace(s[0]) then s
    else
      var t := s[1..];
      var r := TrimStart(t);
      assert s[|s| - |r|..] == t[|t| - |r|..];
      assert s[..|s| - |r|] == [s[0]] + t[..|t| - |r|];
      SpaceConcat([s[0]], t[..|t| - |r|]);
      r
  }

  function TrimEnd(s: string): (r: string)
    ensures |r| <= |s| && r == s[..|r|]
    ensures r == [] || !IsJsSpace(r[|r| - 1])
    ensures AllSpace(s[|r|..])
  {
    if s == [] || !IsJsSpace(s[|s| - 1]) then s
    else
      var t := s[..|s| - 1];
      var r := TrimEnd(t);
      assert s[..|r|] == t[..|r|];
      assert s[|r|..] == t[|r|..] + [s[|s| - 1]];
      SpaceConcat(t[|r|..], [s[|s| - 1]]);
      r
  }

  /** `s.trim()`: a middle slice of `s`, the parts cut off are all white
      space, and the result is empty exactly when `s` is all white space. */
  function Trim(s: string): (r: string)
    ensures exists i, j | 0 <= i <= j <= |s| :: r == s[i..j] && AllSpace(s[..i]) && AllSpace(s[j..])
    ensures r == [] || (!IsJsSpace(r[0]) && !IsJsSpace(r[|r| - 1]))
    ensures r == [] <==> AllSpace(s)
  {
    var a := TrimStart(s);
    var b := TrimEnd(a);
    TrimParts(s, a, b);
    b
  }

  lemma TrimParts(s: string, a: string, b: string)
    requires a == TrimStart(s) && b == TrimEnd(a)
    ensures exists i, j | 0 <= i <= j <= |s| :: b == s[i..j] && AllSpace(s[..i]) && AllSpace(s[j..])
    ensures b == [] || (!IsJsSpace(b[0]) && !IsJsSpace(b[|b| - 1]))
    ensures b == [] <==> AllSpace(s)
  {
    var i := |s| - |a|;
    var j := i + |b|;
    SliceOfSlice(s, a, b, i);
    if b == [] {
      assert AllSpace(s) by {
        SpaceConcat(s[..i], s[j..]);
        assert s[..i] + s[j..] == s;
      }
    } else {
      assert b[0] == a[0] == s[i];
      assert !AllSpace(s) by {
        assert !IsJsSpace(s[i]);
      }
    }
  }

  /** A prefix `b` of the suffix `a` of `s` that starts at `i`. */
  lemma SliceOfSlice(s: string, a: string, b: string, i: nat)
    requires i <= |s| && a == s[i..] && |b| <= |a| && b == a[..|b|]
    ensures b == s[i..i + |b|] && s[i + |b|..] == a[|b|..]
  {
  }

  lemma SpaceConcat(x: string, y: string)
    requires AllSpace(x) && AllSpace(y)
    ensures AllSpace(x + y)
  {
    forall k | 0 <= k < |x + y| ensures IsJsSpace((x + y)[k]) {
      if k < |x| {
        assert (x + y)[k] == x[k];
      } else {
        assert (x + y)[k] == y[k - |x|];
      }
    }
  }

  // ---------------------------------------------------------------------
  // `split` on one character, and its inverse
  // ---------------------------------------------------------------------

  /** `s.split(sep)` for a one-character separator. */
  function Split(s: string, sep: char): (parts: seq<string>)
    ensures |parts| > 0
    ensures forall k | 0 <= k < |parts| :: sep !in parts[k]
    decreases |s|
  {
    if s == [] then [""]
    else
      var rest := Split(s[1..], sep);
      if s[0] == sep then [""] + rest else [[s[0]] + rest[0]] + rest[1..]
  }

  /** `parts.join(sep)`. */
  function Join(parts: seq<string>, sep: char): string
    requires |parts| > 0
  {
    if |parts| == 1 then parts[0] else parts[0] + [sep] + Join(parts[1..], sep)
  }

  /** Splitting and joining again gives back the original text. */
  lemma {:induction false} JoinSplit(s: string, sep: char)
    ensures Join(Split(s, sep), sep) == s
    decreases |s|
  {
    if s != [] {
      JoinSplit(s[1..], sep);
      var rest := Split(s[1..], sep);
      if s[0] != sep {
        if |rest| == 1 {
          assert Join(rest, sep) == rest[0];
        } else {
          assert Join(rest, sep) == rest[0] + [sep] + Join(rest[1..], sep);
        }
      }
    }
  }

  /** Text without the separator is a single part. */
  lemma {:induction false} SplitNoSep(s: string, sep: char)
    requires sep !in s
    ensures Split(s, sep) == [s]
    decreases |s|
  {
    if s != [] {
      assert sep !in s[1..] by {
        assert forall c | c in s[1..] :: c in s;
      }
      SplitNoSep(s[1..], sep);
      assert [s[0]] + s[1..] == s;
    }
  }

  /** The part before the first separator comes first, then the parts
      of what follows it. */
  lemma {:induction false} SplitAtFirst(a: string, sep: char, b: string)
    requires sep !in a
    ensures Split(a + [sep] + b, sep) == [a] + Split(b, sep)
    decreases |a|
  {
    var s := a + [sep] + b;
    if a == [] {
      assert s == [sep] + b;
      assert s[1..] == b;
    } else {
      assert sep !in a[1..] by {
        assert forall c | c in a[1..] :: c in a;
      }
      SplitAtFirst(a[1..], sep, b);
      assert s[1..] == a[1..] + [sep] + b;
      assert [a[0]] + a[1..] == a;
    }
  }

  // ---------------------------------------------------------------------
  // Decimal rendering of non-negative integers (`${n}`)
  // ---------------------------------------------------------------------

  function DigitValue(c: char): nat
    requires IsDigit(c)
  {
    c as int - '0' as int
  }

  function DigitChar(d: nat): (c: char)
    requires d < 10
    ensures IsDigit(c) && DigitValue(c) == d
  {
    ('0' as int + d) as char
  }

  /** The decimal text of `n`, as a template string renders an integer. */
  function NatToString(n: nat): (r: string)
    ensures |r| > 0 && AllDigits(r)
  {
    if n < 10 then [DigitChar(n)] else NatToString(n / 10) + [DigitChar(n % 10)]
  }

  function ParseNat(s: string): nat
    requires AllDigits(s)
  {
    if s == [] then 0 else 10 * ParseNat(s[..|s| - 1]) + DigitValue(s[|s| - 1])
  }

  /** Reading back the decimal text of `n` gives `n`. */
  lemma {:induction false} ParseNatToString(n: nat)
    ensures ParseNat(NatToString(n)) == n
  {
    if n >= 10 {
      ParseNatToString(n / 10);
      var s := NatToString(n);
      assert s[..|s| - 1] == NatToString(n / 10);
    }
  }
}
