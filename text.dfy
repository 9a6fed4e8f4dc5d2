/** The JavaScript string operations the core relies on, over `seq<char>`:
    `trim`, `startsWith`, `includes`, `indexOf`, `replace` of a literal
    pattern (first occurrence only), ASCII lower-casing, `split`/`join` on
    one separator character, decimal numerals and the code-unit order that
    `Array.prototype.sort` uses on strings. */
module Text {
  import opened Wrappers

  // ---------------------------------------------------------------------
  // Whitespace and trimming

  /** The characters `String.prototype.trim` removes: ECMAScript's
      WhiteSpace and LineTerminator productions. */
  predicate IsSpace(c: char) {
    c == ' ' || c == '\t' || c == '\n' || c == '\r' || c == '\U{000B}' || c == '\U{000C}'
    || c == '\U{00A0}' || c == '\U{1680}' || ('\U{2000}' <= c <= '\U{200A}')
    || c == '\U{2028}' || c == '\U{2029}' || c == '\U{202F}' || c == '\U{205F}'
    || c == '\U{3000}' || c == '\U{FEFF}'
  }

  /** Neither end of `s` is whitespace. */
  predicate IsTrimmed(s: string) {
    s == [] || (!IsSpace(s[0]) && !IsSpace(s[|s| - 1]))
  }

  /** Every character of `s` is whitespace. */
  predicate AllSpace(s: string) {
    forall i :: 0 <= i < |s| ==> IsSpace(s[i])
  }

  /** `s.trim()`: whitespace removed from the front, then from the back.
      The empty string exactly when `s` is all whitespace. */
  function Trim(s: string): (r: string)
    ensures IsTrimmed(r) && |r| <= |s|
    ensures r == [] <==> AllSpace(s)
    decreases |s|
  {
    if s == [] then s
    else if IsSpace(s[0]) then
      assert AllSpace(s) <==> AllSpace(s[1..]) by {
        if AllSpace(s[1..]) {
          forall i | 0 < i < |s| ensures IsSpace(s[i]) { assert s[i] == s[1..][i - 1]; }
        }
      }
      Trim(s[1..])
    else if IsSpace(s[|s| - 1]) then
      assert !AllSpace(s[..|s| - 1]) by { assert s[..|s| - 1][0] == s[0]; }
      Trim(s[..|s| - 1])
    else s
  }

  /** `s.trimStart()`: the suffix left after the leading whitespace. */
  function TrimStart(s: string): (r: string)
    ensures |r| <= |s| && r == s[|s| - |r|..]
    ensures r != [] ==> !IsSpace(r[0])
    ensures AllSpace(s[..|s| - |r|])
    decreases |s|
  {
    if s != [] && IsSpace(s[0]) then
      var r := TrimStart(s[1..]);
      assert s[..|s| - |r|] == [s[0]] + s[1..][..|s| - 1 - |r|];
      r
    else s
  }

  /** `s.trimEnd()`: the prefix left before the trailing whitespace. */
  function TrimEnd(s: string): (r: string)
    ensures |r| <= |s| && r == s[..|r|]
    ensures r != [] ==> !IsSpace(r[|r| - 1])
    ensures AllSpace(s[|r|..])
    decreases |s|
  {
    if s != [] && IsSpace(s[|s| - 1]) then
      var r := TrimEnd(s[..|s| - 1]);
      assert s[|r|..] == s[..|s| - 1][|r|..] + [s[|s| - 1]];
      r
    else s
  }

  /** `trim` is `trimStart` followed by `trimEnd`: the result is the part of
      `s` between its leading and its trailing whitespace. */
  lemma {:induction false} TrimBothEnds(s: string)
    ensures Trim(s) == TrimEnd(TrimStart(s))
    decreases |s|
  {
    if s != [] {
      if IsSpace(s[0]) {
        TrimBothEnds(s[1..]);
      } else if IsSpace(s[|s| - 1]) {
        var t := s[..|s| - 1];
        TrimBothEnds(t);
        assert t[0] == s[0];
        assert TrimEnd(s) == TrimEnd(t);
      }
    }
  }

  /** Trimming a trimmed string changes nothing. */
  lemma TrimOfTrimmed(s: string)
    requires IsTrimmed(s)
    ensures Trim(s) == s
  {
  }

  // ---------------------------------------------------------------------
  // Searching

  /** `s.startsWith(p)`. */
  predicate StartsWith(s: string, p: string) {
    |p| <= |s| && s[..|p|] == p
  }

  /** `s.includes(t)`. Every string includes the empty string. */
  predicate Contains(s: string, t: string)
    decreases |s|
  {
    StartsWith(s, t) || (s != [] && Contains(s[1..], t))
  }

  /** `includes` holds exactly when some suffix starts with `t`. */
  lemma {:induction false} ContainsAt(s: string, t: string)
    ensures Contains(s, t) <==> exists i :: 0 <= i <= |s| && StartsWith(s[i..], t)
    decreases |s|
  {
    assert s[0..] == s;
    if s != [] {
      ContainsAt(s[1..], t);
      if exists i :: 0 <= i <= |s| && StartsWith(s[i..], t) {
        var i :| 0 <= i <= |s| && StartsWith(s[i..], t);
        if i > 0 {
          assert s[1..][i - 1..] == s[i..];
        }
      }
      if Contains(s[1..], t) {
        var i :| 0 <= i <= |s[1..]| && StartsWith(s[1..][i..], t);
        assert s[1..][i..] == s[i + 1..];
        assert StartsWith(s[i + 1..], t);
      }
    }
  }

  /** `s.indexOf(p)`, with `None` for JavaScript's -1: the first position at
      which `p` occurs. */
  function IndexOf(s: string, p: string): (r: Option<nat>)
    ensures r.Some? ==> r.value <= |s| && StartsWith(s[r.value..], p)
    ensures r.Some? ==> forall j :: 0 <= j < r.value ==> !StartsWith(s[j..], p)
    ensures r.None? <==> !Contains(s, p)
    decreases |s|
  {
    if StartsWith(s, p) then Some(0)
    else if s == [] then None
    else
      var rest := IndexOf(s[1..], p);
      assert forall j :: 1 <= j <= |s| ==> s[1..][j - 1..] == s[j..];
      match rest
      case Some(i) => Some(i + 1)
      case None => None
  }

  /** `s.replace(p, '')` for a literal pattern: removes the first
      occurrence of `p` only. */
  function ReplaceFirst(s: string, p: string): (r: string)
    ensures IndexOf(s, p).None? ==> r == s
    ensures IndexOf(s, p).Some? ==> |r| == |s| - |p|
    ensures IndexOf(s, p).Some? ==> r == s[..IndexOf(s, p).value] + s[IndexOf(s, p).value + |p|..]
  {
    match IndexOf(s, p)
    case None => s
    case Some(i) => s[..i] + s[i + |p|..]
  }

  /** Removing the first occurrence of a non-empty pattern leaves nothing
      exactly when the string was empty or was the pattern itself. */
  lemma ReplaceFirstEmpty(s: string, p: string)
    requires p != []
    ensures ReplaceFirst(s, p) == [] <==> s == [] || s == p
  {
    assert StartsWith(p, p);
    match IndexOf(s, p)
    case None =>
    case Some(i) =>
      if ReplaceFirst(s, p) == [] {
        assert i == 0 && |s| == |p|;
        assert s == s[..|p|];
      }
      if s == p {
        assert StartsWith(s, p);
        assert i == 0;
      }
  }

  // ---------------------------------------------------------------------
  // Case

  /** Lower-cases the ASCII letters A-Z and leaves every other character. */
  function LowerChar(c: char): (d: char)
    ensures 'A' <= c <= 'Z' ==> 'a' <= d <= 'z' && d as int - c as int == 32
    ensures !('A' <= c <= 'Z') ==> d == c
  {
    if 'A' <= c <= 'Z' then (c as int + 32) as char else c
  }

  /** Character-wise lower-casing; it never changes the length. */
  function LowerAscii(s: string): (r: string)
    ensures |r| == |s|
    ensures forall i :: 0 <= i < |s| ==> r[i] == LowerChar(s[i])
  {
    seq(|s|, i requires 0 <= i < |s| => LowerChar(s[i]))
  }

  /** `s.replace(/p/i, '')` for a pattern of ASCII characters: removes the
      first case-insensitive occurrence of `p`. */
  function ReplaceFirstIgnoreCase(s: string, p: string): (r: string)
    ensures IndexOf(LowerAscii(s), LowerAscii(p)).None? ==> r == s
    ensures IndexOf(LowerAscii(s), LowerAscii(p)).Some? ==>
      var i := IndexOf(LowerAscii(s), LowerAscii(p)).value;
      i + |p| <= |s| && r == s[..i] + s[i + |p|..]
  {
    var found := IndexOf(LowerAscii(s), LowerAscii(p));
    if found.None? then s
    else
      FoundIgnoringCase(s, p, found.value);
      s[..found.value] + s[found.value + |p|..]
  }

  /** Where the lower-cased pattern starts in the lower-cased text, the
      text holds the pattern up to case. */
  lemma FoundIgnoringCase(s: string, p: string, i: nat)
    requires i <= |s| && StartsWith(LowerAscii(s)[i..], LowerAscii(p))
    ensures i + |p| <= |s| && LowerAscii(s[i..i + |p|]) == LowerAscii(p)
  {
    var ls := LowerAscii(s);
    assert ls[i..][..|p|] == ls[i..i + |p|];
    LowerSlice(s, i, i + |p|);
  }

  /** Lower-casing commutes with slicing. */
  lemma LowerSlice(s: string, i: nat, j: nat)
    requires i <= j <= |s|
    ensures LowerAscii(s[i..j]) == LowerAscii(s)[i..j]
  {
  }

  // ---------------------------------------------------------------------
  // Splitting and joining

  /** `s.split(sep)` for a one-character separator: never an empty list,
      one more part than there are separators, no part holds `sep`. */
  function Split(s: string, sep: char): (parts: seq<string>)
    ensures |parts| >= 1
    ensures |parts| > 1 <==> sep in s
    ensures forall i :: 0 <= i < |parts| ==> sep !in parts[i]
    decreases |s|
  {
    if s == [] then [[]]
    else
      var rest := Split(s[1..], sep);
      if s[0] == sep then [[]] + rest
      else [[s[0]] + rest[0]] + rest[1..]
  }

  /** `parts.join(sep)`. */
  function Join(parts: seq<string>, sep: char): string
    decreases |parts|
  {
    if |parts| == 0 then []
    else if |parts| == 1 then parts[0]
    else parts[0] + [sep] + Join(parts[1..], sep)
  }

  /** Joining the parts of a split with the same separator gives back the
      original string. */
  lemma {:induction false} JoinSplit(s: string, sep: char)
    ensures Join(Split(s, sep), sep) == s
    decreases |s|
  {
    if s != [] {
      var rest := Split(s[1..], sep);
      JoinSplit(s[1..], sep);
      if s[0] == sep {
        assert Split(s, sep)[1..] == rest;
      } else if |rest| > 1 {
        assert Split(s, sep)[1..] == rest[1..];
        assert Join(rest, sep) == rest[0] + [sep] + Join(rest[1..], sep);
      }
    }
  }

  /** The parts after the first are, joined back, the text after the first
      separator: `split` followed by `slice(1).join` keeps later separators. */
  lemma {:induction false} SplitTail(s: string, sep: char)
    requires sep in s
    ensures IndexOf(s, [sep]).Some?
    ensures Join(Split(s, sep)[1..], sep) == s[IndexOf(s, [sep]).value + 1..]
    decreases |s|
  {
    if s[0] == sep {
      assert StartsWith(s, [sep]);
      assert Split(s, sep)[1..] == Split(s[1..], sep);
      JoinSplit(s[1..], sep);
    } else {
      assert !StartsWith(s, [sep]);
      SplitTail(s[1..], sep);
      assert Split(s, sep)[1..] == Split(s[1..], sep)[1..];
      var j := IndexOf(s[1..], [sep]).value;
      assert s[1..][j + 1..] == s[j + 2..];
    }
  }

  /** The text after the last `sep` in `s`, all of `s` when there is none:
      a suffix free of the separator, preceded by the separator unless it is
      the whole string. */
  function LastPart(s: string, sep: char): (last: string)
    ensures sep !in last
    ensures |last| <= |s| && last == s[|s| - |last|..]
    ensures |last| < |s| ==> s[|s| - |last| - 1] == sep
    decreases |s|
  {
    if s == [] || s[|s| - 1] == sep then []
    else
      var init := s[..|s| - 1];
      var last := LastPart(init, sep) + [s[|s| - 1]];
      assert s[|s| - |last|..] == init[|init| - |last| + 1..] + [s[|s| - 1]];
      last
  }

  /** Those three properties pin the last part down. */
  lemma LastPartUnique(s: string, sep: char, t: string)
    requires |t| <= |s| && t == s[|s| - |t|..] && sep !in t
    requires |t| < |s| ==> s[|s| - |t| - 1] == sep
    ensures t == LastPart(s, sep)
  {
    var l := LastPart(s, sep);
    if |t| < |l| {
      LongerSuffixHoldsSep(s, sep, t, l);
      assert false;
    } else if |l| < |t| {
      LongerSuffixHoldsSep(s, sep, l, t);
      assert false;
    }
  }

  /** A suffix longer than one preceded by `sep` contains that `sep`. */
  lemma LongerSuffixHoldsSep(s: string, sep: char, a: string, b: string)
    requires |a| < |b| <= |s| && a == s[|s| - |a|..] && b == s[|s| - |b|..]
    requires s[|s| - |a| - 1] == sep
    ensures sep in b
  {
    assert b[|b| - |a| - 1] == s[|s| - |a| - 1];
  }

  /** The last element of a join ends it, after a separator when there are
      several. */
  lemma {:induction false} JoinLast(parts: seq<string>, sep: char)
    requires |parts| >= 1
    ensures var j := Join(parts, sep); var t := parts[|parts| - 1];
      |t| <= |j| && t == j[|j| - |t|..] && (|parts| > 1 ==> |t| < |j| && j[|j| - |t| - 1] == sep)
    decreases |parts|
  {
    if |parts| > 1 {
      JoinLast(parts[1..], sep);
      var rest := Join(parts[1..], sep);
      var j := Join(parts, sep);
      assert j == parts[0] + [sep] + rest;
      assert j[|j| - |rest|..] == rest;
    }
  }

  /** `parts[parts.length - 1]` of `s.split(sep)` is the last part. */
  lemma {:induction false} LastPartOfSplit(s: string, sep: char)
    ensures var parts := Split(s, sep); parts[|parts| - 1] == LastPart(s, sep)
  {
    var parts := Split(s, sep);
    JoinSplit(s, sep);
    JoinLast(parts, sep);
    LastPartUnique(s, sep, parts[|parts| - 1]);
  }

  // ---------------------------------------------------------------------
  // Decimal numerals

  /** The characters `\d` matches in a JavaScript regular expression. */
  predicate IsDigit(c: char) {
    '0' <= c <= '9'
  }

  predicate AllDigits(s: string) {
    forall i :: 0 <= i < |s| ==> IsDigit(s[i])
  }

  function DigitChar(d: nat): (c: char)
    requires d < 10
    ensures IsDigit(c) && c as int - '0' as int == d
  {
    ('0' as int + d) as char
  }

  /** Template-literal interpolation of a non-negative integer: its decimal
      numeral without leading zeros. */
  function NatToString(n: nat): (r: string)
    ensures |r| >= 1 && AllDigits(r)
    decreases n
  {
    if n < 10 then [DigitChar(n)] else NatToString(n / 10) + [DigitChar(n % 10)]
  }

  /** `parseInt(ds, 10)` for a non-empty run of decimal digits. */
  function DigitsValue(ds: string): nat
    requires AllDigits(ds)
    decreases |ds|
  {
    if ds == [] then 0
    else DigitsValue(ds[..|ds| - 1]) * 10 + (ds[|ds| - 1] as int - '0' as int)
  }

  /** Reading back a printed numeral gives the number. */
  lemma {:induction false} DigitsRoundTrip(n: nat)
    ensures DigitsValue(NatToString(n)) == n
    decreases n
  {
    if n >= 10 {
      DigitsRoundTrip(n / 10);
      var s := NatToString(n);
      assert s[..|s| - 1] == NatToString(n / 10);
    }
  }

  // ---------------------------------------------------------------------
  // Ordering

  /** The order `Array.prototype.sort` uses on strings by default:
      lexicographic on characters, a proper prefix first. */
  predicate Less(a: string, b: string)
    decreases |a|
  {
    b != [] && (a == [] || a[0] < b[0] || (a[0] == b[0] && Less(a[1..], b[1..])))
  }

  lemma {:induction false} LessIrreflexive(a: string)
    ensures !Less(a, a)
    decreases |a|
  {
    if a != [] {
      LessIrreflexive(a[1..]);
    }
  }

  lemma {:induction false} LessTransitive(a: string, b: string, c: string)
    requires Less(a, b) && Less(b, c)
    ensures Less(a, c)
    decreases |a|
  {
    if a != [] && a[0] == b[0] && b[0] == c[0] {
      LessTransitive(a[1..], b[1..], c[1..]);
    }
  }

  /** Any two different strings are ordered one way or the other. */
  lemma {:induction false} LessTotal(a: string, b: string)
    ensures a == b || Less(a, b) || Less(b, a)
    decreases |a|
  {
    if a != [] && b != [] && a[0] == b[0] {
      LessTotal(a[1..], b[1..]);
      if a[1..] == b[1..] {
        assert a == [a[0]] + a[1..] && b == [b[0]] + b[1..];
      }
    }
  }
}
