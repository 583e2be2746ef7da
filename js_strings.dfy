/**
 * The JavaScript string operations the screens rely on, stated over `seq<char>`:
 * white space and `trim`, `toLowerCase`, `includes`, `startsWith`, `endsWith`,
 * `split` on one character, `parseInt` without a radix, and decimal rendering of
 * integers in template literals.
 */
module JsStrings {
  import opened Wrappers

  // ---------------------------------------------------------------------------
  // White space and trim
  // ---------------------------------------------------------------------------

  /** The characters of ECMAScript's WhiteSpace and LineTerminator productions,
      which are what `\s`, `trim` and `parseInt` skip. */
  predicate IsWhitespace(c: char) {
    c == ' ' || c == '\t' || c == '\n' || c == '\U{000B}' || c == '\U{000C}' || c == '\r'
    || c == '\U{00A0}' || c == '\U{1680}' || ('\U{2000}' <= c <= '\U{200A}')
    || c == '\U{2028}' || c == '\U{2029}' || c == '\U{202F}' || c == '\U{205F}'
    || c == '\U{3000}' || c == '\U{FEFF}'
  }

  predicate AllWhitespace(s: string) {
    forall i :: 0 <= i < |s| ==> IsWhitespace(s[i])
  }

  /** `s.trimStart()`: the longest suffix of `s` that does not start with white space. */
  function TrimStart(s: string): (r: string)
    ensures |r| <= |s| && r == s[|s| - |r|..]
    ensures AllWhitespace(s[..|s| - |r|])
    ensures r != [] ==> !IsWhitespace(r[0])
  {
    if s != [] && IsWhitespace(s[0]) then TrimStart(s[1..]) else s
  }

  /** `s.trimEnd()`: the longest prefix of `s` that does not end with white space. */
  function TrimEnd(s: string): (r: string)
    ensures |r| <= |s| && r == s[..|r|]
    ensures AllWhitespace(s[|r|..])
    ensures r != [] ==> !IsWhitespace(r[|r| - 1])
  {
    if s != [] && IsWhitespace(s[|s| - 1]) then TrimEnd(s[..|s| - 1]) else s
  }

  /** `s.trim()`. */
  function Trim(s: string): string {
    TrimEnd(TrimStart(s))
  }

  /** `!s.trim()`: the field is empty once surrounding white space is removed. */
  predicate IsBlank(s: string) {
    Trim(s) == []
  }

  /** A string is blank exactly when every one of its characters is white space. */
  lemma BlankIffAllWhitespace(s: string)
    ensures IsBlank(s) <==> AllWhitespace(s)
  {
    var t := TrimStart(s);
    if !AllWhitespace(s) {
      var i :| 0 <= i < |s| && !IsWhitespace(s[i]);
      assert t != [];
      assert !IsWhitespace(t[0]);
    }
  }

  // ---------------------------------------------------------------------------
  // Case mapping and searching
  // ---------------------------------------------------------------------------

  /** `toLowerCase` on one character, for the ASCII letters. */
  function ToLowerChar(c: char): (r: char)
    ensures 'A' <= c <= 'Z' ==> r as int == c as int + 32
    ensures !('A' <= c <= 'Z') ==> r == c
  {
    if 'A' <= c <= 'Z' then (c as int + 32) as char else c
  }

  function ToLower(s: string): (r: string)
    ensures |r| == |s|
    ensures forall i :: 0 <= i < |s| ==> r[i] == ToLowerChar(s[i])
  {
    if s == [] then [] else [ToLowerChar(s[0])] + ToLower(s[1..])
  }

  /** `s.startsWith(p)`. */
  predicate StartsWith(s: string, p: string) {
    |p| <= |s| && s[..|p|] == p
  }

  /** `s.endsWith(p)`. */
  predicate EndsWith(s: string, p: string) {
    |p| <= |s| && s[|s| - |p|..] == p
  }

  /** Two prefixes of one string: the shorter is a prefix of the longer. */
  lemma PrefixesNest(s: string, a: string, b: string)
    requires StartsWith(s, a) && StartsWith(s, b) && |a| <= |b|
    ensures StartsWith(b, a)
  {
    assert b[..|a|] == s[..|b|][..|a|];
  }

  /** Two suffixes of one string: the shorter is a suffix of the longer. */
  lemma SuffixesNest(s: string, a: string, b: string)
    requires EndsWith(s, a) && EndsWith(s, b) && |a| <= |b|
    ensures EndsWith(b, a)
  {
    assert b[|b| - |a|..] == s[|s| - |b|..][|b| - |a|..];
  }

  /** A string starts with itself followed by anything, and ends with anything put after
      something else. */
  lemma ConcatEnds(a: string, b: string)
    ensures StartsWith(a + b, a) && EndsWith(a + b, b)
  {
    assert (a + b)[..|a|] == a;
    assert (a + b)[|a + b| - |b|..] == b;
  }

  /** `s.includes(t)`: `t` occurs in `s` at some offset. */
  predicate Includes(s: string, t: string)
    decreases |s|
  {
    StartsWith(s, t) || (s != [] && Includes(s[1..], t))
  }

  /** `t` occurs in `s` starting at offset `k`. */
  predicate OccursAt(s: string, t: string, k: int) {
    0 <= k <= |s| - |t| && s[k..k + |t|] == t
  }

  /** `Includes` holds exactly when `t` sits at some offset of `s`. */
  lemma {:induction false} IncludesIffOccursAt(s: string, t: string)
    ensures Includes(s, t) <==> exists k :: OccursAt(s, t, k)
    decreases |s|
  {
    if StartsWith(s, t) {
      assert OccursAt(s, t, 0);
    } else if s != [] {
      IncludesIffOccursAt(s[1..], t);
      if Includes(s[1..], t) {
        var k :| OccursAt(s[1..], t, k);
        assert s[1..][k..k + |t|] == s[k + 1..k + 1 + |t|];
        assert OccursAt(s, t, k + 1);
      }
      if exists k :: OccursAt(s, t, k) {
        var k :| OccursAt(s, t, k);
        assert k != 0;
        assert s[1..][k - 1..k - 1 + |t|] == s[k..k + |t|];
        assert OccursAt(s[1..], t, k - 1);
      }
    }
  }

  /** The empty search term is found in every string. */
  lemma EmptyIncludedEverywhere(s: string)
    ensures Includes(s, [])
  {
    assert StartsWith(s, []);
  }

  /** `a.toLowerCase().includes(b.toLowerCase())`: the case-insensitive search every
      list screen uses. */
  predicate IncludesIgnoringCase(s: string, t: string) {
    Includes(ToLower(s), ToLower(t))
  }

  lemma EmptyIncludedIgnoringCase(s: string)
    ensures IncludesIgnoringCase(s, [])
  {
    EmptyIncludedEverywhere(ToLower(s));
  }

  // ---------------------------------------------------------------------------
  // split and join on one separator character
  // ---------------------------------------------------------------------------

  /** `s.split(sep)` for a one-character separator: the pieces between separators,
      always at least one. */
  function Split(s: string, sep: char): (r: seq<string>)
    ensures |r| >= 1
    ensures forall i :: 0 <= i < |r| ==> sep !in r[i]
    decreases |s|
  {
    if s == [] then [[]]
    else
      var rest := Split(s[1..], sep);
      if s[0] == sep then [[]] + rest else [[s[0]] + rest[0]] + rest[1..]
  }

  /** `parts.join(sep)`. */
  function Join(parts: seq<string>, sep: char): string
    requires |parts| >= 1
    decreases |parts|
  {
    if |parts| == 1 then parts[0] else parts[0] + [sep] + Join(parts[1..], sep)
  }

  /** Joining the pieces of a split gives back the original string. */
  lemma {:induction false} JoinSplit(s: string, sep: char)
    ensures Join(Split(s, sep), sep) == s
    decreases |s|
  {
    if s != [] {
      var rest := Split(s[1..], sep);
      JoinSplit(s[1..], sep);
      if s[0] == sep {
        assert Split(s, sep) == [[]] + rest;
        assert Join([[]] + rest, sep) == [] + [sep] + Join(rest, sep) by {
          assert ([[]] + rest)[1..] == rest;
        }
      } else {
        var parts := [[s[0]] + rest[0]] + rest[1..];
        assert Split(s, sep) == parts;
        if |rest| == 1 {
          assert Join(parts, sep) == [s[0]] + rest[0];
        } else {
          assert parts[1..] == rest[1..];
          assert Join(rest, sep) == rest[0] + [sep] + Join(rest[1..], sep);
          assert Join(parts, sep) == [s[0]] + rest[0] + [sep] + Join(rest[1..], sep);
        }
      }
    }
  }

  /** Splitting a join of separator-free pieces gives back the pieces. */
  lemma {:induction false} SplitJoin(parts: seq<string>, sep: char)
    requires |parts| >= 1
    requires forall i :: 0 <= i < |parts| ==> sep !in parts[i]
    ensures Split(Join(parts, sep), sep) == parts
    decreases |parts|, |parts[0]|
  {
    var p := parts[0];
    if |parts| == 1 {
      SplitNoSeparator(p, sep);
    } else if p == [] {
      var tail := Join(parts[1..], sep);
      assert Join(parts, sep) == [sep] + tail;
      SplitJoin(parts[1..], sep);
      assert ([sep] + tail)[1..] == tail;
      assert [[]] + parts[1..] == parts;
    } else {
      var shorter := [p[1..]] + parts[1..];
      assert shorter[1..] == parts[1..];
      assert forall i :: 0 <= i < |shorter| ==> sep !in shorter[i] by {
        forall i | 0 <= i < |shorter| ensures sep !in shorter[i] {
          if i == 0 {
            assert forall c :: c in p[1..] ==> c in p;
          } else {
            assert shorter[i] == parts[i];
          }
        }
      }
      SplitJoin(shorter, sep);
      var whole := Join(parts, sep);
      assert whole == [p[0]] + Join(shorter, sep) by {
        if |parts| == 1 {
        } else {
          assert Join(shorter, sep) == p[1..] + [sep] + Join(parts[1..], sep);
          assert p == [p[0]] + p[1..];
        }
      }
      assert whole[1..] == Join(shorter, sep);
      assert p[0] != sep;
      var rest := Split(whole[1..], sep);
      assert rest == shorter;
      assert [[p[0]] + rest[0]] + rest[1..] == parts by {
        assert [p[0]] + p[1..] == p;
      }
    }
  }

  lemma {:induction false} SplitNoSeparator(s: string, sep: char)
    requires sep !in s
    ensures Split(s, sep) == [s]
    decreases |s|
  {
    if s != [] {
      assert sep !in s[1..] by {
        assert forall c :: c in s[1..] ==> c in s;
      }
      SplitNoSeparator(s[1..], sep);
      assert s[0] != sep;
      assert [s[0]] + s[1..] == s;
    }
  }

  /** The text before the first `sep` (all of `s` when `sep` does not occur). */
  function Before(s: string, sep: char): (r: string)
    ensures StartsWith(s, r) && sep !in r
    ensures |r| < |s| ==> s[|r|] == sep
    decreases |s|
  {
    if s == [] || s[0] == sep then [] else [s[0]] + Before(s[1..], sep)
  }

  /** `s.split(sep)[0]` is the text before the first separator. */
  lemma {:induction false} FirstPieceIsBefore(s: string, sep: char)
    ensures Split(s, sep)[0] == Before(s, sep)
    decreases |s|
  {
    if s != [] && s[0] != sep {
      FirstPieceIsBefore(s[1..], sep);
    }
  }

  // ---------------------------------------------------------------------------
  // Numbers: parseInt and decimal rendering
  // ---------------------------------------------------------------------------

  predicate IsDecimalDigit(c: char) {
    '0' <= c <= '9'
  }

  predicate IsHexDigit(c: char) {
    IsDecimalDigit(c) || ('a' <= c <= 'f') || ('A' <= c <= 'F')
  }

  function DigitValue(c: char): (r: nat)
    requires IsHexDigit(c)
    ensures r < 16
    ensures IsDecimalDigit(c) ==> r < 10
  {
    if IsDecimalDigit(c) then c as int - '0' as int
    else if 'a' <= c <= 'f' then c as int - 'a' as int + 10
    else c as int - 'A' as int + 10
  }

  /** The longest prefix of `s` made of digits of the given radix (10 or 16). */
  function LeadingDigits(s: string, hex: bool): (r: string)
    ensures StartsWith(s, r)
    ensures forall i :: 0 <= i < |r| ==> if hex then IsHexDigit(r[i]) else IsDecimalDigit(r[i])
    ensures |r| < |s| ==> !(if hex then IsHexDigit(s[|r|]) else IsDecimalDigit(s[|r|]))
    decreases |s|
  {
    if s != [] && (if hex then IsHexDigit(s[0]) else IsDecimalDigit(s[0]))
    then [s[0]] + LeadingDigits(s[1..], hex)
    else []
  }

  /** The value of a digit string, most significant digit first. */
  function DigitsValue(ds: string, hex: bool): nat
    requires forall i :: 0 <= i < |ds| ==> if hex then IsHexDigit(ds[i]) else IsDecimalDigit(ds[i])
    decreases |ds|
  {
    if ds == [] then 0
    else DigitsValue(ds[..|ds| - 1], hex) * (if hex then 16 else 10) + DigitValue(ds[|ds| - 1])
  }

  /** JavaScript's `parseInt(s)` with no radix. `None` stands for `NaN`: leading white
      space is skipped, one sign is read, a `0x`/`0X` prefix switches to hexadecimal,
      and the longest run of digits that follows is the value. */
  function ParseInt(s: string): Option<int> {
    ParseSigned(TrimStart(s))
  }

  /** `parseInt` once leading white space is gone: one sign, then the digits. */
  function ParseSigned(t: string): Option<int> {
    if t != [] && (t[0] == '-' || t[0] == '+') then ApplySign(t[0] == '-', ParseUnsigned(t[1..]))
    else ApplySign(false, ParseUnsigned(t))
  }

  /** The value read after the sign, negated after a `-`. */
  function ApplySign(negative: bool, u: Option<nat>): Option<int> {
    match u
    case None => None
    case Some(v) => Some(if negative then -(v as int) else v as int)
  }

  /** The digits after the sign: a `0x`/`0X` prefix switches to hexadecimal, and the
      longest run of digits that follows is the value. */
  function ParseUnsigned(u: string): Option<nat> {
    var hex := |u| >= 2 && u[0] == '0' && (u[1] == 'x' || u[1] == 'X');
    var ds := LeadingDigits(if hex then u[2..] else u, hex);
    if ds == [] then None else Some(DigitsValue(ds, hex))
  }

  /** The decimal digits of `n`, as a template literal shows a non-negative integer. */
  function NatToString(n: nat): (r: string)
    ensures |r| >= 1
    ensures forall i :: 0 <= i < |r| ==> IsDecimalDigit(r[i])
    ensures |r| >= 2 ==> r[0] != '0'
    decreases n
  {
    var last := ['0' + (n % 10) as char];
    if n < 10 then last else NatToString(n / 10) + last
  }

  /** `${n}` for an integer `n`. */
  function IntToString(n: int): string {
    if n < 0 then "-" + NatToString(-n) else NatToString(n)
  }

  lemma {:induction false} DigitsValueOfNatToString(n: nat)
    ensures DigitsValue(NatToString(n), false) == n
    decreases n
  {
    var r := NatToString(n);
    if n >= 10 {
      DigitsValueOfNatToString(n / 10);
      assert r[..|r| - 1] == NatToString(n / 10);
    }
  }

  lemma {:induction false} LeadingDigitsOfDigits(s: string, rest: string, hex: bool)
    requires forall i :: 0 <= i < |s| ==> if hex then IsHexDigit(s[i]) else IsDecimalDigit(s[i])
    requires rest == [] || !(if hex then IsHexDigit(rest[0]) else IsDecimalDigit(rest[0]))
    ensures LeadingDigits(s + rest, hex) == s
    decreases |s|
  {
    if s != [] {
      assert (s + rest)[1..] == s[1..] + rest;
      LeadingDigitsOfDigits(s[1..], rest, hex);
    } else {
      assert s + rest == rest;
    }
  }

  /** A run of decimal digits reads as its value, whatever follows that does not continue
      it; a second digit is never an `x`, so only a lone `0` could start a hex prefix. */
  lemma ParseUnsignedOfDigits(digits: string, rest: string)
    requires digits != [] && forall i :: 0 <= i < |digits| ==> IsDecimalDigit(digits[i])
    requires rest == [] || (!IsDecimalDigit(rest[0]) && rest[0] != 'x' && rest[0] != 'X')
    ensures ParseUnsigned(digits + rest) == Some(DigitsValue(digits, false))
  {
    var u := digits + rest;
    assert !(|u| >= 2 && u[0] == '0' && (u[1] == 'x' || u[1] == 'X')) by {
      if |digits| >= 2 {
        assert u[1] == digits[1];
      } else if rest != [] {
        assert u[1] == rest[0];
      }
    }
    LeadingDigitsOfDigits(digits, rest, false);
  }

  /** Text that starts with a digit has no white space to skip and no sign. */
  lemma ParseIntOfDigitStart(u: string, v: nat)
    requires u != [] && IsDecimalDigit(u[0]) && ParseUnsigned(u) == Some(v)
    ensures ParseInt(u) == Some(v as int)
  {
    assert !IsWhitespace(u[0]);
    TrimStartOfNonBlankStart(u);
    assert ParseSigned(u) == ApplySign(false, ParseUnsigned(u)) by {
      assert !(u[0] == '-' || u[0] == '+');
    }
  }

  /** Text that starts with `-` has no white space to skip and one sign. */
  lemma ParseIntOfMinusStart(t: string, v: nat)
    requires t != [] && t[0] == '-' && ParseUnsigned(t[1..]) == Some(v)
    ensures ParseInt(t) == Some(-(v as int))
  {
    assert !IsWhitespace(t[0]);
    TrimStartOfNonBlankStart(t);
    assert ParseSigned(t) == ApplySign(true, ParseUnsigned(t[1..]));
  }

  lemma TrimStartOfNonBlankStart(s: string)
    requires s != [] && !IsWhitespace(s[0])
    ensures TrimStart(s) == s
  {
  }

  /** `parseInt` reads back every integer rendered in decimal, also when other text
      follows it, as long as that text does not continue the number. */
  lemma ParseIntOfIntToString(n: int, rest: string)
    requires rest == [] || (!IsDecimalDigit(rest[0]) && rest[0] != 'x' && rest[0] != 'X')
    ensures ParseInt(IntToString(n) + rest) == Some(n)
  {
    var t := IntToString(n) + rest;
    if n < 0 {
      var m: nat := -n;
      assert t == "-" + NatToString(m) + rest;
      ParseIntOfNegated(m, rest);
      assert ParseInt(t) == Some(-(m as int));
    } else {
      assert t == NatToString(n) + rest;
      ParseIntOfNatToString(n, rest);
    }
  }

  lemma ParseUnsignedOfNatToString(m: nat, rest: string)
    requires rest == [] || (!IsDecimalDigit(rest[0]) && rest[0] != 'x' && rest[0] != 'X')
    ensures ParseUnsigned(NatToString(m) + rest) == Some(m)
  {
    DigitsValueOfNatToString(m);
    ParseUnsignedOfDigits(NatToString(m), rest);
  }

  lemma ParseIntOfNatToString(m: nat, rest: string)
    requires rest == [] || (!IsDecimalDigit(rest[0]) && rest[0] != 'x' && rest[0] != 'X')
    ensures ParseInt(NatToString(m) + rest) == Some(m)
  {
    var u := NatToString(m) + rest;
    ParseUnsignedOfNatToString(m, rest);
    assert u[0] == NatToString(m)[0];
    ParseIntOfDigitStart(u, m);
  }

  lemma ParseIntOfNegated(m: nat, rest: string)
    requires rest == [] || (!IsDecimalDigit(rest[0]) && rest[0] != 'x' && rest[0] != 'X')
    ensures ParseInt("-" + NatToString(m) + rest) == Some(-(m as int))
  {
    var t := "-" + NatToString(m) + rest;
    ParseUnsignedOfNatToString(m, rest);
    DropSign(NatToString(m), rest);
    ParseIntOfMinusStart(t, m);
  }

  lemma DropSign(a: string, b: string)
    ensures ("-" + a + b)[1..] == a + b
  {
  }
}
