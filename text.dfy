/**
 * The Python `str` built-ins the scripts rely on, over `string` (= `seq<char>`):
 * `startswith`, the `in` operator, `split`, `strip`, `lower`, `int()` and the
 * zero-padded `f'{n:02d}'` format.
 */
module Text {
  import opened Wrappers

  /** `s.startswith(prefix)` */
  predicate StartsWith(s: string, prefix: string) {
    |prefix| <= |s| && s[..|prefix|] == prefix
  }

  /** `t in s`: t occurs as a contiguous substring of s (the empty string occurs everywhere). */
  predicate Contains(s: string, t: string) {
    StartsWith(s, t) || (s != [] && Contains(s[1..], t))
  }

  /** Whatever surrounds it, t occurs in `a + t + b`. */
  lemma {:induction false} ContainsInfix(a: string, t: string, b: string)
    ensures Contains(a + t + b, t)
  {
    if a == [] {
      assert (a + t + b)[..|t|] == t;
    } else {
      ContainsInfix(a[1..], t, b);
      assert (a + t + b)[1..] == a[1..] + t + b;
    }
  }

  // ---------------------------------------------------------------- split

  /**
   * `s.split(sep)` with an explicit one-character separator: never empty,
   * adjacent separators give empty pieces, "" gives [""].
   */
  function Split(s: string, sep: char): (parts: seq<string>)
    ensures |parts| >= 1
  {
    if s == [] then [""]
    else
      var rest := Split(s[1..], sep);
      if s[0] == sep then [""] + rest else [[s[0]] + rest[0]] + rest[1..]
  }

  /** No piece of a split holds the separator. */
  lemma {:induction false} SplitPieces(s: string, sep: char)
    ensures forall i :: 0 <= i < |Split(s, sep)| ==> sep !in Split(s, sep)[i]
  {
    if s != [] {
      SplitPieces(s[1..], sep);
      var rest := Split(s[1..], sep);
      if s[0] != sep {
        assert sep !in [s[0]] + rest[0];
        assert forall i :: 1 <= i < |Split(s, sep)| ==> Split(s, sep)[i] == rest[i];
      }
    }
  }

  /** `sep.join(parts)` */
  function JoinWith(parts: seq<string>, sep: char): string
  {
    if parts == [] then ""
    else if |parts| == 1 then parts[0]
    else parts[0] + [sep] + JoinWith(parts[1..], sep)
  }

  /** Joining the pieces of a split with the same separator gives the string back. */
  lemma {:induction false} SplitJoin(s: string, sep: char)
    ensures JoinWith(Split(s, sep), sep) == s
  {
    if s != [] {
      SplitJoin(s[1..], sep);
      var rest := Split(s[1..], sep);
      if s[0] != sep {
        var parts := Split(s, sep);
        assert parts[0] == [s[0]] + rest[0];
        if |rest| == 1 {
          assert parts == [[s[0]] + rest[0]];
        } else {
          assert parts[1..] == rest[1..];
          assert JoinWith(rest, sep) == rest[0] + [sep] + JoinWith(rest[1..], sep);
        }
      }
    }
  }

  /** Splitting around one separator splits each side independently. */
  lemma {:induction false} SplitConcat(a: string, b: string, sep: char)
    ensures Split(a + [sep] + b, sep) == Split(a, sep) + Split(b, sep)
  {
    if a == [] {
      assert ([sep] + b)[1..] == b;
    } else {
      assert (a + [sep] + b)[1..] == a[1..] + [sep] + b;
      SplitConcat(a[1..], b, sep);
    }
  }

  /** A string without the separator is a single piece. */
  lemma {:induction false} SplitWithoutSeparator(s: string, sep: char)
    requires sep !in s
    ensures Split(s, sep) == [s]
  {
    if s != [] {
      assert sep !in s[1..] by {
        forall i | 0 <= i < |s[1..]| ensures s[1..][i] != sep {
          assert s[1..][i] == s[i + 1];
        }
      }
      SplitWithoutSeparator(s[1..], sep);
      assert [s[0]] + s[1..] == s;
    }
  }

  /** The piece before last, `s.split(sep)[-2]`; None where Python raises IndexError. */
  function SecondToLast(s: string, sep: char): Option<string> {
    var parts := Split(s, sep);
    if |parts| >= 2 then Some(parts[|parts| - 2]) else None
  }

  /** For a URL of the form `<anything>/<code>/`, the piece before last is `<code>`. */
  lemma PieceBeforeTrailingSlash(prefix: string, code: string, sep: char)
    requires sep !in code
    ensures SecondToLast(prefix + [sep] + code + [sep], sep) == Some(code)
  {
    var s := prefix + [sep] + code + [sep];
    assert s == prefix + [sep] + (code + [sep] + "");
    SplitConcat(prefix, code + [sep] + "", sep);
    SplitConcat(code, "", sep);
    SplitWithoutSeparator(code, sep);
    assert Split(s, sep) == Split(prefix, sep) + [code] + [""];
  }

  // ---------------------------------------------------------------- whitespace and case

  /**
   * The whitespace `int()` skips around a literal: the characters of Python's
   * `str.isspace` except the separators U+001C..U+001F, which `int()` rejects.
   */
  predicate IntSpace(c: char) {
    ('\t' <= c <= '\r') || c == ' ' || c == '\U{85}' || c == '\U{A0}'
    || c == '\U{1680}' || ('\U{2000}' <= c <= '\U{200A}') || c == '\U{2028}' || c == '\U{2029}'
    || c == '\U{202F}' || c == '\U{205F}' || c == '\U{3000}'
  }

  /** Drops the leading whitespace and nothing else. */
  function StripLeft(s: string): (r: string)
    ensures r == [] || !IntSpace(r[0])
    ensures |r| <= |s| && r == s[|s| - |r|..]
    ensures forall i :: 0 <= i < |s| - |r| ==> IntSpace(s[i])
  {
    if s != [] && IntSpace(s[0]) then StripLeft(s[1..]) else s
  }

  /** Drops the trailing whitespace and nothing else. */
  function StripRight(s: string): (r: string)
    ensures r == [] || !IntSpace(r[|r| - 1])
    ensures |r| <= |s| && r == s[..|r|]
    ensures forall i :: |r| <= i < |s| ==> IntSpace(s[i])
  {
    if s != [] && IntSpace(s[|s| - 1]) then StripRight(s[..|s| - 1]) else s
  }

  /** The text `int()` reads once the surrounding whitespace is skipped. */
  function Strip(s: string): string {
    StripRight(StripLeft(s))
  }

  function LowerChar(c: char): char {
    if 'A' <= c <= 'Z' then (c as int + 32) as char else c
  }

  /** `s.lower()` restricted to ASCII letters. */
  function Lower(s: string): string {
    seq(|s|, i requires 0 <= i < |s| => LowerChar(s[i]))
  }

  // ---------------------------------------------------------------- decimal numerals

  predicate IsDigit(c: char) {
    '0' <= c <= '9'
  }

  predicate AllDigits(s: string) {
    forall i :: 0 <= i < |s| ==> IsDigit(s[i])
  }

  function DigitChar(d: nat): (c: char)
    requires d < 10
    ensures IsDigit(c)
  {
    ('0' as int + d) as char
  }

  /** The value of a string of decimal digits, most significant first. */
  function DigitsValue(s: string): nat
    requires AllDigits(s)
  {
    if s == [] then 0 else DigitsValue(s[..|s| - 1]) * 10 + (s[|s| - 1] as int - '0' as int)
  }

  /** `str(n)` for n >= 0: the shortest decimal numeral. */
  function ShowNat(n: nat): (r: string)
    ensures |r| >= 1 && AllDigits(r)
  {
    if n < 10 then [DigitChar(n)] else ShowNat(n / 10) + [DigitChar(n % 10)]
  }

  /** `str(i)` */
  function ShowInt(i: int): string {
    if i < 0 then "-" + ShowNat(-i) else ShowNat(i)
  }

  lemma {:induction false} ShowNatValue(n: nat)
    ensures DigitsValue(ShowNat(n)) == n
  {
    if n >= 10 {
      ShowNatValue(n / 10);
      var s := ShowNat(n);
      assert s[..|s| - 1] == ShowNat(n / 10);
    }
  }

  /** `f'{n:02d}'` for n >= 0: at least two digits, left-padded with '0'. */
  function Pad2(n: nat): (r: string)
    ensures |r| >= 2 && AllDigits(r)
  {
    if n < 10 then "0" + ShowNat(n) else ShowNat(n)
  }

  lemma Pad2Value(n: nat)
    ensures DigitsValue(Pad2(n)) == n
  {
    ShowNatValue(n);
    if n < 10 {
      assert Pad2(n)[..1] == "0";
    }
  }

  // ---------------------------------------------------------------- int()

  /**
   * The digit part of a base-10 integer literal as `int()` reads it:
   * digit ( '_'? digit )*  (underscores only singly, between digits).
   */
  predicate DigitGroups(t: string) {
    && |t| >= 1 && IsDigit(t[0]) && IsDigit(t[|t| - 1])
    && (forall i :: 0 <= i < |t| ==> IsDigit(t[i]) || t[i] == '_')
    && (forall i :: 0 <= i < |t| - 1 ==> t[i] == '_' ==> t[i + 1] != '_')
  }

  function DropUnderscores(t: string): (r: string)
    requires forall i :: 0 <= i < |t| ==> IsDigit(t[i]) || t[i] == '_'
    ensures AllDigits(r)
  {
    if t == [] then []
    else (if t[0] == '_' then [] else [t[0]]) + DropUnderscores(t[1..])
  }

  lemma {:induction false} DropUnderscoresOfDigits(t: string)
    requires AllDigits(t)
    ensures DropUnderscores(t) == t
  {
    if t != [] {
      DropUnderscoresOfDigits(t[1..]);
      assert [t[0]] + t[1..] == t;
    }
  }

  /** `sys.get_int_max_str_digits()` at its default: `int()` and `str()` refuse longer decimal numerals. */
  const MaxStrDigits := 4300

  /**
   * `int(s)`: surrounding whitespace, an optional sign, then digit groups of at
   * most MaxStrDigits digits; None where Python raises ValueError.
   * Non-ASCII decimal digits are not modelled.
   */
  function ParseInt(s: string): Option<int> {
    ParseLiteral(Strip(s))
  }

  /** `int()` of the text between the skipped whitespace. */
  function ParseLiteral(t: string): Option<int> {
    var signed := |t| >= 1 && (t[0] == '+' || t[0] == '-');
    var g := if signed then t[1..] else t;
    if !DigitGroups(g) then None
    else
      var d := DropUnderscores(g);
      if |d| > MaxStrDigits then None
      else
        var v: int := DigitsValue(d);
        Some(if signed && t[0] == '-' then -v else v)
  }

  /** A non-empty string of digits is read by `int()` as its value. */
  lemma ParseDigits(d: string)
    requires |d| >= 1 && AllDigits(d)
    ensures DigitGroups(d)
    ensures DropUnderscores(d) == d
  {
    DropUnderscoresOfDigits(d);
  }

  lemma StripUnpadded(s: string)
    requires |s| >= 1 && !IntSpace(s[0]) && !IntSpace(s[|s| - 1])
    ensures Strip(s) == s
  {
  }

  /** `int()` of an unsigned digit-group string: no whitespace to strip, no sign. */
  lemma ParseUnsigned(t: string)
    requires DigitGroups(t)
    ensures ParseInt(t) == if |DropUnderscores(t)| <= MaxStrDigits then Some(DigitsValue(DropUnderscores(t))) else None
  {
    assert IsDigit(t[0]) && IsDigit(t[|t| - 1]);
    StripUnpadded(t);
  }

  /** `int()` of '-' followed by digit groups. */
  lemma ParseNegative(g: string)
    requires DigitGroups(g)
    ensures ParseInt("-" + g) == if |DropUnderscores(g)| <= MaxStrDigits then Some(-(DigitsValue(DropUnderscores(g)) as int)) else None
  {
    var t := "-" + g;
    assert t[0] == '-' && t[|t| - 1] == g[|g| - 1] && IsDigit(g[|g| - 1]);
    StripUnpadded(t);
    assert ParseInt(t) == ParseLiteral(t);
    assert t[1..] == g;
  }

  /** `str(i)` and `int()` accept i: its numeral has at most MaxStrDigits digits. */
  predicate Showable(i: int) {
    |ShowNat(if i < 0 then -i else i)| <= MaxStrDigits
  }

  /** `int(str(i)) == i` wherever `str(i)` succeeds, and `int()` refuses the longer numerals. */
  lemma ParseShowInt(i: int)
    ensures ParseInt(ShowInt(i)) == if Showable(i) then Some(i) else None
  {
    var n: nat := if i < 0 then -i else i;
    var d := ShowNat(n);
    ShowNatValue(n);
    ParseDigits(d);
    assert Showable(i) <==> |d| <= MaxStrDigits;
    if i < 0 {
      ParseNegative(d);
      assert ShowInt(i) == "-" + d;
    } else {
      ParseUnsigned(d);
      assert ShowInt(i) == d;
    }
  }

  /** A literal that neither starts with a sign or digit nor ends with a digit is refused. */
  lemma LiteralRefused(t: string)
    requires |t| >= 1
    requires (!IsDigit(t[0]) && t[0] != '+' && t[0] != '-') || !IsDigit(t[|t| - 1])
    ensures ParseLiteral(t) == None
  {
    if |t| >= 2 && (t[0] == '+' || t[0] == '-') {
      assert t[1..][|t[1..]| - 1] == t[|t| - 1];
    }
  }

  /** The information separators U+001C..U+001F count as `str.isspace` but `int()` refuses them. */
  lemma SeparatorRefused(d: string)
    requires |d| >= 1 && AllDigits(d)
    ensures ParseInt("\U{1C}" + d) == None
    ensures ParseInt(d + "\U{1F}") == None
  {
    var a := "\U{1C}" + d;
    assert a[0] == '\U{1C}' && a[|a| - 1] == d[|d| - 1];
    StripUnpadded(a);
    LiteralRefused(a);
    var b := d + "\U{1F}";
    assert b[0] == d[0] && b[|b| - 1] == '\U{1F}';
    StripUnpadded(b);
    LiteralRefused(b);
  }
}
