/**
 * The string operations MovieMeta relies on: quote escaping
 * (`s.replace('"', '\\"')`), splitting on a separator (`s.split(sep)`),
 * positional template formatting (`template.format(a0, a1)`) and the decimal
 * rendering of an integer (`str(n)`).
 */
module Strings {

  /** Number of occurrences of `c` in `s`. */
  function Count(s: string, c: char): (n: nat)
    ensures n <= |s|
  {
    if s == [] then 0 else (if s[0] == c then 1 else 0) + Count(s[1..], c)
  }

  // ---------------------------------------------------------------------------
  // Escaping double quotes

  /**
   * Replaces every `"` by the two characters `\"` and keeps every other
   * character. The result grows by one character per quote, and every quote
   * in it is preceded by a backslash.
   */
  function Escape(s: string): (r: string)
    ensures |r| == |s| + Count(s, '"')
    ensures forall i :: 0 <= i < |r| && r[i] == '"' ==> 0 < i && r[i - 1] == '\\'
    ensures '"' !in s ==> r == s
  {
    if s == [] then []
    else if s[0] == '"' then ['\\', '"'] + Escape(s[1..])
    else [s[0]] + Escape(s[1..])
  }

  /** Reads `\"` back as `"`; every other character is kept. */
  function Unescape(s: string): (r: string)
    ensures |r| <= |s|
  {
    if s == [] then []
    else if |s| >= 2 && s[0] == '\\' && s[1] == '"' then ['"'] + Unescape(s[2..])
    else [s[0]] + Unescape(s[1..])
  }

  /** Escaping loses nothing: unescaping gives the original text back. */
  lemma {:induction false} UnescapeEscape(s: string)
    ensures Unescape(Escape(s)) == s
  {
    if s != [] {
      var rest := Escape(s[1..]);
      UnescapeEscape(s[1..]);
      if s[0] == '"' {
        assert Escape(s) == ['\\', '"'] + rest;
        assert (['\\', '"'] + rest)[2..] == rest;
      } else {
        assert Escape(s) == [s[0]] + rest;
        assert rest != [] ==> rest[0] != '"';
        assert ([s[0]] + rest)[1..] == rest;
      }
    }
  }

  // ---------------------------------------------------------------------------
  // Splitting on a separator

  /**
   * `s.split(sep)`: the maximal pieces of `s` between occurrences of `sep`.
   * There is one piece more than there are separators (so `""` gives `[""]`),
   * and no piece contains the separator.
   */
  function Split(s: string, sep: char): (parts: seq<string>)
    ensures |parts| == Count(s, sep) + 1
    ensures forall i :: 0 <= i < |parts| ==> sep !in parts[i]
  {
    if s == [] then [""]
    else
      var rest := Split(s[1..], sep);
      if s[0] == sep then [""] + rest
      else [[s[0]] + rest[0]] + rest[1..]
  }

  /** `sep.join(parts)`. */
  function Join(parts: seq<string>, sep: char): (s: string)
    requires |parts| >= 1
    ensures |parts| == 1 ==> s == parts[0]
  {
    if |parts| == 1 then parts[0] else parts[0] + [sep] + Join(parts[1..], sep)
  }

  /** Joining the pieces with the separator rebuilds the split text. */
  lemma {:induction false} JoinSplit(s: string, sep: char)
    ensures Join(Split(s, sep), sep) == s
  {
    if s != [] {
      var rest := Split(s[1..], sep);
      JoinSplit(s[1..], sep);
      if s[0] == sep {
        assert Split(s, sep) == [""] + rest;
        assert ([""] + rest)[1..] == rest;
        assert s == [sep] + s[1..];
      } else {
        var parts := Split(s, sep);
        assert parts == [[s[0]] + rest[0]] + rest[1..];
        if |rest| == 1 {
          assert s == [s[0]] + s[1..];
        } else {
          assert parts[1..] == rest[1..];
          assert Join(rest, sep) == rest[0] + [sep] + Join(rest[1..], sep);
          assert s == [s[0]] + s[1..];
        }
      }
    }
  }

  lemma {:induction false} SplitWithout(a: string, sep: char)
    requires sep !in a
    ensures Split(a, sep) == [a]
  {
    if a != [] {
      SplitWithout(a[1..], sep);
      assert [a[0]] + a[1..] == a;
    }
  }

  lemma {:induction false} SplitAfterPiece(a: string, b: string, sep: char)
    requires sep !in a
    ensures Split(a + [sep] + b, sep) == [a] + Split(b, sep)
  {
    if a == [] {
      assert [] + [sep] + b == [sep] + b;
      assert ([sep] + b)[1..] == b;
    } else {
      SplitAfterPiece(a[1..], b, sep);
      var s := a + [sep] + b;
      assert s[0] == a[0];
      assert s[1..] == a[1..] + [sep] + b;
      assert [a[0]] + a[1..] == a;
    }
  }

  /** Splitting what was joined gives the pieces back, provided no piece holds the separator. */
  lemma {:induction false} SplitJoin(parts: seq<string>, sep: char)
    requires |parts| >= 1
    requires forall i :: 0 <= i < |parts| ==> sep !in parts[i]
    ensures Split(Join(parts, sep), sep) == parts
  {
    if |parts| == 1 {
      SplitWithout(parts[0], sep);
    } else {
      SplitJoin(parts[1..], sep);
      SplitAfterPiece(parts[0], Join(parts[1..], sep), sep);
      assert [parts[0]] + parts[1..] == parts;
    }
  }

  // ---------------------------------------------------------------------------
  // Decimal rendering of integers

  function DigitChar(d: nat): (c: char)
    requires d < 10
    ensures '0' <= c <= '9'
  {
    ('0' as int + d) as char
  }

  function DigitValue(c: char): int {
    c as int - '0' as int
  }

  /** `str(n)` for a natural number: its decimal digits, most significant first, without leading zeros. */
  function NatToDecimal(n: nat): (s: string)
    ensures |s| >= 1
    ensures forall i :: 0 <= i < |s| ==> '0' <= s[i] <= '9'
    ensures |s| > 1 ==> s[0] != '0'
  {
    if n < 10 then [DigitChar(n)] else NatToDecimal(n / 10) + [DigitChar(n % 10)]
  }

  /** `str(n)` for any integer: a minus sign before the digits of a negative number. */
  function Decimal(n: int): string {
    if n < 0 then "-" + NatToDecimal(-n) else NatToDecimal(n)
  }

  /** The value of a string of decimal digits. */
  function DigitsValue(s: string): int {
    if s == [] then 0 else 10 * DigitsValue(s[..|s| - 1]) + DigitValue(s[|s| - 1])
  }

  /** Reads a decimal rendering back. */
  function DecimalValue(s: string): int {
    if s != [] && s[0] == '-' then -DigitsValue(s[1..]) else DigitsValue(s)
  }

  lemma {:induction false} NatToDecimalValue(n: nat)
    ensures DigitsValue(NatToDecimal(n)) == n
  {
    if n >= 10 {
      NatToDecimalValue(n / 10);
      var s := NatToDecimal(n);
      assert s[..|s| - 1] == NatToDecimal(n / 10);
    }
  }

  /** The decimal rendering of an integer reads back as that integer. */
  lemma DecimalRoundTrip(n: int)
    ensures DecimalValue(Decimal(n)) == n
  {
    if n < 0 {
      NatToDecimalValue(-n);
      assert ("-" + NatToDecimal(-n))[1..] == NatToDecimal(-n);
    } else {
      NatToDecimalValue(n);
    }
  }

  // ---------------------------------------------------------------------------
  // Positional templates

  /** True when `t` starts with a placeholder `{d}` for a single digit `d`. */
  predicate StartsWithPlaceholder(t: string) {
    |t| >= 3 && t[0] == '{' && '0' <= t[1] <= '9' && t[2] == '}'
  }

  /**
   * `template.format(*args)` for templates whose only replacement fields are
   * `{0}` ... `{9}`: each field is replaced by the argument it names, every
   * other character is copied. A field naming a missing argument is copied
   * unchanged (Python raises an error there; no template used here has one).
   */
  function Format(template: string, args: seq<string>): (r: string)
    ensures '{' !in template ==> r == template
  {
    if template == [] then []
    else if StartsWithPlaceholder(template) && DigitValue(template[1]) < |args| then
      args[DigitValue(template[1])] + Format(template[3..], args)
    else
      [template[0]] + Format(template[1..], args)
  }

  /** Formatting distributes over a literal part that holds no `{`. */
  lemma {:induction false} FormatLiteralPrefix(lit: string, rest: string, args: seq<string>)
    requires '{' !in lit
    ensures Format(lit + rest, args) == lit + Format(rest, args)
  {
    if lit != [] {
      FormatLiteralPrefix(lit[1..], rest, args);
      var t := lit + rest;
      assert t[0] == lit[0] && lit[0] != '{';
      assert !StartsWithPlaceholder(t);
      assert t[1..] == lit[1..] + rest;
      assert Format(t, args) == [lit[0]] + Format(lit[1..] + rest, args);
      assert lit + Format(rest, args) == [lit[0]] + (lit[1..] + Format(rest, args));
    } else {
      assert lit + rest == rest;
    }
  }

  /** A placeholder `{d}` in front of the rest is replaced by argument `d`. */
  lemma FormatPlaceholder(d: nat, rest: string, args: seq<string>)
    requires d < 10 && d < |args|
    ensures Format(['{', DigitChar(d), '}'] + rest, args) == args[d] + Format(rest, args)
  {
  }
}
