/**
 * The JavaScript built-ins the application relies on: the string methods
 * `trim`, `includes`, `split`, `join`, `toLowerCase`, the global `parseInt`
 * and the conversion of a number to its decimal text. Strings are sequences
 * of UTF-16 code units, modelled as `seq<char>`.
 */
module Js {
  import opened Wrappers

  /** A JavaScript number, restricted to integral values, or NaN. */
  datatype Num = Int(value: int) | NaN

  /** A thrown value: an Error object (its constructor name and message) or any other value. */
  datatype Thrown = ErrorObject(name: string, message: string) | OtherValue

  /** JavaScript truthiness of an optional string: `undefined` and "" are falsy. */
  predicate Truthy(s: Option<string>) {
    s.Some? && s.value != ""
  }

  /**
   * The white space and line terminators of ECMAScript (StrWhiteSpaceChar):
   * the characters `trim` removes, `parseInt` skips and `\s` matches.
   */
  predicate IsWhiteSpace(c: char) {
    || c == '\t' || c == '\n' || c == '\U{000B}' || c == '\U{000C}' || c == '\r'
    || c == ' ' || c == '\U{00A0}' || c == '\U{1680}'
    || ('\U{2000}' <= c <= '\U{200A}')
    || c == '\U{2028}' || c == '\U{2029}' || c == '\U{202F}' || c == '\U{205F}'
    || c == '\U{3000}' || c == '\U{FEFF}'
  }

  /** `String.prototype.trimStart`: the suffix left after the leading white space. */
  function TrimStart(s: string): (r: string)
    ensures |r| <= |s| && r == s[|s| - |r|..]
    ensures forall i | 0 <= i < |s| - |r| :: IsWhiteSpace(s[i])
    ensures r != [] ==> !IsWhiteSpace(r[0])
  {
    if s != [] && IsWhiteSpace(s[0]) then TrimStart(s[1..]) else s
  }

  /** `String.prototype.trimEnd`: the prefix left before the trailing white space. */
  function TrimEnd(s: string): (r: string)
    ensures |r| <= |s| && r == s[..|r|]
    ensures forall i | |r| <= i < |s| :: IsWhiteSpace(s[i])
    ensures r != [] ==> !IsWhiteSpace(r[|r| - 1])
  {
    if s != [] && IsWhiteSpace(s[|s| - 1]) then TrimEnd(s[..|s| - 1]) else s
  }

  /** `String.prototype.trim`. */
  function Trim(s: string): (r: string)
    ensures |r| <= |s|
    ensures r != [] ==> !IsWhiteSpace(r[0]) && !IsWhiteSpace(r[|r| - 1])
    ensures (forall i | 0 <= i < |s| :: !IsWhiteSpace(s[i])) ==> r == s
  {
    TrimEnd(TrimStart(s))
  }

  /** Text that neither starts nor ends with white space is its own trim. */
  lemma TrimKept(s: string)
    requires s != [] && !IsWhiteSpace(s[0]) && !IsWhiteSpace(s[|s| - 1])
    ensures Trim(s) == s
  {
    assert TrimStart(s) == s;
  }

  /** Trimming drops a leading blank before such text. */
  lemma TrimLeadingBlank(s: string)
    requires s != [] && !IsWhiteSpace(s[0]) && !IsWhiteSpace(s[|s| - 1])
    ensures Trim([' '] + s) == s
  {
    var t := [' '] + s;
    assert t[0] == ' ' && t[1..] == s;
    assert TrimStart(t) == TrimStart(s);
    TrimKept(s);
  }

  /** Trimming drops a trailing blank after such text. */
  lemma TrimTrailingBlank(s: string)
    requires s != [] && !IsWhiteSpace(s[0]) && !IsWhiteSpace(s[|s| - 1])
    ensures Trim(s + [' ']) == s
  {
    var t := s + [' '];
    assert TrimStart(t) == t;
    assert t[..|t| - 1] == s;
    assert TrimEnd(s) == s;
  }

  /** Trimming the start a second time removes nothing more. */
  lemma TrimOfTrimStart(s: string)
    ensures Trim(TrimStart(s)) == Trim(s)
  {
    var r := TrimStart(s);
    assert TrimStart(r) == r;
  }

  /** `String.prototype.indexOf`: the first position where `sub` occurs in `s`, or -1. */
  function IndexOf(s: string, sub: string): (r: int)
    ensures r == -1 || (0 <= r <= |s| && sub <= s[r..])
    ensures forall i | 0 <= i <= |s| && (r == -1 || i < r) :: !(sub <= s[i..])
    decreases |s|
  {
    if sub <= s then 0
    else if s == [] then -1
    else
      var k := IndexOf(s[1..], sub);
      assert forall i | 1 <= i <= |s| :: s[i..] == s[1..][i - 1..];
      if k == -1 then -1 else k + 1
  }

  /**
   * `String.prototype.includes`: `sub` occurs somewhere in `s` (IncludesAt and
   * NotIncludes give the two directions). The empty text is in every text.
   */
  predicate Includes(s: string, sub: string)
    ensures Includes(s, sub) ==> |sub| <= |s|
    ensures sub == [] ==> Includes(s, sub)
  {
    IndexOf(s, sub) >= 0
  }

  /** An occurrence of `sub` at any position makes `s` include it. */
  lemma IncludesAt(s: string, sub: string, i: nat)
    requires i <= |s| && sub <= s[i..]
    ensures Includes(s, sub)
  {
  }

  /** Text that lacks the first character of `sub` does not include `sub`. */
  lemma NotIncludes(s: string, sub: string)
    requires sub != [] && sub[0] !in s
    ensures !Includes(s, sub)
  {
  }

  /**
   * `Array.prototype.join` with separator `sep`: "" for no parts; otherwise
   * the text starts with the first part.
   */
  function Join(parts: seq<string>, sep: string): (r: string)
    ensures parts == [] ==> r == ""
    ensures parts != [] ==> parts[0] <= r
  {
    if |parts| == 0 then ""
    else if |parts| == 1 then parts[0]
    else parts[0] + sep + Join(parts[1..], sep)
  }

  /**
   * `String.prototype.split` with a one-character separator: the pieces between
   * the occurrences of `sep`, in order. The first piece is the text before the
   * first `sep`, or all of `s` when there is none.
   */
  function Split(s: string, sep: char): (parts: seq<string>)
    ensures |parts| >= 1
    ensures forall i | 0 <= i < |parts| :: sep !in parts[i]
    ensures parts[0] <= s && (|parts[0]| < |s| ==> s[|parts[0]|] == sep)
  {
    if s == [] then [""]
    else
      var rest := Split(s[1..], sep);
      if s[0] == sep then [""] + rest else [[s[0]] + rest[0]] + rest[1..]
  }

  /** Joining the pieces back with the separator gives the original text. */
  lemma {:induction false} SplitJoin(s: string, sep: char)
    ensures Join(Split(s, sep), [sep]) == s
  {
    if s != [] {
      var rest := Split(s[1..], sep);
      SplitJoin(s[1..], sep);
      assert s == [s[0]] + s[1..];
      if s[0] != sep && |rest| > 1 {
        assert Join(rest, [sep]) == rest[0] + [sep] + Join(rest[1..], [sep]);
      }
    }
  }

  /** There is one more piece than there are separators. */
  lemma {:induction false} SplitCount(s: string, sep: char)
    ensures |Split(s, sep)| == multiset(s)[sep] + 1
  {
    if s != [] {
      SplitCount(s[1..], sep);
      assert s == [s[0]] + s[1..];
    }
  }

  /** Without a separator the text is a single piece. */
  lemma SplitWithoutSeparator(s: string, sep: char)
    requires sep !in s
    ensures Split(s, sep) == [s]
  {
    SplitCount(s, sep);
    SplitJoin(s, sep);
  }

  /** Once the first separator is known, the split continues on the text after it. */
  lemma {:induction false} SplitAfterFirst(s: string, sep: char)
    requires sep in s
    ensures |Split(s, sep)[0]| < |s|
    ensures Split(s, sep) == [Split(s, sep)[0]] + Split(s[|Split(s, sep)[0]| + 1..], sep)
  {
    var parts := Split(s, sep);
    var j :| 0 <= j < |s| && s[j] == sep;
    assert forall k | 0 <= k < |parts[0]| :: s[k] == parts[0][k];
    assert |parts[0]| <= j;
    if s[0] != sep {
      assert s[1..][j - 1] == sep;
      SplitAfterFirst(s[1..], sep);
      assert s[|parts[0]| + 1..] == s[1..][|Split(s[1..], sep)[0]| + 1..];
    }
  }

  /** The text before the first `sep`, or all of `s` when it has none. */
  function TextBefore(s: string, sep: char): (r: string)
    ensures r <= s && sep !in r
    ensures |r| < |s| ==> s[|r|] == sep
  {
    var i := IndexOf(s, [sep]);
    if i < 0 then
      assert sep !in s by {
        forall k | 0 <= k < |s| ensures s[k] != sep {
          assert !([sep] <= s[k..]);
        }
      }
      s
    else
      assert forall k | 0 <= k < i :: s[k] != sep by {
        forall k | 0 <= k < i ensures s[k] != sep {
          assert !([sep] <= s[k..]);
        }
      }
      s[..i]
  }

  /** Text free of the separator, followed by the separator, is the first piece on its own. */
  lemma {:induction false} SplitAppend(a: string, sep: char, b: string)
    requires sep !in a
    ensures Split(a + [sep] + b, sep) == [a] + Split(b, sep)
  {
    var s := a + [sep] + b;
    if a == [] {
      assert s[1..] == b;
    } else {
      assert s[1..] == a[1..] + [sep] + b;
      SplitAppend(a[1..], sep, b);
      assert [s[0]] + a[1..] == a;
    }
  }

  /** The first piece of a split is the text before the first separator. */
  lemma SplitFirstPiece(s: string, sep: char)
    ensures Split(s, sep)[0] == TextBefore(s, sep)
  {
    var p := Split(s, sep)[0];
    var q := TextBefore(s, sep);
    assert forall k | 0 <= k < |p| :: p[k] == s[k];
    assert forall k | 0 <= k < |q| :: q[k] == s[k];
  }

  /** The text before the first separator, when it is the one after `a`. */
  lemma TextBeforeSep(a: string, sep: char, b: string)
    requires sep !in a
    ensures TextBefore(a + [sep] + b, sep) == a
  {
    var s := a + [sep] + b;
    assert s[|a|] == sep;
    assert forall k | 0 <= k < |a| :: s[k] == a[k];
  }

  /** After the last separator comes the last piece. */
  lemma {:induction false} SplitLast(a: string, sep: char, b: string)
    requires sep !in b
    ensures var parts := Split(a + [sep] + b, sep);
            parts[|parts| - 1] == b
  {
    var s := a + [sep] + b;
    if a == [] {
      assert s[1..] == b;
      SplitWithoutSeparator(b, sep);
    } else {
      var t := a[1..] + [sep] + b;
      assert s[1..] == t;
      SplitLast(a[1..], sep, b);
      assert |Split(t, sep)| >= 2 by {
        SplitCount(t, sep);
        assert t[|a| - 1] == sep;
      }
      SplitTail(s, sep);
    }
  }

  /** When the rest of the text splits into two or more pieces, the first character does not change the last piece. */
  lemma SplitTail(s: string, sep: char)
    requires s != [] && |Split(s[1..], sep)| >= 2
    ensures var parts, rest := Split(s, sep), Split(s[1..], sep);
            parts[|parts| - 1] == rest[|rest| - 1]
  {
  }

  /** ASCII digit test, the `\d` and `[0-9]` of regular expressions. */
  predicate IsDecimalDigit(c: char) {
    '0' <= c <= '9'
  }

  /** The value of a digit character in radix up to 36; 36 for anything that is not a digit. */
  function DigitValue(c: char): (d: nat)
    ensures d <= 36
    ensures d < 10 <==> IsDecimalDigit(c)
  {
    if '0' <= c <= '9' then c as int - '0' as int
    else if 'a' <= c <= 'z' then c as int - 'a' as int + 10
    else if 'A' <= c <= 'Z' then c as int - 'A' as int + 10
    else 36
  }

  /** The length of the longest prefix of `s` made of digits of `radix`. */
  function LeadingDigits(s: string, radix: nat): (n: nat)
    ensures n <= |s|
    ensures forall i | 0 <= i < n :: DigitValue(s[i]) < radix
    ensures n < |s| ==> DigitValue(s[n]) >= radix
  {
    if s != [] && DigitValue(s[0]) < radix then 1 + LeadingDigits(s[1..], radix) else 0
  }

  /** The value of a digit string read most significant digit first. */
  function DigitsValue(ds: string, radix: nat): nat {
    if ds == [] then 0
    else DigitsValue(ds[..|ds| - 1], radix) * radix + DigitValue(ds[|ds| - 1])
  }

  /**
   * The global `parseInt(s)` with no radix argument: skip leading white space,
   * take an optional sign, read hexadecimal after a "0x"/"0X" prefix and decimal
   * otherwise, and convert the longest run of digits; NaN when there is none.
   */
  function ParseInt(s: string): (r: Num)
    ensures TrimStart(s) == [] ==> r == NaN
    ensures r.Int? && r.value < 0 ==> TrimStart(s)[0] == '-'
  {
    var t := TrimStart(s);
    var negative := t != [] && t[0] == '-';
    var u := if t != [] && (t[0] == '-' || t[0] == '+') then t[1..] else t;
    match UnsignedPrefixValue(u)
    case None => NaN
    case Some(m) => var v: int := m; Int(if negative then -v else v)
  }

  /** The value of the digits at the start of an unsigned numeral, hexadecimal after "0x"/"0X". */
  function UnsignedPrefixValue(u: string): Option<nat> {
    if |u| >= 2 && u[0] == '0' && (u[1] == 'x' || u[1] == 'X') then
      var n := LeadingDigits(u[2..], 16);
      if n == 0 then None else Some(DigitsValue(u[2..][..n], 16))
    else
      var n := LeadingDigits(u, 10);
      if n == 0 then None else Some(DigitsValue(u[..n], 10))
  }

  /** `s.replace(/[^0-9]/g, '')`: the decimal digits of `s`, in order. */
  function DigitsOnly(s: string): (r: string)
    ensures |r| <= |s|
    ensures forall i | 0 <= i < |r| :: IsDecimalDigit(r[i])
    ensures (forall i | 0 <= i < |s| :: IsDecimalDigit(s[i])) ==> r == s
  {
    if s == [] then ""
    else if IsDecimalDigit(s[0]) then [s[0]] + DigitsOnly(s[1..])
    else DigitsOnly(s[1..])
  }

  /** Text without digits keeps none. */
  lemma {:induction false} DigitsOnlyOfNoDigits(s: string)
    requires forall i | 0 <= i < |s| :: !IsDecimalDigit(s[i])
    ensures DigitsOnly(s) == ""
  {
    if s != [] {
      DigitsOnlyOfNoDigits(s[1..]);
    }
  }

  /** Dropping the non-digits works piece by piece. */
  lemma {:induction false} DigitsOnlyAppend(a: string, b: string)
    ensures DigitsOnly(a + b) == DigitsOnly(a) + DigitsOnly(b)
  {
    if a != [] {
      assert (a + b)[0] == a[0] && (a + b)[1..] == a[1..] + b;
      DigitsOnlyAppend(a[1..], b);
    } else {
      assert a + b == b;
    }
  }

  /** Lower-cases the ASCII letters of `s`; every other character is kept. */
  function ToLowerAscii(s: string): (r: string)
    ensures |r| == |s|
    ensures forall i | 0 <= i < |s| :: r[i] == if 'A' <= s[i] <= 'Z' then (s[i] as int + 32) as char else s[i]
  {
    if s == [] then ""
    else [if 'A' <= s[0] <= 'Z' then (s[0] as int + 32) as char else s[0]] + ToLowerAscii(s[1..])
  }

  /** Text without upper-case letters is already lower case. */
  lemma ToLowerAsciiOfLower(s: string)
    requires forall i | 0 <= i < |s| :: !('A' <= s[i] <= 'Z')
    ensures ToLowerAscii(s) == s
  {
  }

  /** The decimal text of a natural number, without leading zeros. */
  function NatToString(n: nat): (r: string)
    ensures r != []
    ensures forall i | 0 <= i < |r| :: IsDecimalDigit(r[i])
    ensures r[0] == '0' ==> n == 0 && |r| == 1
  {
    var d := ['0' + (n % 10) as char];
    if n < 10 then d else NatToString(n / 10) + d
  }

  /** `String(n)` for an integral number; NaN prints as "NaN". Only a negative number gets a sign. */
  function NumToString(x: Num): (r: string)
    ensures r != []
    ensures r[0] == '-' <==> x.Int? && x.value < 0
  {
    match x
    case NaN => "NaN"
    case Int(n) => if n < 0 then "-" + NatToString(-n) else NatToString(n)
  }

  /** The text a template literal gives an optional number: `undefined` prints as "undefined". */
  function OptionalNumToString(x: Option<Num>): (r: string)
    ensures r != []
  {
    match x
    case None => "undefined"
    case Some(n) => NumToString(n)
  }

  /** Reading the decimal text of a natural number gives the number back. */
  lemma {:induction false} DigitsValueOfNatToString(n: nat)
    ensures DigitsValue(NatToString(n), 10) == n
  {
    var s := NatToString(n);
    if n >= 10 {
      DigitsValueOfNatToString(n / 10);
      assert s[..|s| - 1] == NatToString(n / 10);
    }
  }

  /** A string of decimal digits is read in full by `parseInt`. */
  lemma ParseIntOfDigits(s: string)
    requires s != [] && forall i | 0 <= i < |s| :: IsDecimalDigit(s[i])
    requires s[0] == '0' ==> |s| == 1
    ensures ParseInt(s) == Int(DigitsValue(s, 10))
  {
    assert !IsWhiteSpace(s[0]) && s[0] != '-' && s[0] != '+';
    ParseIntUnsigned(s);
    UnsignedDigits(s);
  }

  /** Text that starts with neither white space nor a sign is read as an unsigned numeral. */
  lemma ParseIntUnsigned(s: string)
    requires s != [] && !IsWhiteSpace(s[0]) && s[0] != '-' && s[0] != '+'
    ensures ParseInt(s) == if UnsignedPrefixValue(s).Some? then Int(UnsignedPrefixValue(s).value) else NaN
  {
    assert TrimStart(s) == s;
  }

  /** An unsigned decimal numeral without a "0x" prefix is read in full. */
  lemma UnsignedDigits(s: string)
    requires s != [] && forall i | 0 <= i < |s| :: IsDecimalDigit(s[i])
    requires s[0] == '0' ==> |s| == 1
    ensures UnsignedPrefixValue(s) == Some(DigitsValue(s, 10))
  {
    LeadingDigitsOfDigits(s);
    assert s[..|s|] == s;
  }

  /** A run of decimal digits is read to its end. */
  lemma {:induction false} LeadingDigitsOfDigits(s: string)
    requires forall i | 0 <= i < |s| :: IsDecimalDigit(s[i])
    ensures LeadingDigits(s, 10) == |s|
  {
    if s != [] {
      LeadingDigitsOfDigits(s[1..]);
    }
  }

  /** `parseInt(String(x))` gives `x` back, for every integral number and for NaN. */
  lemma ParseIntOfNumToString(x: Num)
    ensures ParseInt(NumToString(x)) == x
  {
    match x
    case NaN => ParseIntOfNaNText();
    case Int(n) =>
      if n < 0 {
        ParseIntOfNegativeText(-n);
      } else {
        ParseIntOfNatText(n);
      }
  }

  /** "NaN" has no digits to read. */
  lemma ParseIntOfNaNText()
    ensures ParseInt(NumToString(NaN)) == NaN
  {
    var s := NumToString(NaN);
    assert s == "NaN";
    assert TrimStart(s) == s by {
      assert !IsWhiteSpace(s[0]);
    }
    assert LeadingDigits(s, 10) == 0;
  }

  /** The text of a natural number is read back in full. */
  lemma ParseIntOfNatText(n: nat)
    ensures ParseInt(NumToString(Int(n))) == Int(n)
  {
    var s := NatToString(n);
    assert NumToString(Int(n)) == s;
    assert DigitsValue(s, 10) == n by {
      DigitsValueOfNatToString(n);
    }
    ParseIntOfDigits(s);
  }

  /** The text of a negative number is read back with its sign. */
  lemma ParseIntOfNegativeText(m: nat)
    requires m > 0
    ensures ParseInt(NumToString(Int(-(m as int)))) == Int(-(m as int))
  {
    var digits := NatToString(m);
    var s := "-" + digits;
    assert NumToString(Int(-(m as int))) == s;
    assert UnsignedPrefixValue(digits) == Some(m) by {
      DigitsValueOfNatToString(m);
      UnsignedDigits(digits);
    }
    assert TrimStart(s) == s by {
      assert !IsWhiteSpace(s[0]);
    }
    assert s[1..] == digits;
  }
}
