/**
 * The handful of Python string operations the scripts rely on, written over
 * `seq<char>`: `str.strip()`, `str.split(sep)`, `sep.join(...)`, `int(...)`
 * on decimal text, `str(n)` and `str.upper()`. Only ASCII is modelled:
 * Python's Unicode whitespace, Unicode digits and case mappings are not.
 */
module Text {
  import opened Wrappers

  /** ASCII whitespace: what `str.strip()` and `int()` discard around a token. */
  predicate IsSpace(c: char) {
    c == ' ' || c == '\t' || c == '\n' || c == '\r' || c == '\U{000B}' || c == '\U{000C}'
  }

  /** Drops leading whitespace. */
  function TrimLeft(s: string): (r: string)
    ensures |r| <= |s|
    ensures r == [] || !IsSpace(r[0])
    ensures s == [] || !IsSpace(s[0]) ==> r == s
  {
    if s != [] && IsSpace(s[0]) then TrimLeft(s[1..]) else s
  }

  /** Drops trailing whitespace. */
  function TrimRight(s: string): (r: string)
    ensures |r| <= |s|
    ensures r == [] || (!IsSpace(r[|r| - 1]) && r[0] == s[0])
    ensures s == [] || !IsSpace(s[|s| - 1]) ==> r == s
  {
    if s != [] && IsSpace(s[|s| - 1]) then TrimRight(s[..|s| - 1]) else s
  }

  /** Python's `str.strip()`: the text with the whitespace at both ends removed. */
  function Strip(s: string): (r: string)
    ensures |r| <= |s|
    ensures r == [] || (!IsSpace(r[0]) && !IsSpace(r[|r| - 1]))
    ensures s == [] || (!IsSpace(s[0]) && !IsSpace(s[|s| - 1])) ==> r == s
  {
    TrimRight(TrimLeft(s))
  }

  /** Python's `s.split(sep)` for a one-character separator: one more part than separators. */
  function Split(s: string, sep: char): (parts: seq<string>)
    ensures |parts| >= 1
    ensures |parts| == 1 <==> sep !in s
    ensures forall i :: 0 <= i < |parts| ==> sep !in parts[i]
    decreases |s|
  {
    if s == [] then [[]]
    else
      var rest := Split(s[1..], sep);
      assert s == [s[0]] + s[1..];
      if s[0] == sep then [[]] + rest
      else [[s[0]] + rest[0]] + rest[1..]
  }

  /** Python's `sep.join(parts)` for a one-character separator. */
  function Join(parts: seq<string>, sep: char): string
  {
    if |parts| == 0 then []
    else if |parts| == 1 then parts[0]
    else parts[0] + [sep] + Join(parts[1..], sep)
  }

  lemma {:induction false} JoinPrepend(parts: seq<string>, sep: char, c: char)
    requires |parts| >= 1
    ensures Join([[c] + parts[0]] + parts[1..], sep) == [c] + Join(parts, sep)
  {
    var q := [[c] + parts[0]] + parts[1..];
    assert q[1..] == parts[1..];
  }

  /** Joining the parts of a split gives back the original text. */
  lemma {:induction false} JoinSplit(s: string, sep: char)
    ensures Join(Split(s, sep), sep) == s
    decreases |s|
  {
    if s != [] {
      JoinSplit(s[1..], sep);
      var rest := Split(s[1..], sep);
      if s[0] == sep {
        assert ([[]] + rest)[1..] == rest;
        assert s == [sep] + s[1..];
      } else {
        JoinPrepend(rest, sep, s[0]);
        assert s == [s[0]] + s[1..];
      }
    }
  }

  /** Text without the separator is a single part. */
  lemma SplitWhole(a: string, sep: char)
    requires sep !in a
    ensures Split(a, sep) == [a]
  {
    JoinSplit(a, sep);
  }

  /** A separator after separator-free text ends the first part there. */
  lemma {:induction false} SplitAround(a: string, b: string, sep: char)
    requires sep !in a
    ensures Split(a + [sep] + b, sep) == [a] + Split(b, sep)
    decreases |a|
  {
    var s := a + [sep] + b;
    if a == [] {
      assert s == [sep] + b;
      assert s[1..] == b;
    } else {
      SplitAround(a[1..], b, sep);
      assert s[1..] == a[1..] + [sep] + b;
      assert [a[0]] + a[1..] == a;
    }
  }

  /** Splitting a join of separator-free parts gives back the parts. */
  lemma {:induction false} SplitJoin(parts: seq<string>, sep: char)
    requires |parts| >= 1
    requires forall i :: 0 <= i < |parts| ==> sep !in parts[i]
    ensures Split(Join(parts, sep), sep) == parts
    decreases |parts|
  {
    if |parts| == 1 {
      SplitWhole(parts[0], sep);
    } else {
      SplitJoin(parts[1..], sep);
      SplitAround(parts[0], Join(parts[1..], sep), sep);
      assert [parts[0]] + parts[1..] == parts;
    }
  }

  predicate IsDigit(c: char) {
    '0' <= c <= '9'
  }

  predicate AllDigits(s: string) {
    forall i :: 0 <= i < |s| ==> IsDigit(s[i])
  }

  /** The value of a run of decimal digits, most significant first. */
  function DigitsValue(s: string): nat
    requires AllDigits(s)
  {
    if s == [] then 0 else DigitsValue(s[..|s| - 1]) * 10 + (s[|s| - 1] as int - '0' as int)
  }

  /**
   * Python's `int(s)` on text that holds no sign and no underscore: the
   * whitespace around it is dropped and what remains must be a non-empty run
   * of digits (leading zeros allowed); anything else raises ValueError.
   */
  function ParseNat(s: string): Option<nat>
  {
    var t := Strip(s);
    if t != [] && AllDigits(t) then Some(DigitsValue(t)) else None
  }

  /** Python's `str(n)` for a natural number. */
  function Decimal(n: nat): (r: string)
    ensures |r| >= 1 && AllDigits(r)
  {
    if n < 10 then [('0' as int + n) as char]
    else Decimal(n / 10) + [('0' as int + n % 10) as char]
  }

  /** Python's `str(i)` for any integer. */
  function IntText(i: int): string
  {
    if i < 0 then "-" + Decimal(-i) else Decimal(i)
  }

  lemma {:induction false} DecimalValue(n: nat)
    ensures DigitsValue(Decimal(n)) == n
  {
    if n >= 10 {
      DecimalValue(n / 10);
      var d := Decimal(n);
      assert d[..|d| - 1] == Decimal(n / 10);
    }
  }

  /** `int(str(n)) == n`. */
  lemma ParseDecimal(n: nat)
    ensures ParseNat(Decimal(n)) == Some(n)
  {
    var d := Decimal(n);
    assert !IsSpace(d[0]) && !IsSpace(d[|d| - 1]);
    DecimalValue(n);
  }

  /** A leading zero does not change the value of a run of digits. */
  lemma {:induction false} LeadingZero(s: string)
    requires AllDigits(s)
    ensures AllDigits("0" + s) && DigitsValue("0" + s) == DigitsValue(s)
    decreases |s|
  {
    var z := "0" + s;
    if s != [] {
      LeadingZero(s[..|s| - 1]);
      assert z[..|z| - 1] == "0" + s[..|s| - 1];
    }
  }

  /** Python's `str.upper()` on one ASCII character. */
  function UpperChar(c: char): char
  {
    if 'a' <= c <= 'z' then (c as int - 32) as char else c
  }

  /** Python's `str.upper()` on ASCII text. */
  function Upper(s: string): string
  {
    seq(|s|, i requires 0 <= i < |s| => UpperChar(s[i]))
  }
}
