/** Character classes and decimal numerals, as the C library reads and prints them in the C locale.
    A C string is the sequence of its characters before the terminating NUL. */
module Text {

  predicate IsSpace(c: char) {
    c == ' ' || '\t' <= c <= '\r'
  }

  function ToUpper(c: char): char {
    if 'a' <= c <= 'z' then (c as int - 32) as char else c
  }

  function ToLower(c: char): char {
    if 'A' <= c <= 'Z' then (c as int + 32) as char else c
  }

  predicate IsDigit(c: char) {
    '0' <= c <= '9'
  }

  predicate AllSpace(s: string) {
    forall i :: 0 <= i < |s| ==> IsSpace(s[i])
  }

  predicate NoSpace(s: string) {
    forall i :: 0 <= i < |s| ==> !IsSpace(s[i])
  }

  function SkipSpace(s: string): (r: string)
    ensures |r| <= |s|
    ensures r != "" ==> !IsSpace(r[0])
    ensures s != "" && IsSpace(s[0]) ==> |r| < |s|
  {
    if s != "" && IsSpace(s[0]) then SkipSpace(s[1..]) else s
  }

  lemma {:induction false} SkipSpacePrefix(w: string, s: string)
    requires AllSpace(w)
    ensures SkipSpace(w + s) == SkipSpace(s)
  {
    if w == "" {
      assert w + s == s;
    } else {
      assert (w + s)[1..] == w[1..] + s;
      SkipSpacePrefix(w[1..], s);
    }
  }

  lemma SkipAllSpace(w: string)
    requires AllSpace(w)
    ensures SkipSpace(w) == ""
  {
    SkipSpacePrefix(w, "");
    assert w + "" == w;
  }

  lemma SkipKeeps(s: string)
    requires s == "" || !IsSpace(s[0])
    ensures SkipSpace(s) == s
  {
  }

  lemma {:induction false} TakeSpace(s: string) returns (before: string)
    ensures AllSpace(before) && s == before + SkipSpace(s)
  {
    before := "";
    if s != "" && IsSpace(s[0]) {
      before := TakeSpace(s[1..]);
      before := [s[0]] + before;
    }
  }

  /** The C string in a buffer: the characters before the first NUL. */
  function CString(s: string): (r: string)
    ensures |r| <= |s|
  {
    if s == "" || s[0] == '\0' then "" else [s[0]] + CString(s[1..])
  }

  function TrimRight(s: string): (r: string)
    ensures |r| <= |s|
    ensures r != "" ==> !IsSpace(r[|r| - 1])
  {
    if s != "" && IsSpace(s[|s| - 1]) then TrimRight(s[..|s| - 1]) else s
  }

  function Trim(s: string): string {
    TrimRight(SkipSpace(s))
  }

  lemma {:induction false} TrimRightSuffix(s: string, w: string)
    requires AllSpace(w)
    ensures TrimRight(s + w) == TrimRight(s)
  {
    if w == "" {
      assert s + w == s;
    } else {
      assert (s + w)[..|s + w| - 1] == s + w[..|w| - 1];
      TrimRightSuffix(s, w[..|w| - 1]);
    }
  }

  // ---------------------------------------------------------------- decimal numerals

  function DigitChar(d: nat): (c: char)
    requires d < 10
    ensures IsDigit(c)
  {
    ('0' as int + d) as char
  }

  function DigitValue(c: char): (d: nat)
    requires IsDigit(c)
    ensures d < 10
  {
    c as int - '0' as int
  }

  /** `%u`: no sign, no leading zeros. */
  function Decimal(n: nat): (s: string)
    ensures s != "" && forall i :: 0 <= i < |s| ==> IsDigit(s[i])
  {
    if n < 10 then [DigitChar(n)] else Decimal(n / 10) + [DigitChar(n % 10)]
  }

  predicate StartsWithDigit(s: string) {
    s != "" && IsDigit(s[0])
  }

  /** Reads the longest run of digits, continuing from the value read so far. */
  function ReadDigits(s: string, acc: nat): (r: (nat, string))
    ensures |r.1| <= |s|
    ensures StartsWithDigit(s) ==> |r.1| < |s|
    ensures !StartsWithDigit(r.1)
    decreases s
  {
    if StartsWithDigit(s) then ReadDigits(s[1..], 10 * acc + DigitValue(s[0])) else (acc, s)
  }

  /** Reading a printed numeral gives the number back, whatever follows it. */
  lemma {:induction false} ReadDecimal(n: nat, rest: string)
    ensures ReadDigits(Decimal(n) + rest, 0) == ReadDigits(rest, n)
    decreases n
  {
    var d := [DigitChar(n % 10)];
    assert (d + rest)[1..] == rest;
    if n < 10 {
      assert Decimal(n) == d;
    } else {
      assert Decimal(n) + rest == Decimal(n / 10) + (d + rest);
      ReadDecimal(n / 10, d + rest);
    }
  }

  lemma ReadDecimalExactly(n: nat, rest: string)
    requires !StartsWithDigit(rest)
    ensures ReadDigits(Decimal(n) + rest, 0) == (n, rest)
  {
    ReadDecimal(n, rest);
  }

  lemma {:induction false} DecimalLength(n: nat, digits: nat)
    requires digits >= 1 && n < PowerOfTen(digits)
    ensures |Decimal(n)| <= digits
    decreases digits
  {
    assert PowerOfTen(1) == 10;
    if n >= 10 {
      DecimalLength(n / 10, digits - 1);
    }
  }

  function PowerOfTen(n: nat): nat {
    if n == 0 then 1 else 10 * PowerOfTen(n - 1)
  }

  /** The number a run of decimal digits stands for. */
  function NumberOf(digits: string): nat
    requires forall i :: 0 <= i < |digits| ==> IsDigit(digits[i])
  {
    if digits == "" then 0 else 10 * NumberOf(digits[..|digits| - 1]) + DigitValue(digits[|digits| - 1])
  }

  lemma {:induction false} ReadRun(digits: string, more: string, rest: string)
    requires forall i :: 0 <= i < |digits| ==> IsDigit(digits[i])
    requires forall i :: 0 <= i < |more| ==> IsDigit(more[i])
    requires !StartsWithDigit(rest)
    ensures ReadDigits(more + rest, NumberOf(digits)) == (NumberOf(digits + more), rest)
    decreases more
  {
    if more == "" {
      assert more + rest == rest && digits + more == digits;
    } else {
      var d := digits + [more[0]];
      assert (more + rest)[1..] == more[1..] + rest;
      assert d[..|d| - 1] == digits && d + more[1..] == digits + more;
      ReadRun(d, more[1..], rest);
    }
  }

  lemma ReadWhole(digits: string, rest: string)
    requires forall i :: 0 <= i < |digits| ==> IsDigit(digits[i])
    requires rest == "" || !IsDigit(rest[0])
    ensures ReadDigits(digits + rest, 0) == (NumberOf(digits), rest)
  {
    ReadRun("", digits, rest);
    assert "" + digits == digits;
  }

  /** The digits a text starts with, and the rest of it. */
  lemma {:induction false} TakeDigits(s: string) returns (digits: string, rest: string)
    ensures s == digits + rest && !StartsWithDigit(rest) && (digits == "" <==> !StartsWithDigit(s))
    ensures forall i :: 0 <= i < |digits| ==> IsDigit(digits[i])
  {
    digits, rest := "", s;
    if StartsWithDigit(s) {
      digits, rest := TakeDigits(s[1..]);
      digits := [s[0]] + digits;
    }
  }
}
