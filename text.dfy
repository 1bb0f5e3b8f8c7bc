/**
 * The pieces of C's formatted output the firmware relies on: `%d` decimal conversion and
 * `snprintf`'s return value and truncation, plus splitting a string at a separator, used to read
 * a formatted text back.
 */
module Text {
  import opened Wrappers

  predicate IsDigit(c: char) { '0' <= c <= '9' }

  predicate AllDigits(s: string) { forall i :: 0 <= i < |s| ==> IsDigit(s[i]) }

  function DigitChar(d: nat): (c: char)
    requires d < 10
    ensures IsDigit(c)
  {
    ('0' as int + d) as char
  }

  /** The decimal digits of a natural number, most significant first, with no leading zero. */
  function NatDec(n: nat): string
    decreases n
  {
    if n < 10 then [DigitChar(n)] else NatDec(n / 10) + [DigitChar(n % 10)]
  }

  /** printf's `%d`: a minus sign for a negative value, then the digits of its magnitude. */
  function Dec(x: int): string
  {
    if x < 0 then "-" + NatDec(-x) else NatDec(x)
  }

  /** The number whose decimal digits are `s`. */
  function DigitsValue(s: string): nat
    requires AllDigits(s)
  {
    if s == [] then 0 else DigitsValue(s[..|s| - 1]) * 10 + (s[|s| - 1] as int - '0' as int)
  }

  /** Reads a decimal integer written as `%d` writes it. */
  function ParseDec(s: string): Option<int>
  {
    if |s| > 1 && s[0] == '-' && AllDigits(s[1..]) then Some(0 - DigitsValue(s[1..]))
    else if |s| > 0 && AllDigits(s) then Some(DigitsValue(s))
    else None
  }

  lemma {:induction false} NatDecDigits(n: nat)
    ensures |NatDec(n)| > 0 && AllDigits(NatDec(n)) && DigitsValue(NatDec(n)) == n
    decreases n
  {
    if n >= 10 {
      NatDecDigits(n / 10);
      var s := NatDec(n);
      assert s[..|s| - 1] == NatDec(n / 10);
    }
  }

  /** `%d` output reads back as the same integer. */
  lemma DecRoundTrip(x: int)
    ensures ParseDec(Dec(x)) == Some(x)
  {
    if x < 0 {
      NatDecDigits(-x);
      assert Dec(x)[1..] == NatDec(-x);
    } else {
      NatDecDigits(x);
    }
  }

  /** `%d` output holds only digits and a leading minus sign. */
  lemma DecChars(x: int)
    ensures |Dec(x)| > 0
    ensures forall i :: 0 <= i < |Dec(x)| ==> IsDigit(Dec(x)[i]) || Dec(x)[i] == '-'
  {
    if x < 0 {
      NatDecDigits(-x);
      assert forall i :: 1 <= i < |Dec(x)| ==> Dec(x)[i] == NatDec(-x)[i - 1];
    } else {
      NatDecDigits(x);
    }
  }

  function Pow10(k: nat): (p: nat)
    ensures p > 0
  {
    if k == 0 then 1 else 10 * Pow10(k - 1)
  }

  /** A number below 10^k has at most k digits. */
  lemma {:induction false} NatDecLength(n: nat, k: nat)
    requires 0 < k && n < Pow10(k)
    ensures |NatDec(n)| <= k
    decreases n
  {
    if n >= 10 {
      assert k > 1;
      assert n / 10 < Pow10(k - 1);
      NatDecLength(n / 10, k - 1);
    }
  }

  /** The `%d` text of an `int8_t` has at most 4 characters, that of a `uint8_t` at most 3. */
  lemma DecLengthSmall(x: int)
    ensures -0x80 <= x < 0x80 ==> |Dec(x)| <= 4
    ensures 0 <= x < 0x100 ==> |Dec(x)| <= 3
    ensures -0x8000_0000 <= x < 0x8000_0000 ==> |Dec(x)| <= 11
  {
    if x < 0 {
      if x >= -0x80 { NatDecLength(-x, 3); }
      if x >= -0x8000_0000 { NatDecLength(-x, 10); }
    } else {
      if x < 0x100 { NatDecLength(x, 3); }
      if x < 0x8000_0000 { NatDecLength(x, 10); }
    }
  }

  /**
   * snprintf(buf, size, ...) producing `text`: it returns the length of the whole text and keeps
   * all of it when it fits and otherwise exactly its first size - 1 characters (the last byte
   * holds the terminating NUL).
   */
  function Snprintf(text: string, size: nat): (r: (int, string))
    requires size > 0
    ensures r.0 == |text|
    ensures |r.1| < size && r.1 <= text
    ensures r.1 == text <==> |text| < size
    ensures |text| >= size ==> |r.1| == size - 1
  {
    (|text|, if |text| < size then text else text[..size - 1])
  }

  /** The pieces of `s` between occurrences of `sep`. */
  function Split(s: string, sep: char): (parts: seq<string>)
    ensures |parts| > 0
    decreases |s|
  {
    if s == [] then [""]
    else
      var rest := Split(s[1..], sep);
      if s[0] == sep then [""] + rest else [[s[0]] + rest[0]] + rest[1..]
  }

  /** The pieces joined back with `sep` between them. */
  function Join(parts: seq<string>, sep: char): string
    requires |parts| > 0
  {
    if |parts| == 1 then parts[0] else parts[0] + [sep] + Join(parts[1..], sep)
  }

  lemma {:induction false} SplitFree(a: string, sep: char)
    requires sep !in a
    ensures Split(a, sep) == [a]
  {
    if a != [] {
      SplitFree(a[1..], sep);
      assert [a[0]] + a[1..] == a;
    }
  }

  lemma {:induction false} SplitCons(a: string, sep: char, b: string)
    requires sep !in a
    ensures Split(a + [sep] + b, sep) == [a] + Split(b, sep)
  {
    var s := a + [sep] + b;
    if a == [] {
      assert s[1..] == b;
    } else {
      assert s[1..] == a[1..] + [sep] + b;
      SplitCons(a[1..], sep, b);
      assert [a[0]] + a[1..] == a;
    }
  }

  /** Splitting undoes joining, when no piece holds the separator. */
  lemma {:induction false} SplitJoin(parts: seq<string>, sep: char)
    requires |parts| > 0
    requires forall i :: 0 <= i < |parts| ==> sep !in parts[i]
    ensures Split(Join(parts, sep), sep) == parts
    decreases |parts|
  {
    if |parts| == 1 {
      SplitFree(parts[0], sep);
    } else {
      assert forall i :: 0 <= i < |parts[1..]| ==> parts[1..][i] == parts[i + 1];
      SplitJoin(parts[1..], sep);
      SplitCons(parts[0], sep, Join(parts[1..], sep));
    }
  }

  /** A joined text holds a character other than the separator only if some piece holds it. */
  lemma {:induction false} SplitFreeJoin(parts: seq<string>, sep: char, c: char)
    requires |parts| > 0 && c != sep
    requires forall i :: 0 <= i < |parts| ==> c !in parts[i]
    ensures c !in Join(parts, sep)
    decreases |parts|
  {
    if |parts| > 1 {
      assert forall i :: 0 <= i < |parts[1..]| ==> parts[1..][i] == parts[i + 1];
      SplitFreeJoin(parts[1..], sep, c);
    }
  }

  lemma Join2(a: string, b: string, sep: char)
    ensures Join([a, b], sep) == a + [sep] + b
  {
    assert [a, b][1..] == [b];
  }

  lemma Join4(a: string, b: string, c: string, d: string, sep: char)
    ensures Join([a, b, c, d], sep) == a + [sep] + b + [sep] + c + [sep] + d
  {
    assert [a, b, c, d][1..] == [b, c, d];
    assert [b, c, d][1..] == [c, d];
    Join2(c, d, sep);
  }
}
