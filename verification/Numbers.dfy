/**
 Printing and parsing of unsigned numbers, in decimal and in hexadecimal.
 */
module Numbers {
  import opened Prelude

  const BIG: int := 0xFFFFFF
  const TWO_32: int := 0x1_0000_0000
  const TWO_64: int := 0x1_0000_0000_0000_0000

  /** A number read, how many characters were used, and whether it was read to its end. */
  datatype Parsed = Parsed(n: int, used: nat, ok: bool)

  // ---------- what the printers print ----------

  function Digit(d: int): char
    requires 0 <= d < 16
  {
    if d < 10 then (d + '0' as int) as char else (d - 10 + 'a' as int) as char
  }

  /** The numeral of `v`, without leading zeros. */
  function Numeral(v: nat, base: int): (s: string)
    requires 2 <= base <= 16
    ensures |s| >= 1
  {
    if v < base then [Digit(v)] else Numeral(v / base, base) + [Digit(v % base)]
  }

  // ---------- what the parsers read ----------

  /** The value of a digit in the base; -1 for any other character. */
  function DigitValue(c: char, base: int): int {
    if '0' <= c <= '9' then c as int - '0' as int
    else if base == 16 && 'a' <= c <= 'f' then c as int - 'a' as int + 10
    else if base == 16 && 'A' <= c <= 'F' then c as int - 'A' as int + 10
    else -1
  }

  /** The rest of a parse that has reached `i` with the value `n`; too big a number ends it. */
  function ParseFrom(s: string, base: int, i: nat, n: int): Parsed
    requires i <= |s|
    decreases |s| - i
  {
    if i < |s| && DigitValue(s[i], base) >= 0 then
      var m := n * base + DigitValue(s[i], base);
      if m >= BIG then Parsed(if base == 16 then 0 else BIG, i, false)
      else ParseFrom(s, base, i + 1, m)
    else Parsed(if i == 0 then 0 else n, i, i > 0)
  }

  method Dtoi(s: string) returns (n: int, i: nat, ok: bool)
    ensures Parsed(n, i, ok) == ParseFrom(s, 10, 0, 0)
  {
    n, i := 0, 0;
    while i < |s| && '0' <= s[i] <= '9'
      invariant i <= |s| && ParseFrom(s, 10, i, n) == ParseFrom(s, 10, 0, 0)
      invariant i == 0 ==> n == 0
      decreases |s| - i
    {
      n := n * 10 + (s[i] as int - '0' as int);
      if n >= BIG {
        return BIG, i, false;
      }
      i := i + 1;
    }
    if i == 0 {
      return 0, 0, false;
    }
    ok := true;
  }

  method Xtoi(s: string) returns (n: int, i: nat, ok: bool)
    ensures Parsed(n, i, ok) == ParseFrom(s, 16, 0, 0)
  {
    n, i := 0, 0;
    while i < |s|
      invariant i <= |s| && ParseFrom(s, 16, i, n) == ParseFrom(s, 16, 0, 0)
      invariant i == 0 ==> n == 0
      decreases |s| - i
    {
      if '0' <= s[i] <= '9' {
        n := n * 16;
        n := n + (s[i] as int - '0' as int);
      } else if 'a' <= s[i] <= 'f' {
        n := n * 16;
        n := n + (s[i] as int - 'a' as int) + 10;
      } else if 'A' <= s[i] <= 'F' {
        n := n * 16;
        n := n + (s[i] as int - 'A' as int) + 10;
      } else {
        break;
      }
      if n >= BIG {
        return 0, i, false;
      }
      i := i + 1;
    }
    if i == 0 {
      return 0, i, false;
    }
    ok := true;
  }

  // ---------- the printers ----------

  function Pow10(k: nat): nat {
    if k == 0 then 1 else 10 * Pow10(k - 1)
  }

  lemma {:induction false} NumeralLength(v: nat, k: nat)
    requires k > 0 && v < Pow10(k)
    ensures |Numeral(v, 10)| <= k
  {
    if v >= 10 {
      assert k > 1 by { assert Pow10(1) == 10 * Pow10(0); }
      NumeralLength(v / 10, k - 1);
    }
  }

  lemma TwentyDigits()
    ensures TWO_64 <= Pow10(20)
  {
    assert Pow10(5) == 100_000;
    assert Pow10(10) == 100_000 * Pow10(5);
    assert Pow10(15) == 100_000 * Pow10(10);
    assert Pow10(20) == 100_000 * Pow10(15);
  }

  /** No 64-bit number needs more than the twenty bytes of the buffer. */
  method Uitoa(number: nat) returns (s: string)
    requires number < TWO_64
    ensures s == Numeral(number, 10)
  {
    if number == 0 {
      return "0";
    }
    var buf := new char[20](_ => '0');
    var i := buf.Length - 1;
    var val := number;
    TwentyDigits();
    NumeralLength(number, 20);
    while val >= 10
      invariant 0 <= i < buf.Length && val >= 0
      invariant |Numeral(val, 10)| <= i + 1
      invariant Numeral(number, 10) == Numeral(val, 10) + buf[i + 1..]
      decreases val
    {
      var q := val / 10;
      buf[i] := ('0' as int + val - q * 10) as char;
      assert buf[i..] == [Digit(val % 10)] + buf[i + 1..];
      i := i - 1;
      val := q;
    }
    buf[i] := ('0' as int + val) as char;
    assert buf[i..] == Numeral(val, 10) + buf[i + 1..];
    return buf[i..];
  }

  /** The number without its last `j` hexadecimal digits. */
  function Shifted(v: nat, j: nat): nat {
    if j == 0 then v else Shifted(v, j - 1) / 16
  }

  lemma EightDigits(v: nat)
    requires v < TWO_32
    ensures Shifted(v, 8) == 0
  {
    assert Shifted(v, 1) < 0x1000_0000 && Shifted(v, 2) < 0x100_0000;
    assert Shifted(v, 3) < 0x10_0000 && Shifted(v, 4) < 0x1_0000;
    assert Shifted(v, 5) < 0x1000 && Shifted(v, 6) < 0x100;
    assert Shifted(v, 7) < 0x10;
  }

  method AppendHex(prefix: string, number: nat) returns (dst: string)
    requires number < TWO_32
    ensures dst == prefix + Numeral(number, 16)
  {
    dst := prefix;
    if number == 0 {
      return dst + ['0'];
    }
    EightDigits(number);
    var j := 7;
    while j >= 0
      invariant -1 <= j <= 7
      invariant dst == prefix + if Shifted(number, j + 1) == 0 then "" else Numeral(Shifted(number, j + 1), 16)
    {
      var v := Shifted(number, j);
      if v > 0 {
        dst := dst + [Digit(v % 16)];
      }
      j := j - 1;
    }
  }

  // ---------- round trips ----------

  lemma DigitRoundTrip(d: int, base: int)
    requires 0 <= d < base && (base == 10 || base == 16)
    ensures DigitValue(Digit(d), base) == d
  {
  }

  lemma LastDigit(v: nat, base: int)
    requires base == 10 || base == 16
    ensures v / base * base + v % base == v
    ensures v >= base ==> 0 < v / base < v
  {
  }

  /** The parser takes one more digit, or stops because the number gets too big. */
  lemma ParseDigit(s: string, base: int, i: nat, n: int, d: int)
    requires base == 10 || base == 16
    requires 0 <= d < base && i < |s| && s[i] == Digit(d)
    ensures n * base + d < BIG ==> ParseFrom(s, base, i, n) == ParseFrom(s, base, i + 1, n * base + d)
    ensures n * base + d >= BIG ==>
            ParseFrom(s, base, i, n) == Parsed(if base == 16 then 0 else BIG, i, false)
  {
    DigitRoundTrip(d, base);
  }

  /** Reading a numeral that is small enough arrives behind it with its value. */
  lemma {:induction false} ReadsNumeral(v: nat, base: int, t: string)
    requires base == 10 || base == 16
    requires v < BIG
    ensures var s := Numeral(v, base);
            ParseFrom(s + t, base, 0, 0) == ParseFrom(s + t, base, |s|, v)
  {
    if v < base {
      ParseDigit([Digit(v)] + t, base, 0, 0, v);
    } else {
      var head, d := Numeral(v / base, base), v % base;
      LastDigit(v, base);
      ReadsNumeral(v / base, base, [Digit(d)] + t);
      Regroup(head, [Digit(d)], t);
      NextDigit(head, d, t, base, v / base);
    }
  }

  lemma NextDigit(head: string, d: int, t: string, base: int, n: int)
    requires (base == 10 || base == 16) && 0 <= d < base
    ensures var s := head + [Digit(d)] + t;
            if n * base + d < BIG then ParseFrom(s, base, |head|, n) == ParseFrom(s, base, |head| + 1, n * base + d)
            else ParseFrom(s, base, |head|, n) == Parsed(if base == 16 then 0 else BIG, |head|, false)
  {
    ParseDigit(head + [Digit(d)] + t, base, |head|, n, d);
  }

  /** Reading a numeral that is too big fails on the way. */
  lemma {:induction false} RefusesNumeral(v: nat, base: int, t: string)
    requires base == 10 || base == 16
    requires v >= BIG
    ensures var r := ParseFrom(Numeral(v, base) + t, base, 0, 0);
            !r.ok && r.n == if base == 16 then 0 else BIG
  {
    var head, d := Numeral(v / base, base), v % base;
    LastDigit(v, base);
    Regroup(head, [Digit(d)], t);
    if v / base >= BIG {
      RefusesNumeral(v / base, base, [Digit(d)] + t);
    } else {
      ReadsNumeral(v / base, base, [Digit(d)] + t);
      NextDigit(head, d, t, base, v / base);
    }
  }

  /**
   A printed number is read back with its value and to its end if and only if it is below
   the limit; above it the parser reports a failure with its fixed value.
   */
  lemma PrintedIsParsed(v: nat, base: int)
    requires base == 10 || base == 16
    ensures var s := Numeral(v, base);
            var r := ParseFrom(s, base, 0, 0);
            && (v < BIG ==> r == Parsed(v, |s|, true))
            && (v >= BIG ==> !r.ok && r.n == if base == 16 then 0 else BIG)
  {
    var s := Numeral(v, base);
    assert s + "" == s;
    if v < BIG {
      ReadsNumeral(v, base, "");
    } else {
      RefusesNumeral(v, base, "");
    }
  }
}
