/** String helpers the renderer relies on: joining parts, the decimal and
    hexadecimal spelling of integers (Python's `str(n)` and `hex(n)`), and
    the first component of a dotted module name (`m.partition('.')[0]`). */
module Formatting {

  /** `''.join(ps)` */
  function Concat(ps: seq<string>): string
  {
    if |ps| == 0 then "" else Concat(ps[..|ps| - 1]) + ps[|ps| - 1]
  }

  lemma {:induction false} ConcatAppend(a: seq<string>, b: seq<string>)
    ensures Concat(a + b) == Concat(a) + Concat(b)
    decreases |b|
  {
    if |b| == 0 {
      assert a + b == a;
    } else {
      assert (a + b)[..|a + b| - 1] == a + b[..|b| - 1];
      ConcatAppend(a, b[..|b| - 1]);
    }
  }

  lemma ConcatSnoc(ps: seq<string>, s: string)
    ensures Concat(ps + [s]) == Concat(ps) + s
  {
    assert (ps + [s])[..|ps|] == ps;
  }

  lemma ConcatThree(a: string, b: string, c: string)
    ensures Concat([a, b, c]) == a + b + c
  {
    ConcatSnoc([], a);
    ConcatSnoc([a], b);
    ConcatSnoc([a, b], c);
    assert [] + [a] == [a] && [a] + [b] == [a, b] && [a, b] + [c] == [a, b, c];
  }

  /** `t` is a suffix of `s`. */
  predicate EndsWith(s: string, t: string)
  {
    |t| <= |s| && s[|s| - |t|..] == t
  }

  /** The character for digit `d` (0-9, then a-f). */
  function DigitChar(d: nat): (c: char)
    requires d < 16
  {
    if d < 10 then ('0' as int + d) as char else ('a' as int + d - 10) as char
  }

  /** The digit a character stands for; characters that are no digit read as 0. */
  function DigitValue(c: char): (d: nat)
    ensures d < 16
  {
    if '0' <= c <= '9' then c as int - '0' as int
    else if 'a' <= c <= 'f' then c as int - 'a' as int + 10
    else 0
  }

  predicate IsDigit(c: char, base: nat)
  {
    DigitValue(c) < base && ('0' <= c <= '9' || 'a' <= c <= 'f')
  }

  lemma DivFacts(n: nat, base: nat)
    requires 2 <= base <= n
    ensures n == (n / base) * base + n % base && 0 <= n % base < base && 1 <= n / base < n
  {
    var q, d := n / base, n % base;
    assert n == q * base + d;
    assert q * base >= 1 by { assert q * base == n - d; }
    assert q < n by { assert q * base >= q * 2; }
  }

  /** The digits of `n` in `base`, most significant first, without leading zeros. */
  function Digits(n: nat, base: nat): (s: string)
    requires 2 <= base <= 16
    decreases n
  {
    if n < base then [DigitChar(n)]
    else
      DivFacts(n, base);
      Digits(n / base, base) + [DigitChar(n % base)]
  }

  /** A digit string: at least one digit, each a digit of `base`, no leading zero. */
  lemma {:induction false} DigitsShape(n: nat, base: nat)
    requires 2 <= base <= 16
    ensures |Digits(n, base)| >= 1
    ensures forall i :: 0 <= i < |Digits(n, base)| ==> IsDigit(Digits(n, base)[i], base)
    ensures Digits(n, base)[0] == '0' ==> n == 0
    decreases n
  {
    if n >= base {
      DivFacts(n, base);
      DigitsShape(n / base, base);
      var t := Digits(n / base, base);
      assert Digits(n, base) == t + [DigitChar(n % base)];
      assert Digits(n, base)[0] == t[0];
    }
  }

  /** The number a digit string denotes in `base`: the reading side of `Digits`. */
  function ValueOf(s: string, base: nat): nat
  {
    if |s| == 0 then 0 else ValueOf(s[..|s| - 1], base) * base + DigitValue(s[|s| - 1])
  }

  lemma ValueOfSnoc(t: string, c: char, base: nat)
    ensures ValueOf(t + [c], base) == ValueOf(t, base) * base + DigitValue(c)
  {
    assert (t + [c])[..|t|] == t;
  }

  /** Reading back the digits of `n` gives `n`. */
  lemma {:induction false} DigitsRoundTrip(n: nat, base: nat)
    requires 2 <= base <= 16
    ensures ValueOf(Digits(n, base), base) == n
    decreases n
  {
    if n < base {
      assert Digits(n, base) == [] + [DigitChar(n)];
      ValueOfSnoc([], DigitChar(n), base);
    } else {
      DivFacts(n, base);
      var q, d := n / base, n % base;
      var t := Digits(q, base);
      assert Digits(n, base) == t + [DigitChar(d)];
      DigitsRoundTrip(q, base);
      ValueOfSnoc(t, DigitChar(d), base);
    }
  }

  /** Python's `str(n)` for an `int`. */
  function Decimal(n: int): string
  {
    if n < 0 then "-" + Digits(-n, 10) else Digits(n, 10)
  }

  /** `str(n)` is a decimal numeral that reads back as `n`: an optional minus
      sign, then digits without a leading zero. */
  lemma DecimalSpec(n: int)
    ensures n >= 0 ==>
      && |Decimal(n)| >= 1 && ValueOf(Decimal(n), 10) == n
      && (forall i :: 0 <= i < |Decimal(n)| ==> IsDigit(Decimal(n)[i], 10))
      && (Decimal(n)[0] == '0' ==> n == 0)
    ensures n < 0 ==>
      && |Decimal(n)| >= 2 && Decimal(n)[0] == '-' && ValueOf(Decimal(n)[1..], 10) == -n
      && (forall i :: 1 <= i < |Decimal(n)| ==> IsDigit(Decimal(n)[i], 10))
      && Decimal(n)[1] != '0'
  {
    var m := if n < 0 then -n else n;
    DigitsRoundTrip(m, 10);
    DigitsShape(m, 10);
    if n < 0 {
      assert Decimal(n)[1..] == Digits(m, 10);
    }
  }

  /** Python's `hex(n)`: `0x` and lower-case digits, a leading `-` when negative. */
  function Hex(n: int): string
  {
    if n < 0 then "-0x" + Digits(-n, 16) else "0x" + Digits(n, 16)
  }

  /** `hex(n)` is `0x` (after a minus sign when negative) followed by
      hexadecimal digits that read back as `|n|`. */
  lemma HexSpec(n: int)
    ensures n >= 0 ==>
      && |Hex(n)| >= 3 && Hex(n)[..2] == "0x" && ValueOf(Hex(n)[2..], 16) == n
      && (forall i :: 2 <= i < |Hex(n)| ==> IsDigit(Hex(n)[i], 16))
      && (Hex(n)[2] == '0' ==> n == 0)
    ensures n < 0 ==>
      && |Hex(n)| >= 4 && Hex(n)[..3] == "-0x" && ValueOf(Hex(n)[3..], 16) == -n
      && (forall i :: 3 <= i < |Hex(n)| ==> IsDigit(Hex(n)[i], 16))
      && Hex(n)[3] != '0'
  {
    var m := if n < 0 then -n else n;
    DigitsRoundTrip(m, 16);
    DigitsShape(m, 16);
    if n < 0 {
      assert Hex(n)[3..] == Digits(m, 16);
      assert Hex(n)[3] == Digits(m, 16)[0];
    } else {
      assert Hex(n)[2..] == Digits(m, 16);
      assert Hex(n)[2] == Digits(m, 16)[0];
    }
  }

  /** `m.partition('.')[0]`: everything before the first dot, or all of `m`. */
  function ModuleHead(m: string): string
  {
    if |m| == 0 || m[0] == '.' then "" else [m[0]] + ModuleHead(m[1..])
  }

  /** The head of a module name is its longest dot-free prefix. */
  lemma {:induction false} ModuleHeadSpec(m: string)
    ensures ModuleHead(m) <= m
    ensures '.' !in ModuleHead(m)
    ensures |ModuleHead(m)| < |m| ==> m[|ModuleHead(m)|] == '.'
  {
    if |m| > 0 && m[0] != '.' {
      ModuleHeadSpec(m[1..]);
    }
  }

  /** A dot-free name is its own head, also when a dot and more follow it. */
  lemma {:induction false} ModuleHeadOfDotted(name: string, rest: string)
    requires '.' !in name
    ensures ModuleHead(name) == name
    ensures ModuleHead(name + "." + rest) == name
  {
    if |name| > 0 {
      assert (name + "." + rest)[1..] == name[1..] + "." + rest;
      ModuleHeadOfDotted(name[1..], rest);
    } else {
      assert name + "." + rest == "." + rest;
    }
  }
}
