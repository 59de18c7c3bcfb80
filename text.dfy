/** Text helpers shared by the handlers: the decimal rendering of integers used by string
    interpolation and `ToString()`, left padding for date formats, single-placeholder string
    formatting, and `string.Join` with its inverse, splitting on one character. */
module Text {

  predicate IsDigit(c: char) {
    '0' <= c <= '9'
  }

  predicate AllDigits(s: string) {
    forall i :: 0 <= i < |s| ==> IsDigit(s[i])
  }

  function DigitChar(d: nat): (c: char)
    requires d < 10
    ensures IsDigit(c)
  {
    (('0' as int) + d) as char
  }

  function DigitValue(c: char): (d: nat)
    requires IsDigit(c)
    ensures d < 10
  {
    (c as int) - ('0' as int)
  }

  /** Decimal rendering of a natural number: at least one digit, no leading zero. */
  function NatToString(n: nat): (s: string)
    ensures |s| >= 1 && AllDigits(s)
    ensures s[0] == '0' ==> n == 0
    decreases n
  {
    if n < 10 then [DigitChar(n)] else NatToString(n / 10) + [DigitChar(n % 10)]
  }

  /** Reads a string of digits back as a natural number (most significant digit first). */
  function ParseNat(s: string): nat
    requires AllDigits(s)
    decreases |s|
  {
    if s == [] then 0 else 10 * ParseNat(s[..|s| - 1]) + DigitValue(s[|s| - 1])
  }

  /** Decimal rendering of an integer, with a leading '-' for negative values (invariant culture). */
  function IntToString(i: int): (s: string)
    ensures |s| >= 1 && (s[0] == '-' <==> i < 0)
  {
    if i < 0 then "-" + NatToString(-i) else NatToString(i)
  }

  /** Text that `IntToString` can produce: digits, optionally after a leading '-'. */
  predicate IsIntText(s: string) {
    |s| >= 1 && (if s[0] == '-' then AllDigits(s[1..]) else AllDigits(s))
  }

  /** Reads an optionally signed decimal back as an integer. */
  function ParseInt(s: string): int
    requires IsIntText(s)
  {
    if s[0] == '-' then -(ParseNat(s[1..]) as int) else ParseNat(s)
  }

  /** `NatToString` loses nothing: reading the digits back gives the number. */
  lemma {:induction false} ParseNatToString(n: nat)
    ensures ParseNat(NatToString(n)) == n
    decreases n
  {
    if n >= 10 {
      var s := NatToString(n);
      assert s == NatToString(n / 10) + [DigitChar(n % 10)];
      assert s[..|s| - 1] == NatToString(n / 10);
      ParseNatToString(n / 10);
    }
  }

  /** `IntToString` loses nothing either, negative numbers included. */
  lemma ParseIntToString(i: int)
    ensures IsIntText(IntToString(i)) && ParseInt(IntToString(i)) == i
  {
    var s := IntToString(i);
    if i < 0 {
      assert s[1..] == NatToString(-i);
      ParseNatToString(-i);
    } else {
      ParseNatToString(i);
    }
  }

  /** A number below 10^k has at most k digits. */
  lemma {:induction false} NatToStringLength(n: nat, k: nat)
    requires k >= 1 && n < Pow10(k)
    ensures |NatToString(n)| <= k
    decreases n
  {
    if n >= 10 {
      NatToStringLength(n / 10, k - 1);
    }
  }

  function Pow10(k: nat): (p: nat)
    ensures p >= 1
  {
    if k == 0 then 1 else 10 * Pow10(k - 1)
  }

  /** `s` padded on the left with `c` up to `width` characters, as `String.PadLeft(width, c)`. */
  function PadLeft(s: string, width: nat, c: char): (r: string)
    ensures |r| == if |s| >= width then |s| else width
    ensures r[|r| - |s|..] == s
    ensures forall i :: 0 <= i < |r| - |s| ==> r[i] == c
  {
    if |s| >= width then s else seq(width - |s|, _ => c) + s
  }

  /** Leading zeros do not change the value of a digit string. */
  lemma {:induction false} ParseNatLeadingZeros(z: string, s: string)
    requires AllDigits(s)
    requires forall i :: 0 <= i < |z| ==> z[i] == '0'
    ensures AllDigits(z + s) && ParseNat(z + s) == ParseNat(s)
    decreases |s|
  {
    var t := z + s;
    assert AllDigits(t) by {
      forall i | 0 <= i < |t| ensures IsDigit(t[i]) {
        if i < |z| { assert t[i] == z[i]; } else { assert t[i] == s[i - |z|]; }
      }
    }
    if s == [] {
      assert t == z;
      ParseNatZeros(z);
    } else {
      assert t[..|t| - 1] == z + s[..|s| - 1];
      ParseNatLeadingZeros(z, s[..|s| - 1]);
    }
  }

  lemma {:induction false} ParseNatZeros(z: string)
    requires forall i :: 0 <= i < |z| ==> z[i] == '0'
    ensures AllDigits(z) && ParseNat(z) == 0
    decreases |z|
  {
    if z != [] {
      ParseNatZeros(z[..|z| - 1]);
    }
  }

  /** A character missing from a non-empty string is missing from its first character and its tail. */
  lemma AbsentFromTail(s: string, c: char)
    requires s != [] && c !in s
    ensures s[0] != c && c !in s[1..]
  {
    assert s[0] in s;
    forall i | 0 <= i < |s[1..]| ensures s[1..][i] != c {
      assert s[1..][i] == s[i + 1];
      assert s[i + 1] in s;
    }
  }

  /** True when `t` starts with the placeholder `{0}`. */
  predicate StartsWithPlaceholder(t: string) {
    |t| >= 3 && t[0] == '{' && t[1] == '0' && t[2] == '}'
  }

  /** `string.Format(template, arg)` for a template whose only placeholder is `{0}`:
      every `{0}` is replaced by `arg`, every other character is copied. */
  function Format(template: string, arg: string): string
    decreases |template|
  {
    if template == [] then []
    else if StartsWithPlaceholder(template) then arg + Format(template[3..], arg)
    else [template[0]] + Format(template[1..], arg)
  }

  /** A template without any '{' is copied unchanged. */
  lemma {:induction false} FormatNoPlaceholder(t: string, arg: string)
    requires '{' !in t
    ensures Format(t, arg) == t
    decreases |t|
  {
    if t != [] {
      AbsentFromTail(t, '{');
      assert !StartsWithPlaceholder(t);
      FormatNoPlaceholder(t[1..], arg);
      assert [t[0]] + t[1..] == t;
    }
  }

  /** A template of the form `prefix + "{0}" + suffix` (neither part holding a '{') formats
      to the prefix, the argument and the suffix. */
  lemma {:induction false} FormatOnePlaceholder(prefix: string, suffix: string, arg: string)
    requires '{' !in prefix && '{' !in suffix
    ensures Format(prefix + "{0}" + suffix, arg) == prefix + arg + suffix
    decreases |prefix|
  {
    var t := prefix + "{0}" + suffix;
    if prefix == [] {
      assert t == "{0}" + suffix;
      assert StartsWithPlaceholder(t) && t[3..] == suffix;
      FormatNoPlaceholder(suffix, arg);
    } else {
      var rest := prefix[1..];
      AbsentFromTail(prefix, '{');
      assert t[0] == prefix[0] && t[0] != '{';
      assert !StartsWithPlaceholder(t);
      assert t[1..] == rest + "{0}" + suffix;
      FormatOnePlaceholder(rest, suffix, arg);
      assert Format(t, arg) == [prefix[0]] + (rest + arg + suffix);
      assert [prefix[0]] + rest == prefix;
    }
  }

  /** `string.Join(sep, xs)`: the elements in order with `sep` between neighbours; "" for none. */
  function Join(sep: string, xs: seq<string>): (r: string)
    ensures |xs| >= 1 ==> xs[0] <= r
    ensures |xs| >= 1 ==> |xs[|xs| - 1]| <= |r| && r[|r| - |xs[|xs| - 1]|..] == xs[|xs| - 1]
    decreases |xs|
  {
    if xs == [] then ""
    else if |xs| == 1 then xs[0]
    else xs[0] + sep + Join(sep, xs[1..])
  }

  /** Number of occurrences of `c` in `s`. */
  function Count(c: char, s: string): nat
    decreases |s|
  {
    if s == [] then 0 else (if s[0] == c then 1 else 0) + Count(c, s[1..])
  }

  lemma {:induction false} CountAppend(c: char, a: string, b: string)
    ensures Count(c, a + b) == Count(c, a) + Count(c, b)
    decreases |a|
  {
    if a == [] {
      assert a + b == b;
    } else {
      assert (a + b)[0] == a[0];
      assert (a + b)[1..] == a[1..] + b;
      CountAppend(c, a[1..], b);
    }
  }

  lemma {:induction false} CountAbsent(c: char, s: string)
    requires c !in s
    ensures Count(c, s) == 0
    decreases |s|
  {
    if s != [] {
      AbsentFromTail(s, c);
      CountAbsent(c, s[1..]);
    }
  }

  /** No element of `xs` contains the character `c`. */
  predicate NoneContains(xs: seq<string>, c: char) {
    forall i :: 0 <= i < |xs| ==> c !in xs[i]
  }

  /** Joining n >= 1 elements that hold no `c` with `[c]` puts exactly n - 1 copies of `c` in the result. */
  lemma {:induction false} JoinSeparatorCount(c: char, xs: seq<string>)
    requires |xs| >= 1 && NoneContains(xs, c)
    ensures Count(c, Join([c], xs)) == |xs| - 1
    decreases |xs|
  {
    CountAbsent(c, xs[0]);
    if |xs| > 1 {
      JoinSeparatorCount(c, xs[1..]);
      CountAppend(c, xs[0] + [c], Join([c], xs[1..]));
      CountAppend(c, xs[0], [c]);
    }
  }

  /** `s.Split(c)`: the pieces between occurrences of `c`, always at least one ("" gives [""]). */
  function Split(s: string, c: char): (r: seq<string>)
    ensures |r| >= 1
    decreases |s|
  {
    if s == [] then [""]
    else if s[0] == c then [""] + Split(s[1..], c)
    else var rest := Split(s[1..], c); [[s[0]] + rest[0]] + rest[1..]
  }

  /** A piece without `c` followed by `c` and more text splits off as the first piece. */
  lemma {:induction false} SplitPiece(x: string, c: char, rest: string)
    requires c !in x
    ensures Split(x + [c] + rest, c) == [x] + Split(rest, c)
    decreases |x|
  {
    if x == [] {
      assert x + [c] + rest == [c] + rest;
      assert ([c] + rest)[1..] == rest;
    } else {
      var t := x + [c] + rest;
      AbsentFromTail(x, c);
      assert t[0] == x[0];
      assert t[1..] == x[1..] + [c] + rest;
      SplitPiece(x[1..], c, rest);
      assert [x[0]] + x[1..] == x;
    }
  }

  /** A string without `c` splits into itself alone. */
  lemma {:induction false} SplitWhole(x: string, c: char)
    requires c !in x
    ensures Split(x, c) == [x]
    decreases |x|
  {
    if x != [] {
      AbsentFromTail(x, c);
      SplitWhole(x[1..], c);
      assert [x[0]] + x[1..] == x;
    }
  }

  /** Splitting on `c` undoes joining with `[c]`, for at least one element and no element holding `c`. */
  lemma {:induction false} SplitJoin(c: char, xs: seq<string>)
    requires |xs| >= 1 && NoneContains(xs, c)
    ensures Split(Join([c], xs), c) == xs
    decreases |xs|
  {
    if |xs| == 1 {
      SplitWhole(xs[0], c);
    } else {
      assert NoneContains(xs[1..], c) by {
        forall i | 0 <= i < |xs[1..]| ensures c !in xs[1..][i] { assert xs[1..][i] == xs[i + 1]; }
      }
      SplitJoin(c, xs[1..]);
      SplitPiece(xs[0], c, Join([c], xs[1..]));
      assert [xs[0]] + xs[1..] == xs;
    }
  }
}
