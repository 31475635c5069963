/** Generations as unsigned 64-bit numbers, and the order of their padded decimal forms. */
module Generations {

  const MAX_GENERATION: nat := 0xFFFF_FFFF_FFFF_FFFF
  const LAST_GEN: nat := 0
  const FIRST_GEN: nat := 1
  const WIDTH: nat := 20

  type Generation = g: nat | g <= MAX_GENERATION

  /** gen + 1 on 64 bits. */
  function Next(gen: Generation): Generation {
    if gen == MAX_GENERATION then 0 else gen + 1
  }

  function Digit(n: nat): char
    requires n < 10
  {
    '0' + n as char
  }

  function Decimal(n: nat): string {
    if n < 10 then [Digit(n)] else Decimal(n / 10) + [Digit(n % 10)]
  }

  function Spaces(n: nat): string {
    if n == 0 then "" else Spaces(n - 1) + " "
  }

  /** The number in decimal, padded with spaces on the left up to the width. */
  function Padded(n: nat, width: nat): string {
    var s := Decimal(n);
    if |s| >= width then s else Spaces(width - |s|) + s
  }

  function GenStr(gen: Generation): string {
    Padded(gen, WIDTH)
  }

  /** Byte-wise lexicographic order, in which the cursor of the bucket walks. */
  predicate LexLess(s: string, t: string) {
    t != [] && (s == [] || s[0] < t[0] || (s[0] == t[0] && LexLess(s[1..], t[1..])))
  }

  // ---- The padded form digit by digit: blank where there are no digits left.

  function Blank(n: nat, width: nat): string {
    if width == 0 then "" else Blank(n / 10, width - 1) + [if n == 0 then ' ' else Digit(n % 10)]
  }

  function Power(w: nat): nat {
    if w == 0 then 1 else 10 * Power(w - 1)
  }

  lemma {:induction false} BlankZero(width: nat)
    ensures Blank(0, width) == Spaces(width)
  {
    if width > 0 {
      BlankZero(width - 1);
    }
  }

  lemma {:induction false} SpacesOne(n: nat)
    ensures |Spaces(n)| == n && Spaces(n) + " " == Spaces(n + 1)
  {
    if n > 0 {
      SpacesOne(n - 1);
    }
  }

  lemma {:induction false} BlankIsPadded(n: nat, width: nat)
    requires 0 < n < Power(width)
    ensures |Decimal(n)| <= width && Blank(n, width) == Spaces(width - |Decimal(n)|) + Decimal(n)
  {
    if n < 10 {
      BlankZero(width - 1);
      SpacesOne(width - 1);
    } else {
      BlankIsPadded(n / 10, width - 1);
      assert Spaces(width - |Decimal(n)|) + (Decimal(n / 10) + [Digit(n % 10)])
          == Spaces(width - 1 - |Decimal(n / 10)|) + Decimal(n / 10) + [Digit(n % 10)];
    }
  }

  lemma PaddedIsBlank(n: nat, width: nat)
    requires n < Power(width) && 0 < width
    ensures |Padded(n, width)| == width && Padded(n, width) == Blank(n / 10, width - 1) + [Digit(n % 10)]
  {
    BlankLength(n / 10, width - 1);
    if n == 0 {
      SpacesOne(width - 1);
      BlankZero(width - 1);
    } else {
      BlankIsPadded(n, width);
    }
  }

  lemma PowerStep(w: nat)
    ensures Power(w + 4) == 10000 * Power(w)
  {
    assert Power(w + 2) == 100 * Power(w);
  }

  lemma WideEnough()
    ensures MAX_GENERATION < Power(WIDTH)
  {
    PowerStep(0);
    PowerStep(4);
    PowerStep(8);
    PowerStep(12);
    PowerStep(16);
  }

  lemma GenStrLength(gen: Generation)
    ensures |GenStr(gen)| == WIDTH
  {
    WideEnough();
    PaddedIsBlank(gen, WIDTH);
  }

  lemma {:induction false} LexLessLast(s: string, t: string, c: char, d: char)
    requires |s| == |t|
    ensures LexLess(s + [c], t + [d]) <==> LexLess(s, t) || (s == t && c < d)
  {
    if s != [] {
      assert (s + [c])[1..] == s[1..] + [c] && (t + [d])[1..] == t[1..] + [d];
      LexLessLast(s[1..], t[1..], c, d);
      assert s == [s[0]] + s[1..] && t == [t[0]] + t[1..];
    }
  }

  lemma {:induction false} LexLessIrreflexive(s: string)
    ensures !LexLess(s, s)
  {
    if s != [] {
      LexLessIrreflexive(s[1..]);
    }
  }

  lemma {:induction false} BlankOrder(a: nat, b: nat, width: nat)
    requires a < b < Power(width)
    ensures |Blank(a, width)| == |Blank(b, width)| == width
    ensures LexLess(Blank(a, width), Blank(b, width))
  {
    BlankLength(a, width);
    BlankLength(b, width);
    var c, d := if a == 0 then ' ' else Digit(a % 10), Digit(b % 10);
    LexLessLast(Blank(a / 10, width - 1), Blank(b / 10, width - 1), c, d);
    if a / 10 < b / 10 {
      BlankOrder(a / 10, b / 10, width - 1);
    }
  }

  lemma {:induction false} BlankLength(n: nat, width: nat)
    ensures |Blank(n, width)| == width
  {
    if width > 0 {
      BlankLength(n / 10, width - 1);
    }
  }

  /** Padded generations are in lexicographic order exactly when they are in numeric order, over all 64-bit numbers. */
  lemma GenStrOrder(a: Generation, b: Generation)
    ensures LexLess(GenStr(a), GenStr(b)) <==> a < b
    ensures GenStr(a) == GenStr(b) <==> a == b
  {
    WideEnough();
    if a < b {
      PaddedOrder(a, b, WIDTH);
      LexLessAsymmetric(GenStr(a), GenStr(b));
    } else if b < a {
      PaddedOrder(b, a, WIDTH);
      LexLessAsymmetric(GenStr(b), GenStr(a));
    } else {
      LexLessIrreflexive(GenStr(a));
    }
  }

  lemma PaddedOrder(a: nat, b: nat, width: nat)
    requires a < b < Power(width)
    ensures LexLess(Padded(a, width), Padded(b, width))
  {
    PaddedIsBlank(a, width);
    PaddedIsBlank(b, width);
    LowestDigits(a, b, width - 1);
  }

  lemma LowestDigits(a: nat, b: nat, width: nat)
    requires a < b < Power(width + 1)
    ensures LexLess(Blank(a / 10, width) + [Digit(a % 10)], Blank(b / 10, width) + [Digit(b % 10)])
  {
    BlankLength(a / 10, width);
    BlankLength(b / 10, width);
    LexLessLast(Blank(a / 10, width), Blank(b / 10, width), Digit(a % 10), Digit(b % 10));
    if a / 10 < b / 10 {
      BlankOrder(a / 10, b / 10, width);
    }
  }

  lemma {:induction false} LexLessAsymmetric(s: string, t: string)
    requires LexLess(s, t)
    ensures !LexLess(t, s) && s != t
  {
    if s != [] && s[0] == t[0] {
      LexLessAsymmetric(s[1..], t[1..]);
    }
  }

  lemma {:induction false} LexLessTransitive(s: string, t: string, u: string)
    requires LexLess(s, t) && LexLess(t, u)
    ensures LexLess(s, u)
  {
    if s != [] && s[0] == t[0] && t[0] == u[0] {
      LexLessTransitive(s[1..], t[1..], u[1..]);
    }
  }

  lemma {:induction false} LexLessTotal(s: string, t: string)
    ensures s == t || LexLess(s, t) || LexLess(t, s)
  {
    if s != [] && t != [] && s[0] == t[0] {
      LexLessTotal(s[1..], t[1..]);
      assert s == [s[0]] + s[1..] && t == [t[0]] + t[1..];
    }
  }

  /** A common prefix does not matter. */
  lemma {:induction false} LexLessPrefix(p: string, s: string, t: string)
    ensures LexLess(p + s, p + t) <==> LexLess(s, t)
  {
    if p == [] {
      assert p + s == s && p + t == t;
    } else {
      assert (p + s)[1..] == p[1..] + s && (p + t)[1..] == p[1..] + t;
      LexLessPrefix(p[1..], s, t);
    }
  }
}
