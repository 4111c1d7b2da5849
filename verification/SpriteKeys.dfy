/** Cache keys: a prefix and decimal numbers, some of them negative, joined by hyphens. */
module SpriteKeys {
  datatype Color = Color(h: int, s: int, b: int, c: int)

  function Digits(n: nat): string {
    if n < 10 then ['0' + n as char] else Digits(n / 10) + ['0' + (n % 10) as char]
  }

  function Decimal(n: int): string {
    if n < 0 then "-" + Digits(-n) else Digits(n)
  }

  function ColorKey(c: Color): string {
    Decimal(c.h) + "-" + (Decimal(c.s) + "-" + (Decimal(c.b) + "-" + Decimal(c.c)))
  }

  function Key(index: int, c: Color): string {
    Decimal(index) + "-" + ColorKey(c)
  }

  function FloorKey(pattern: int, c: Color): string {
    "floor-" + Key(pattern, c)
  }

  function WallKey(mask: int, c: Color): string {
    "wall-" + Key(mask, c)
  }

  ghost predicate AllDigits(s: string) {
    s != "" && forall i | 0 <= i < |s| :: '0' <= s[i] <= '9'
  }

  lemma {:induction false} DigitsOk(n: nat)
    ensures AllDigits(Digits(n))
  {
    if n >= 10 {
      DigitsOk(n / 10);
    }
  }

  lemma {:induction false} DigitsInjective(m: nat, n: nat)
    requires Digits(m) == Digits(n)
    ensures m == n
    decreases m
  {
    DigitsOk(m / 10);
    DigitsOk(n / 10);
    assert Digits(m)[|Digits(m)| - 1] == '0' + (m % 10) as char;
    assert Digits(n)[|Digits(n)| - 1] == '0' + (n % 10) as char;
    if m >= 10 && n >= 10 {
      assert Digits(m)[..|Digits(m)| - 1] == Digits(m / 10);
      assert Digits(n)[..|Digits(n)| - 1] == Digits(n / 10);
      DigitsInjective(m / 10, n / 10);
    } else {
      assert m >= 10 ==> |Digits(m)| >= 2;
      assert n >= 10 ==> |Digits(n)| >= 2;
    }
  }

  /** A run of digits ends at the first hyphen, so what precedes it is determined. */
  lemma DigitsThenHyphen(u: string, x: string, v: string, y: string)
    requires AllDigits(u) && AllDigits(v) && u + "-" + x == v + "-" + y
    ensures u == v && x == y
  {
    var s := u + "-" + x;
    assert s[|u|] == '-' && s[|v|] == '-';
    assert u == s[..|u|] && v == s[..|v|];
    assert x == s[|u| + 1..] && y == s[|v| + 1..];
  }

  lemma DecimalShape(n: int)
    ensures Decimal(n) != "" && (n < 0 <==> Decimal(n)[0] == '-')
    ensures n < 0 ==> Decimal(n)[1..] == Digits(-n)
  {
    if n < 0 {
      DigitsOk(-n);
    } else {
      DigitsOk(n);
    }
  }

  lemma NaturalThenHyphen(m: nat, x: string, n: nat, y: string)
    requires Digits(m) + "-" + x == Digits(n) + "-" + y
    ensures m == n && x == y
  {
    DigitsOk(m);
    DigitsOk(n);
    DigitsThenHyphen(Digits(m), x, Digits(n), y);
    DigitsInjective(m, n);
  }

  lemma SameSign(m: int, x: string, n: int, y: string)
    requires Decimal(m) + "-" + x == Decimal(n) + "-" + y
    ensures m < 0 <==> n < 0
  {
    var s := Decimal(m) + "-" + x;
    DecimalShape(m);
    DecimalShape(n);
    assert s[0] == Decimal(m)[0] && s[0] == Decimal(n)[0];
  }

  lemma DropSign(digits: string, x: string, s: string)
    requires s == "-" + digits + "-" + x
    ensures s[1..] == digits + "-" + x
  {
  }

  /** A decimal number followed by a hyphen can be read off the front, although it may start with one itself. */
  lemma DecimalThenHyphen(m: int, x: string, n: int, y: string)
    requires Decimal(m) + "-" + x == Decimal(n) + "-" + y
    ensures m == n && x == y
  {
    SameSign(m, x, n, y);
    if m < 0 {
      var s := Decimal(m) + "-" + x;
      DropSign(Digits(-m), x, s);
      DropSign(Digits(-n), y, s);
      NaturalThenHyphen(-m, x, -n, y);
    } else {
      NaturalThenHyphen(m, x, n, y);
    }
  }

  lemma DecimalInjective(m: int, n: int)
    requires Decimal(m) == Decimal(n)
    ensures m == n
  {
    assert Decimal(m) + "-" + "" == Decimal(n) + "-" + "";
    DecimalThenHyphen(m, "", n, "");
  }

  lemma ColorKeyInjective(c: Color, d: Color)
    requires ColorKey(c) == ColorKey(d)
    ensures c == d
  {
    DecimalThenHyphen(c.h, Decimal(c.s) + "-" + (Decimal(c.b) + "-" + Decimal(c.c)),
                      d.h, Decimal(d.s) + "-" + (Decimal(d.b) + "-" + Decimal(d.c)));
    DecimalThenHyphen(c.s, Decimal(c.b) + "-" + Decimal(c.c), d.s, Decimal(d.b) + "-" + Decimal(d.c));
    DecimalThenHyphen(c.b, Decimal(c.c), d.b, Decimal(d.c));
    DecimalInjective(c.c, d.c);
  }

  /** Distinct patterns, masks or colours never share a key, negative values included. */
  lemma KeyInjective(i: int, c: Color, j: int, d: Color)
    requires Key(i, c) == Key(j, d)
    ensures i == j && c == d
  {
    DecimalThenHyphen(i, ColorKey(c), j, ColorKey(d));
    ColorKeyInjective(c, d);
  }

  lemma FloorKeyInjective(i: int, c: Color, j: int, d: Color)
    requires FloorKey(i, c) == FloorKey(j, d)
    ensures i == j && c == d
  {
    assert FloorKey(i, c)[6..] == Key(i, c) && FloorKey(j, d)[6..] == Key(j, d);
    KeyInjective(i, c, j, d);
  }

  lemma WallKeyInjective(i: int, c: Color, j: int, d: Color)
    requires WallKey(i, c) == WallKey(j, d)
    ensures i == j && c == d
  {
    assert WallKey(i, c)[5..] == Key(i, c) && WallKey(j, d)[5..] == Key(j, d);
    KeyInjective(i, c, j, d);
  }

  /** The three kinds of keys are told apart by their prefixes. */
  lemma KindsDiffer(i: int, c: Color, j: int, d: Color, item: string)
    ensures FloorKey(i, c) != WallKey(j, d)
    ensures FloorKey(i, c) != "furn-" + item && WallKey(j, d) != "furn-" + item
  {
    assert FloorKey(i, c)[0] == 'f' && FloorKey(i, c)[1] == 'l' && WallKey(j, d)[0] == 'w';
    assert ("furn-" + item)[0] == 'f' && ("furn-" + item)[1] == 'u';
  }
}
