/** Zero-padded decimals and the order Table Storage keys compare in. */
module Decimals {
  predicate Less(x: string, y: string) {
    y != [] && (x == [] || x[0] < y[0] || (x[0] == y[0] && Less(x[1..], y[1..])))
  }

  lemma {:induction false} LessIsStrict(x: string)
    ensures !Less(x, x)
  {
    if x != [] { LessIsStrict(x[1..]); }
  }

  lemma {:induction false} LessTrans(x: string, y: string, z: string)
    requires Less(x, y) && Less(y, z)
    ensures Less(x, z)
  {
    if x != [] && x[0] == y[0] && y[0] == z[0] { LessTrans(x[1..], y[1..], z[1..]); }
  }

  lemma {:induction false} LessTotal(x: string, y: string)
    ensures x == y || Less(x, y) || Less(y, x)
  {
    if x != [] && y != [] && x[0] == y[0] {
      LessTotal(x[1..], y[1..]);
      assert x == [x[0]] + x[1..] && y == [y[0]] + y[1..];
    }
  }

  /** Strings of one length are compared before anything appended to them. */
  lemma {:induction false} LessAppend(x: string, y: string, u: string, v: string)
    requires |x| == |y|
    ensures Less(x + u, y + v) <==> Less(x, y) || (x == y && Less(u, v))
  {
    if x == [] {
      assert x + u == u && y + v == v;
    } else {
      LessAppend(x[1..], y[1..], u, v);
      assert (x + u)[1..] == x[1..] + u && (y + v)[1..] == y[1..] + v;
      assert x == [x[0]] + x[1..] && y == [y[0]] + y[1..];
    }
  }

  function Digit(d: nat): char
    requires d < 10
  {
    ('0' as int + d) as char
  }

  /** n in decimal, zero-padded to at least width digits. */
  function Dec(n: nat, width: nat): (s: string)
    ensures |s| >= 1 && '0' <= s[|s| - 1] <= '9'
    ensures |s| == 1 <==> n < 10 && width <= 1
  {
    if n < 10 && width <= 1 then [Digit(n)]
    else Dec(n / 10, if width == 0 then 0 else width - 1) + [Digit(n % 10)]
  }

  function Pow10(k: nat): nat {
    if k == 0 then 1 else 10 * Pow10(k - 1)
  }

  lemma {:induction false} DecLength(n: nat, width: nat)
    requires width >= 1 && n < Pow10(width)
    ensures |Dec(n, width)| == width
  {
    if width > 1 { DecLength(n / 10, width - 1); }
  }

  lemma {:induction false} DecInjective(m: nat, n: nat, width: nat)
    requires Dec(m, width) == Dec(n, width)
    ensures m == n
    decreases m + n + width
  {
    var w := if width == 0 then 0 else width - 1;
    if width <= 1 && (m < 10 || n < 10) {
    } else {
      LastDigit(Dec(m / 10, w), m, Dec(n / 10, w), n);
      DecInjective(m / 10, n / 10, w);
    }
  }

  lemma LastDigit(a: string, m: nat, b: string, n: nat)
    requires a + [Digit(m % 10)] == b + [Digit(n % 10)]
    ensures a == b && m % 10 == n % 10
  {
    var s, t := a + [Digit(m % 10)], b + [Digit(n % 10)];
    assert s[|s| - 1] == Digit(m % 10) && t[|t| - 1] == Digit(n % 10);
    assert a == s[..|s| - 1] && b == t[..|t| - 1];
  }

  /** Numbers padded to one width order as the numbers do. */
  lemma {:induction false} DecOrder(m: nat, n: nat, width: nat)
    requires width >= 1 && m < n < Pow10(width)
    ensures Less(Dec(m, width), Dec(n, width))
  {
    if width > 1 {
      DecLength(m / 10, width - 1);
      DecLength(n / 10, width - 1);
      LessAppend(Dec(m / 10, width - 1), Dec(n / 10, width - 1), [Digit(m % 10)], [Digit(n % 10)]);
      assert m / 10 <= n / 10 < Pow10(width - 1);
      if m / 10 < n / 10 {
        DecOrder(m / 10, n / 10, width - 1);
      } else {
        assert Less([Digit(m % 10)], [Digit(n % 10)]);
      }
    }
  }

  lemma DecOrderExactly(m: nat, n: nat, width: nat)
    requires width >= 1 && m < Pow10(width) && n < Pow10(width)
    ensures |Dec(m, width)| == |Dec(n, width)| == width
    ensures Less(Dec(m, width), Dec(n, width)) <==> m < n
  {
    DecLength(m, width);
    DecLength(n, width);
    LessIsStrict(Dec(m, width));
    if m < n { DecOrder(m, n, width); }
    if n < m {
      DecOrder(n, m, width);
      if Less(Dec(m, width), Dec(n, width)) { LessTrans(Dec(m, width), Dec(n, width), Dec(m, width)); }
    }
  }

  lemma Pow10Of14()
    ensures Pow10(14) == 100_000_000_000_000
  {
    assert Pow10(5) == 100_000;
    assert Pow10(10) == 10_000_000_000;
  }
}
