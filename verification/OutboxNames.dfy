/** Outbox files are delivered in the order of their names; their names start with a zero-padded
    twenty-digit time (alerts.go). */
module OutboxNames {

  function Pow10(k: nat): (p: nat)
    ensures p >= 1
  {
    if k == 0 then 1 else 10 * Pow10(k - 1)
  }

  function Digit(d: nat): char
    requires d < 10
  {
    '0' + d as char
  }

  /** `n` in decimal, with leading zeros up to `width` digits. */
  function Padded(n: nat, width: nat): string
    requires n < Pow10(width)
  {
    if width == 0 then "" else Padded(n / 10, width - 1) + [Digit(n % 10)]
  }

  function FileName(time: nat, name: string): string
    requires time < Pow10(20)
  {
    Padded(time, 20) + "_" + name + ".json"
  }

  /** The order in which file names are sorted. */
  predicate Before(a: string, b: string) {
    b != "" && (a == "" || a[0] < b[0] || (a[0] == b[0] && Before(a[1..], b[1..])))
  }

  lemma {:induction false} CommonPrefix(p: string, a: string, b: string)
    ensures Before(p + a, p + b) == Before(a, b)
  {
    if p == "" {
      assert p + a == a && p + b == b;
    } else {
      assert (p + a)[1..] == p[1..] + a && (p + b)[1..] == p[1..] + b;
      CommonPrefix(p[1..], a, b);
    }
  }

  lemma {:induction false} PaddedOrder(n: nat, m: nat, width: nat, a: string, b: string)
    requires n < m < Pow10(width)
    ensures Before(Padded(n, width) + a, Padded(m, width) + b)
  {
    var p, q := Padded(n / 10, width - 1), Padded(m / 10, width - 1);
    var c, d := [Digit(n % 10)] + a, [Digit(m % 10)] + b;
    assert Padded(n, width) + a == p + c && Padded(m, width) + b == q + d;
    if n / 10 < m / 10 {
      PaddedOrder(n / 10, m / 10, width - 1, c, d);
    } else {
      assert n / 10 == m / 10;
      CommonPrefix(p, c, d);
    }
  }

  lemma {:induction false} BeforeIsAsymmetric(a: string, b: string)
    ensures !(Before(a, b) && Before(b, a))
  {
    if a != "" && b != "" && a[0] == b[0] {
      BeforeIsAsymmetric(a[1..], b[1..]);
    }
  }

  /** Files written at different times sort exactly as those times, whatever the rest of the name. */
  lemma FilesSortByTime(n: nat, m: nat, a: string, b: string)
    requires n < Pow10(20) && m < Pow10(20) && n != m
    ensures Before(FileName(n, a), FileName(m, b)) <==> n < m
  {
    assert FileName(n, a) == Padded(n, 20) + ("_" + a + ".json");
    assert FileName(m, b) == Padded(m, 20) + ("_" + b + ".json");
    if n < m {
      PaddedOrder(n, m, 20, "_" + a + ".json", "_" + b + ".json");
    } else {
      PaddedOrder(m, n, 20, "_" + b + ".json", "_" + a + ".json");
      BeforeIsAsymmetric(FileName(n, a), FileName(m, b));
    }
  }

  /** Every 64-bit time fits the twenty digits. */
  lemma TimesFit(time: nat)
    requires time < 0x8000_0000_0000_0000
    ensures time < Pow10(20)
  {
    assert Pow10(4) == 10000;
    assert Pow10(8) == 100000000 by { assert Pow10(6) == 1000000; }
    assert Pow10(12) == 1000000000000 by { assert Pow10(10) == 10000000000; }
    assert Pow10(16) == 10000000000000000 by { assert Pow10(14) == 100000000000000; }
    assert Pow10(20) == 100000000000000000000 by { assert Pow10(18) == 1000000000000000000; }
  }
}
