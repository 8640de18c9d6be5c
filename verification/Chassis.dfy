/** Numbering of the ports of an I/O module from the fabric interconnect's port numbers. */
module Chassis {

  function AbsReal(x: real): real
  {
    if x < 0.0 then -x else x
  }

  /** A triangle wave of the given amplitude, as the code computes it. */
  function GetIOMportNumber(portNum: int, iomPortCount: int): int
    requires iomPortCount != 0
  {
    var a := iomPortCount as real;
    var p := a * 4.0;
    var intP := iomPortCount * 4;
    var mod := ((portNum - iomPortCount) % intP) as real;
    var port := AbsReal((4.0 * a / p) * AbsReal(mod - p / 2.0) - a);
    if port == 0.0 then iomPortCount else port.Floor
  }

  function Abs(x: int): int
  {
    if x < 0 then -x else x
  }

  lemma Amplitude(a: real)
    requires a != 0.0
    ensures a * 4.0 != 0.0 && 4.0 * a / (a * 4.0) == 1.0
  {
  }

  /** The wave in integers: no rounding is involved. */
  lemma WaveIsInteger(portNum: int, a: int)
    requires a >= 1
    ensures var w := Abs(Abs((portNum - a) % (4 * a) - 2 * a) - a);
            GetIOMportNumber(portNum, a) == if w == 0 then a else w
  {
    Amplitude(a as real);
    var mod := (portNum - a) % (a * 4);
    assert a * 4 == 4 * a;
    var inner := AbsReal(mod as real - (a as real) * 4.0 / 2.0);
    assert inner == Abs(mod - 2 * a) as real;
    assert AbsReal(1.0 * inner - a as real) == Abs(Abs(mod - 2 * a) - a) as real;
  }

  lemma MultipleBounds(m: int, d: int)
    requires m > 0
    ensures (d >= 1 ==> m * d >= m) && (d <= -1 ==> m * d <= -m)
  {
  }

  /** x modulo m, from a representation of x. */
  lemma ModIs(x: int, m: int, t: int, r: int)
    requires m > 0 && x == m * t + r && 0 <= r < m
    ensures x % m == r
  {
    var d := x / m - t;
    assert m * (x / m) - m * t == m * d;
    assert x == m * (x / m) + x % m;
    MultipleBounds(m, d);
  }

  /** Where port j of block k falls in the period. */
  function Offset(a: int, k: int, j: int): int
  {
    var q := (k - 1) % 4;
    if q == 0 then j else if q == 1 then a + j else if q == 2 then 2 * a + j else if j == a then 0 else 3 * a + j
  }

  lemma OffsetIs(a: int, k: int, j: int)
    requires a >= 1 && 1 <= j <= a
    ensures (k * a + j - a) % (4 * a) == Offset(a, k, j)
  {
    var t, q := (k - 1) / 4, (k - 1) % 4;
    Distribute(a, t, q, k);
    if q == 3 && j == a {
      assert (4 * a) * (t + 1) == (4 * a) * t + 4 * a;
      ModIs(k * a + j - a, 4 * a, t + 1, 0);
    } else {
      ModIs(k * a + j - a, 4 * a, t, q * a + j);
    }
  }

  lemma Distribute(a: int, t: int, q: int, k: int)
    requires k - 1 == 4 * t + q
    ensures k * a - a == (4 * a) * t + q * a
  {
    assert k * a - a == (k - 1) * a == (4 * t + q) * a == (4 * t) * a + q * a;
    assert (4 * t) * a == (4 * a) * t;
  }

  /** Port j of block k, counting from 1: blocks alternately count down and up. */
  lemma {:induction false} BlockPort(a: int, k: int, j: int)
    requires a >= 1 && 1 <= j <= a
    ensures GetIOMportNumber(k * a + j, a) == Folded(a, k, j)
  {
    hide GetIOMportNumber;
    WaveIsInteger(k * a + j, a);
    OffsetIs(a, k, j);
  }

  function Folded(a: int, k: int, j: int): int
  {
    if (k - 1) % 2 == 1 then j else if j == a then a else a - j
  }

  /** The interconnect port of block k that gets module port i. */
  function Source(a: int, k: int, i: int): int
  {
    k * a + (if (k - 1) % 2 == 1 || i == a then i else a - i)
  }

  /** For any port count and any block of that many interconnect ports, the numbering is a
      bijection onto 1 to the port count. */
  lemma BlockBijection(a: int, k: int)
    requires a >= 1
    ensures forall n :: k * a + 1 <= n <= (k + 1) * a ==> 1 <= GetIOMportNumber(n, a) <= a
    ensures forall m, n ::
              k * a + 1 <= m <= (k + 1) * a && k * a + 1 <= n <= (k + 1) * a
                  && GetIOMportNumber(m, a) == GetIOMportNumber(n, a)
              ==> m == n
    ensures forall i ::
              1 <= i <= a ==>
                k * a + 1 <= Source(a, k, i) <= (k + 1) * a && GetIOMportNumber(Source(a, k, i), a) == i
  {
    hide GetIOMportNumber;
    assert (k + 1) * a == k * a + a;
    forall n | k * a + 1 <= n <= (k + 1) * a
      ensures GetIOMportNumber(n, a) == Folded(a, k, n - k * a)
    {
      BlockPort(a, k, n - k * a);
    }
    forall i | 1 <= i <= a
      ensures k * a + 1 <= Source(a, k, i) <= (k + 1) * a && GetIOMportNumber(Source(a, k, i), a) == i
    {
      BlockPort(a, k, Source(a, k, i) - k * a);
    }
  }
}
