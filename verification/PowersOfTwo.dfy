/** Powers of two as the queue uses them: masking a ticket instead of dividing
    it, the single-bit test `n & (n - 1) == 0`, and `RoundUpPow2`. */
module PowersOfTwo {

  function Pow2(k: nat): (p: nat)
    ensures p >= 1
  {
    if k == 0 then 1 else 2 * Pow2(k - 1)
  }

  ghost predicate IsPow2(n: nat) {
    exists k: nat :: n == Pow2(k)
  }

  /** Bitwise "and" on unbounded naturals, one binary digit at a time. */
  function BitAnd(a: nat, b: nat): (r: nat)
    ensures r <= a && r <= b
  {
    if a == 0 || b == 0 then 0 else 2 * BitAnd(a / 2, b / 2) + (a % 2) * (b % 2)
  }

  /** Bitwise "or", likewise. */
  function BitOr(a: nat, b: nat): (r: nat)
    ensures r >= a && r >= b
    decreases a + b
  {
    if a == 0 then b else if b == 0 then a
    else 2 * BitOr(a / 2, b / 2) + if a % 2 + b % 2 > 0 then 1 else 0
  }

  lemma OrHalves(half: nat, b: nat)
    ensures BitOr(2 * half, b) == 2 * BitOr(half, b / 2) + b % 2
  {
    assert 2 * half / 2 == half && 2 * half % 2 == 0;
  }

  lemma Twice(a: nat, k: nat)
    requires k > 0
    ensures ShiftLeft(a, k) == 2 * ShiftLeft(a, k - 1)
  {
    var p := Pow2(k - 1);
    assert a * (2 * p) == 2 * (a * p);
  }

  function ShiftLeft(a: nat, k: nat): nat {
    a * Pow2(k)
  }

  /** Or-ing a number into the zero bits below a shifted one adds it. */
  lemma {:induction false} OrFillsZeros(a: nat, k: nat, b: nat)
    requires b < Pow2(k)
    ensures BitOr(ShiftLeft(a, k), b) == ShiftLeft(a, k) + b
  {
    if k == 0 {
      assert a * 1 == a;
    } else {
      hide BitOr, ShiftLeft;
      OrFillsZeros(a, k - 1, b / 2);
      Twice(a, k);
      OrHalves(ShiftLeft(a, k - 1), b);
    }
  }

  /** Shifting both sides shifts what or-ing gives. */
  lemma {:induction false} OrShifted(a: nat, b: nat, k: nat)
    ensures BitOr(ShiftLeft(a, k), ShiftLeft(b, k)) == ShiftLeft(BitOr(a, b), k)
  {
    hide BitOr;
    if k == 0 {
      assert a * 1 == a && b * 1 == b;
    } else {
      OrShifted(a, b, k - 1);
      Twice(a, k);
      Twice(b, k);
      Twice(BitOr(a, b), k);
      hide ShiftLeft;
      var x, y := ShiftLeft(a, k - 1), ShiftLeft(b, k - 1);
      OrHalves(x, 2 * y);
      assert 2 * y / 2 == y && 2 * y % 2 == 0;
    }
  }

  /** Quotient and remainder are determined by the division equation. */
  lemma DivModUnique(a: int, m: int, q: int, r: int)
    requires m > 0 && a == q * m + r && 0 <= r < m
    ensures a / m == q && a % m == r
  {
    var e := a / m;
    var d := e - q;
    assert a == e * m + a % m;
    assert d * m == e * m - q * m;
    assert d >= 1 ==> d * m >= m;
    assert d <= -1 ==> d * m <= -m;
  }

  lemma ModNextLap(a: int, m: int)
    requires m > 0
    ensures (a + m) % m == a % m
  {
    var q, r := a / m, a % m;
    assert a == q * m + r;
    assert (q + 1) * m == q * m + m;
    DivModUnique(a + m, m, q + 1, r);
  }

  lemma ModDouble(a: nat, p: nat)
    requires p > 0
    ensures a % (2 * p) == 2 * (a / 2 % p) + a % 2
  {
    var h := a / 2;
    var q, r := h / p, h % p;
    assert h == q * p + r;
    assert q * (2 * p) == 2 * (q * p);
    DivModUnique(a, 2 * p, q, 2 * r + a % 2);
  }

  /** `pos & (capacity - 1)` is `pos % capacity` for a power-of-two capacity. */
  lemma {:induction false} MaskIsMod(pos: nat, k: nat)
    ensures BitAnd(pos, Pow2(k) - 1) == pos % Pow2(k)
  {
    if k > 0 {
      var p := Pow2(k - 1);
      MaskIsMod(pos / 2, k - 1);
      ModDouble(pos, p);
      assert (2 * p - 1) / 2 == p - 1 && (2 * p - 1) % 2 == 1;
      if pos == 0 {
        assert pos % (2 * p) == 0;
      } else if p == 1 {
        assert BitAnd(pos / 2, 0) == 0;
      }
    }
  }

  lemma {:induction false} BitAndSelf(a: nat)
    ensures BitAnd(a, a) == a
  {
    if a > 0 {
      BitAndSelf(a / 2);
    }
  }

  /** The test used by the queue's constructor and by RoundUpPow2 recognises
      exactly the powers of two. */
  lemma {:induction false} SingleBitTest(n: nat)
    requires n >= 1
    ensures BitAnd(n, n - 1) == 0 <==> IsPow2(n)
  {
    var h := n / 2;
    if n == 1 {
      assert Pow2(0) == 1;
    } else if n % 2 == 1 {
      assert (n - 1) / 2 == h && (n - 1) % 2 == 0;
      BitAndSelf(h);
      forall k: nat ensures n != Pow2(k) {
        assert k > 0 ==> Pow2(k) == 2 * Pow2(k - 1);
      }
    } else {
      assert (n - 1) / 2 == h - 1 && (n - 1) % 2 == 1;
      SingleBitTest(h);
      if IsPow2(h) {
        var k: nat :| h == Pow2(k);
        assert n == Pow2(k + 1);
      }
      if IsPow2(n) {
        var k: nat :| n == Pow2(k);
        assert k > 0 && h == Pow2(k - 1);
      }
    }
  }

  const WORD: nat := 0x1_0000_0000_0000_0000

  lemma Pow2Of16()
    ensures Pow2(16) == 0x1_0000
  {
    assert Pow2(4) == 16;
    Pow2Add(4, 4);
    Pow2Add(8, 8);
  }

  lemma Pow2Of64()
    ensures Pow2(63) == 0x8000_0000_0000_0000 && Pow2(64) == WORD
  {
    hide Pow2;
    Pow2Of16();
    Pow2Add(16, 16);
    Pow2Add(32, 32);
    Pow2Next(63);
  }

  lemma Pow2Next(k: nat)
    ensures Pow2(k + 1) == 2 * Pow2(k)
  {
  }

  lemma {:induction false} Pow2Add(a: nat, b: nat)
    ensures Pow2(a + b) == Pow2(a) * Pow2(b)
  {
    if a > 0 {
      Pow2Add(a - 1, b);
      assert Pow2(a + b) == 2 * Pow2(a - 1 + b);
    }
  }

  lemma {:induction false} Pow2Monotone(a: nat, b: nat)
    requires a < b
    ensures 2 * Pow2(a) <= Pow2(b)
  {
    if a + 1 < b {
      Pow2Monotone(a, b - 1);
    }
  }

  /** The doubling variable of RoundUpPow2 after `i` rounds of a 64-bit `size_t`. */
  function Doubled(i: nat): (p: nat)
  {
    if i == 0 then 1 else 2 * Doubled(i - 1) % WORD
  }

  lemma {:induction false} DoubledIsPow2(i: nat)
    ensures Doubled(i) == if i < 64 then Pow2(i) else 0
  {
    Pow2Of64();
    if 0 < i < 64 {
      DoubledIsPow2(i - 1);
      Pow2Monotone(i, 64);
      assert 2 * Doubled(i - 1) == Pow2(i) < WORD;
    } else if i == 64 {
      DoubledIsPow2(63);
      assert 2 * Doubled(63) == WORD;
    } else if i > 64 {
      DoubledIsPow2(i - 1);
    }
  }

  /** The doubling loop ever reaches `n` exactly when `n` is at most 2^63: above
      that the variable wraps to zero and stays there. The caller casts a signed
      configuration value, so a negative capacity is such an `n`. */
  lemma RoundUpStopsIff(n: nat)
    ensures (exists i: nat :: Doubled(i) >= n) <==> n <= Pow2(63)
  {
    if n <= Pow2(63) {
      DoubledIsPow2(63);
      assert Doubled(63) >= n;
    } else {
      forall i: nat ensures Doubled(i) < n {
        DoubledIsPow2(i);
        if i < 63 {
          Pow2Monotone(i, 63);
        }
      }
    }
  }

  /** server/core/application.cpp: the least power of two that is at least
      max(n, 2). */
  method RoundUpPow2(n: nat) returns (p: nat)
    requires n <= Pow2(63)
    ensures IsPow2(p) && p >= 2 && p >= n
    ensures forall k: nat :: 2 <= Pow2(k) && n <= Pow2(k) ==> p <= Pow2(k)
    ensures p < WORD
  {
    Pow2Of64();
    if n < 2 {
      assert Pow2(1) == 2;
      return 2;
    }
    SingleBitTest(n);
    if BitAnd(n, n - 1) == 0 {
      return n;
    }
    p := 1;
    ghost var i := 0;
    while p < n
      invariant p == Pow2(i) && i <= 63
      invariant forall j: nat :: j < i ==> Pow2(j) < n
      decreases 2 * n - p
    {
      if i == 63 {
        assert false;
      }
      i := i + 1;
      p := p * 2;
      assert p == Pow2(i);
    }
    forall k: nat | 2 <= Pow2(k) && n <= Pow2(k) ensures p <= Pow2(k) {
      if k > i {
        Pow2Monotone(i, k);
      }
    }
    if i == 0 {
      assert false;
    }
    assert Pow2(i) == 2 * Pow2(i - 1);
  }
}
