/** Rescaling of token amounts between decimals, and the withdrawal amount of a deposit. */
module Amounts {
  import opened Wrappers

  function Pow10(k: nat): (p: int)
    ensures p >= 1
  {
    if k == 0 then 1 else 10 * Pow10(k - 1)
  }

  /**
   The same amount of a token with other decimals, rounded down. Division is Euclidean, as it is
   for Go's big integers, so this also covers negative amounts.
   */
  function Rescaled(amount: int, current: nat, target: nat): int {
    if current <= target then amount * Pow10(target - current) else amount / Pow10(current - target)
  }

  method TransformAmount(amount: int, currentDecimals: nat, targetDecimals: nat) returns (result: int)
    ensures result == Rescaled(amount, currentDecimals, targetDecimals)
  {
    result := amount;
    if currentDecimals == targetDecimals {
      return;
    }
    if currentDecimals < targetDecimals {
      for i := 0 to targetDecimals - currentDecimals
        invariant result == amount * Pow10(i)
      {
        result := result * 10;
      }
    } else {
      for i := 0 to currentDecimals - targetDecimals
        invariant result == amount / Pow10(i)
      {
        DivDiv(amount, Pow10(i), 10);
        result := result / 10;
      }
    }
  }

  // ---------- arithmetic ----------

  lemma AtLeast(k: int, d: int)
    requires k >= 1 && d > 0
    ensures k * d >= d
  {
  }

  lemma OneQuotient(d: int, q: int, r: int, q': int, r': int)
    requires 0 <= r < d && 0 <= r' < d && q * d + r == q' * d + r'
    ensures q == q'
  {
    if q < q' {
      AtLeast(q' - q, d);
    } else if q' < q {
      AtLeast(q - q', d);
    }
  }

  /** Quotient and remainder are unique. */
  lemma QuotientIs(a: int, d: int, q: int, r: int)
    requires 0 <= r < d && a == q * d + r
    ensures a / d == q
  {
    OneQuotient(d, a / d, a % d, q, r);
  }

  lemma Regroup(y: int, z: int, p: int, q: int)
    ensures (y * q + z) * p == y * (p * q) + z * p
  {
  }

  /** A remainder of both divisions is a remainder of the division by the product. */
  lemma Remainder(z: int, w: int, p: int, q: int)
    requires 0 <= z < q && 0 <= w < p
    ensures 0 <= z * p + w < p * q
  {
    if z > 0 {
      AtLeast(z, p);
    }
    if q - z > 0 {
      AtLeast(q - z, p);
    }
    assert (q - z) * p == p * q - z * p;
  }

  lemma DivDiv(a: int, p: int, q: int)
    requires p > 0 && q > 0
    ensures p * q > 0 && (a / p) / q == a / (p * q)
  {
    AtLeast(q, p);
    var x, w := a / p, a % p;
    var y, z := x / q, x % q;
    Regroup(y, z, p, q);
    Remainder(z, w, p, q);
    QuotientIs(a, p * q, y, z * p + w);
  }

  lemma MulDiv(a: int, p: int)
    requires p > 0
    ensures a * p / p == a
  {
    QuotientIs(a * p, p, a, 0);
  }

  lemma {:induction false} PowAdd(j: nat, k: nat)
    ensures Pow10(j + k) == Pow10(j) * Pow10(k)
  {
    if j > 0 {
      PowAdd(j - 1, k);
    }
  }

  lemma {:induction false} PowGrows(j: nat, k: nat)
    requires j < k
    ensures Pow10(j) < Pow10(k)
  {
    if j + 1 < k {
      PowGrows(j, k - 1);
    }
  }

  // ---------- composition ----------

  lemma UpUp(a: int, j: nat, k: nat)
    ensures a * Pow10(j) * Pow10(k) == a * Pow10(j + k)
  {
    PowAdd(j, k);
    Associate(a, Pow10(j), Pow10(k));
  }

  lemma Associate(a: int, p: int, q: int)
    ensures a * p * q == a * (p * q)
  {
  }

  lemma DownDown(a: int, j: nat, k: nat)
    ensures a / Pow10(j) / Pow10(k) == a / Pow10(j + k)
  {
    PowAdd(j, k);
    DivDiv(a, Pow10(j), Pow10(k));
  }

  /** Up and part of the way down, or up and further down. */
  lemma UpDown(a: int, j: nat, k: nat)
    ensures a * Pow10(j + k) / Pow10(k) == a * Pow10(j)
    ensures a * Pow10(j) / Pow10(j + k) == a / Pow10(k)
  {
    UpUp(a, j, k);
    MulDiv(a * Pow10(j), Pow10(k));
    DownDown(a * Pow10(j), j, k);
    MulDiv(a, Pow10(j));
  }

  /** An intermediate with enough decimals changes nothing. */
  lemma ViaEnough(a: int, c: nat, m: nat, t: nat)
    requires m >= c || m >= t
    ensures Rescaled(Rescaled(a, c, m), m, t) == Rescaled(a, c, t)
  {
    hide Pow10;
    if c <= m <= t {
      UpUp(a, m - c, t - m);
    } else if m < c {
      if m == t {
        Whole(a / Pow10(c - m));
      } else {
        DownDown(a, c - m, m - t);
      }
    } else if c <= t {
      UpDown(a, t - c, m - t);
    } else {
      UpDown(a, m - c, c - t);
    }
  }

  lemma Whole(a: int)
    ensures a * Pow10(0) == a
  {
  }

  /** An amount that an intermediate with fewer decimals than both ends loses. */
  function Lost(c: nat, t: nat): int {
    if c >= t then Pow10(c - t) else 1
  }

  lemma ViaLoses(c: nat, m: nat, t: nat)
    requires m < c && m < t
    ensures Rescaled(Rescaled(Lost(c, t), c, m), m, t) != Rescaled(Lost(c, t), c, t)
  {
    var a := Lost(c, t);
    if c >= t {
      PowGrows(c - t, c - m);
      MulDiv(1, Pow10(c - t));
    } else {
      PowGrows(0, c - m);
    }
    QuotientIs(a, Pow10(c - m), 0, a);
    assert Rescaled(a, c, m) == 0;
  }

  /** Rescaling in two hops equals rescaling in one, for all amounts, exactly when the middle is fine enough. */
  lemma ViaExact(c: nat, m: nat, t: nat)
    ensures (forall a :: Rescaled(Rescaled(a, c, m), m, t) == Rescaled(a, c, t)) <==> m >= c || m >= t
  {
    if m >= c || m >= t {
      forall a
        ensures Rescaled(Rescaled(a, c, m), m, t) == Rescaled(a, c, t)
      {
        ViaEnough(a, c, m, t);
      }
    } else {
      ViaLoses(c, m, t);
    }
  }

  /** Going up and back down is the identity. */
  lemma UpThenDown(a: int, c: nat, t: nat)
    requires c <= t
    ensures Rescaled(Rescaled(a, c, t), t, c) == a
  {
    ViaEnough(a, c, t, c);
  }

  /** Going down and back up loses less than one unit of the coarser scale. */
  lemma DownThenUp(a: int, c: nat, t: nat)
    requires t <= c
    ensures 0 <= a - Rescaled(Rescaled(a, c, t), t, c) < Pow10(c - t)
  {
    var p := Pow10(c - t);
    if t < c {
      assert a == (a / p) * p + a % p;
    }
  }

  // ---------- withdrawal amount ----------

  datatype TokenInfo = TokenInfo(decimals: nat, minWithdrawalAmount: Option<int>)

  /**
   The amount to withdraw and the commission kept. `commission` is the core's commission computation
   at the destination token's rate, which may fail.
   */
  method GetWithdrawalAmount(deposited: int, src: TokenInfo, dst: TokenInfo, commission: int -> Option<int>)
    returns (r: Option<(int, int)>)
    ensures r.Some? ==>
      && r.value.0 + r.value.1 == Rescaled(deposited, src.decimals, dst.decimals)
      && Some(r.value.1) == commission(r.value.0 + r.value.1)
      && r.value.0 >= if dst.minWithdrawalAmount.Some? then dst.minWithdrawalAmount.value else 0
    ensures r.None? ==>
      var total := Rescaled(deposited, src.decimals, dst.decimals);
      || commission(total).None?
      || total - commission(total).value < if dst.minWithdrawalAmount.Some? then dst.minWithdrawalAmount.value else 0
  {
    var total := TransformAmount(deposited, src.decimals, dst.decimals);
    var kept := commission(total);
    if kept.None? {
      return None;
    }
    var final := total - kept.value;
    var least := if dst.minWithdrawalAmount.Some? then dst.minWithdrawalAmount.value else 0;
    if final < least {
      return None;
    }
    return Some((final, kept.value));
  }
}
