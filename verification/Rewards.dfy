/** The expected block reward of hayabusa/rewards.go: two nested roundings down. */
module Rewards {
  import opened Arith

  const E18: nat := 1_000_000_000_000_000_000

  /** big.Int.Sqrt: the integer square root, by search from below. */
  function Sqrt(n: nat): (r: nat)
    ensures r * r <= n < (r + 1) * (r + 1)
  {
    if n == 0 then 0 else
    var r := Sqrt(n - 1);
    if (r + 1) * (r + 1) <= n then
      assert (r + 2) * (r + 2) == (r + 1) * (r + 1) + 2 * r + 3;
      r + 1
    else r
  }

  function Reward(totalStaked: nat, curveFactor: nat, blocksPerYear: nat): nat
    requires blocksPerYear > 0
  {
    (curveFactor * (Sqrt(totalStaked / E18) * E18)) / blocksPerYear
  }

  /** The accumulators of GetExpectedReward, overwritten step by step. */
  method GetExpectedReward(totalStaked: nat, curveFactor: nat, blocksPerYear: nat) returns (reward: nat)
    requires blocksPerYear > 0
    ensures reward == Reward(totalStaked, curveFactor, blocksPerYear)
  {
    var sqrtStake := Sqrt(totalStaked / E18);
    sqrtStake := sqrtStake * E18;
    reward := 1;
    reward := reward * curveFactor;
    reward := reward * sqrtStake;
    reward := reward / blocksPerYear;
  }

  lemma SquareMono(a: nat, b: nat)
    requires a <= b
    ensures a * a <= b * b
  {
    MulMono(a, a, b);
    MulMono(b, a, b);
  }

  lemma SquareOfProduct(a: nat, b: nat)
    ensures (a * b) * (a * b) == (a * a) * (b * b)
  {
    assert (a * b) * (a * b) == a * (b * (a * b));
    assert b * (a * b) == a * (b * b);
  }

  /** (C q E)^2 <= C^2 E T when q is the root of the whole part of T / E. */
  lemma LowerSquare(t: nat, c: nat, q: nat, n: nat)
    requires q * q <= n && n * E18 <= t
    ensures (c * (q * E18)) * (c * (q * E18)) <= c * c * (E18 * t)
  {
    SquareOfProduct(c, q * E18);
    SquareOfProduct(q, E18);
    MulMono(E18 * E18, q * q, n);
    MulMono(E18, n * E18, t);
    assert (q * E18) * (q * E18) <= E18 * t by {
      assert n * (E18 * E18) == E18 * (n * E18);
    }
    MulMono(c * c, (q * E18) * (q * E18), E18 * t);
  }

  /** C^2 E T < (C (q + 1) E)^2 unless C is zero. */
  lemma UpperSquare(t: nat, c: nat, q: nat, n: nat)
    requires c > 0 && n + 1 <= (q + 1) * (q + 1) && t < (n + 1) * E18
    ensures c * c * (E18 * t) < (c * ((q + 1) * E18)) * (c * ((q + 1) * E18))
  {
    SquareOfProduct(c, (q + 1) * E18);
    SquareOfProduct(q + 1, E18);
    MulMono(E18 * E18, n + 1, (q + 1) * (q + 1));
    assert E18 * t < E18 * ((n + 1) * E18);
    assert E18 * ((n + 1) * E18) == (n + 1) * (E18 * E18);
    MulMono(c * c, E18 * t + 1, ((q + 1) * E18) * ((q + 1) * E18));
    assert c * c > 0;
    assert c * c * (E18 * t + 1) == c * c * (E18 * t) + c * c;
  }

  /** Both roundings together: with R the reward, (R B)^2 <= C^2 E T < ((R + 1) B + C E)^2. */
  lemma RewardBounds(t: nat, c: nat, b: nat)
    requires b > 0
    ensures var r := Reward(t, c, b);
            && (r * b) * (r * b) <= c * c * (E18 * t)
            && c * c * (E18 * t) < ((r + 1) * b + c * E18) * ((r + 1) * b + c * E18)
  {
    var n := t / E18;
    var q := Sqrt(n);
    var r := Reward(t, c, b);
    var x := c * (q * E18);
    DivBounds(t, E18);
    DivBounds(x, b);
    assert r * b <= x < r * b + b;
    LowerSquare(t, c, q, n);
    SquareMono(r * b, x);
    var y := (r + 1) * b + c * E18;
    assert (r + 1) * b == r * b + b;
    assert c * ((q + 1) * E18) == x + c * E18 by {
      assert (q + 1) * E18 == q * E18 + E18;
    }
    if c > 0 {
      assert n + 1 <= (q + 1) * (q + 1);
      UpperSquare(t, c, q, n);
      SquareMono(c * ((q + 1) * E18), y);
    } else {
      assert y >= 1;
      SquareMono(1, y);
    }
  }

  lemma SqrtMono(m: nat, n: nat)
    requires m <= n
    ensures Sqrt(m) <= Sqrt(n)
  {
    var x, above: nat := Sqrt(m), Sqrt(n) + 1;
    if x >= above {
      SquareMono(above, x);
      assert false;
    }
  }

  lemma DivMono(x: nat, y: nat, d: nat)
    requires x <= y && d > 0
    ensures x / d <= y / d
  {
    DivBounds(x, d);
    DivGreatest(y, d, x / d);
  }

  /** More stake never means a smaller reward. */
  lemma RewardMonotone(t: nat, u: nat, c: nat, b: nat)
    requires t <= u && b > 0
    ensures Reward(t, c, b) <= Reward(u, c, b)
  {
    DivMono(t, u, E18);
    SqrtMono(t / E18, u / E18);
    MulMono(c, Sqrt(t / E18) * E18, Sqrt(u / E18) * E18);
    DivMono(c * (Sqrt(t / E18) * E18), c * (Sqrt(u / E18) * E18), b);
  }
}
