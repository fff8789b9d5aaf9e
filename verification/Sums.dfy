/** Finite sums of an integer-valued function over a set of keys.
    Ledgers in this project are maps; their totals are stated with `Sum`. */
module Sums {

  ghost function Sum<K(!new)>(s: set<K>, f: K -> int): int
  {
    if s == {} then 0 else
      var k :| k in s;
      f(k) + Sum(s - {k}, f)
  }

  /** Any element may be taken out first, not only the one `Sum` picks. */
  lemma {:induction false} SumRemove<K(!new)>(s: set<K>, k: K, f: K -> int)
    requires k in s
    ensures Sum(s, f) == f(k) + Sum(s - {k}, f)
    decreases s
  {
    var j :| j in s && Sum(s, f) == f(j) + Sum(s - {j}, f);
    if j != k {
      SumRemove(s - {j}, k, f);
      SumRemove(s - {k}, j, f);
      assert s - {j} - {k} == s - {k} - {j};
    }
  }

  lemma SomeMember<K>(s: set<K>) returns (k: K)
    requires s != {}
    ensures k in s
  {
    k :| k in s;
  }

  lemma {:induction false} SumSame<K(!new)>(s: set<K>, f: K -> int, g: K -> int)
    requires forall k | k in s :: f(k) == g(k)
    ensures Sum(s, f) == Sum(s, g)
    decreases s
  {
    if s != {} {
      var k :| k in s;
      SumRemove(s, k, f);
      SumRemove(s, k, g);
      SumSame(s - {k}, f, g);
    }
  }

  lemma {:induction false} SumMono<K(!new)>(s: set<K>, f: K -> int, g: K -> int)
    requires forall k | k in s :: f(k) <= g(k)
    ensures Sum(s, f) <= Sum(s, g)
    decreases s
  {
    if s != {} {
      var k :| k in s;
      SumRemove(s, k, f);
      SumRemove(s, k, g);
      SumMono(s - {k}, f, g);
    }
  }

  lemma {:induction false} SumNonNegative<K(!new)>(s: set<K>, f: K -> int)
    requires forall k | k in s :: f(k) >= 0
    ensures Sum(s, f) >= 0
    ensures forall k | k in s :: f(k) <= Sum(s, f)
    decreases s
  {
    if s != {} {
      var k :| k in s;
      SumRemove(s, k, f);
      SumNonNegative(s - {k}, f);
      forall j | j in s ensures f(j) <= Sum(s, f) {
        if j != k { assert j in s - {k}; }
      }
    }
  }

  /** Two pairs of functions that add up key by key have sums that add up. */
  lemma {:induction false} SumBalance<K(!new)>(s: set<K>, a: K -> int, b: K -> int, c: K -> int, d: K -> int)
    requires forall k | k in s :: a(k) + b(k) == c(k) + d(k)
    ensures Sum(s, a) + Sum(s, b) == Sum(s, c) + Sum(s, d)
    decreases s
  {
    if s != {} {
      var k :| k in s;
      SumRemove(s, k, a);
      SumRemove(s, k, b);
      SumRemove(s, k, c);
      SumRemove(s, k, d);
      SumBalance(s - {k}, a, b, c, d);
    }
  }

  /** Changing the function by d at one key moves the sum by d. */
  lemma SumShift<K(!new)>(s: set<K>, k: K, f: K -> int, g: K -> int, d: int)
    requires k in s && g(k) == f(k) + d
    requires forall j | j in s && j != k :: f(j) == g(j)
    ensures Sum(s, g) == Sum(s, f) + d
  {
    SumRemove(s, k, f);
    SumRemove(s, k, g);
    SumSame(s - {k}, f, g);
  }

  /** A new key with value w adds w. */
  lemma SumExtend<K(!new)>(s: set<K>, k: K, f: K -> int, g: K -> int, w: int)
    requires k !in s && g(k) == w
    requires forall j | j in s :: f(j) == g(j)
    ensures Sum(s + {k}, g) == Sum(s, f) + w
  {
    SumRemove(s + {k}, k, g);
    assert s + {k} - {k} == s;
    SumSame(s, f, g);
  }

  /** Keys where the function is zero do not matter. */
  lemma {:induction false} SumSupport<K(!new)>(s: set<K>, t: set<K>, f: K -> int)
    requires t <= s
    requires forall k | k in s - t :: f(k) == 0
    ensures Sum(s, f) == Sum(t, f)
    decreases s - t
  {
    if k :| k in s && k !in t {
      assert k in s - t;
      SumRemove(s, k, f);
      SumSupport(s - {k}, t, f);
    } else {
      assert s == t;
    }
  }

  /** Shares rounded down: if each part times w is at most r times its weight,
      so is the whole. */
  lemma {:induction false} SumOfShares<K(!new)>(s: set<K>, part: K -> int, weight: K -> int, r: nat, w: nat)
    requires forall k | k in s :: part(k) * w <= r * weight(k)
    ensures Sum(s, part) * w <= r * Sum(s, weight)
    decreases s
  {
    if s != {} {
      var k :| k in s;
      SumRemove(s, k, part);
      SumRemove(s, k, weight);
      SumOfShares(s - {k}, part, weight, r, w);
      assert (part(k) + Sum(s - {k}, part)) * w == part(k) * w + Sum(s - {k}, part) * w;
      assert r * (weight(k) + Sum(s - {k}, weight)) == r * weight(k) + r * Sum(s - {k}, weight);
    }
  }

  lemma OneMorePart(part: int, parts: int, weight: int, weights: int, n: nat, r: nat, w: nat)
    requires part * w + w > r * weight && parts * w + n * (w - 1) >= r * weights
    ensures (part + parts) * w + (n + 1) * (w - 1) >= r * (weight + weights)
  {
    assert (part + parts) * w == part * w + parts * w;
    assert r * (weight + weights) == r * weight + r * weights;
    assert (n + 1) * (w - 1) == n * (w - 1) + (w - 1);
  }

  /** Rounding down loses less than one unit of w for each part. */
  lemma {:induction false} SumOfRemainders<K(!new)>(s: set<K>, part: K -> int, weight: K -> int, r: nat, w: nat)
    requires forall k | k in s :: part(k) * w + w > r * weight(k)
    ensures Sum(s, part) * w + |s| * (w - 1) >= r * Sum(s, weight)
    decreases s
  {
    if s != {} {
      var k :| k in s;
      SumRemove(s, k, part);
      SumRemove(s, k, weight);
      SumOfRemainders(s - {k}, part, weight, r, w);
      OneMorePart(part(k), Sum(s - {k}, part), weight(k), Sum(s - {k}, weight), |s - {k}|, r, w);
    }
  }
}
