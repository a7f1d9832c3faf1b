/**
  Multi-denomination amounts. An absent denomination is an amount of zero and no zero is stored, so two
  amounts are equal exactly when they agree on every denomination. The same type serves whole coins and
  decimal coins; a decimal coin is an integer scaled by 10^18.
 */
module CoinMath {

  type Denom(==, !new)

  type Pos = x: int | 0 < x witness 1

  type Coins = map<Denom, Pos>

  function Amount(c: Coins, d: Denom): nat {
    if d in c then c[d] else 0
  }

  /** The scaled form of a whole number of coins. */
  function ToDec(n: nat): nat {
    n * 1_000_000_000_000_000_000
  }

  function Whole(n: nat): (r: nat)
    ensures ToDec(r) <= n < ToDec(r + 1)
  {
    n / 1_000_000_000_000_000_000
  }

  function Dust(n: nat): (r: nat)
    ensures n == ToDec(Whole(n)) + r
    ensures r < ToDec(1)
  {
    n % 1_000_000_000_000_000_000
  }

  function Add(a: Coins, b: Coins): (r: Coins)
    ensures forall d {:trigger Amount(r, d)} :: Amount(r, d) == Amount(a, d) + Amount(b, d)
  {
    map d | d in a.Keys + b.Keys :: Amount(a, d) + Amount(b, d)
  }

  predicate Covers(a: Coins, b: Coins) {
    forall d {:trigger Amount(b, d)} | d in b :: Amount(b, d) <= Amount(a, d)
  }

  function Sub(a: Coins, b: Coins): (r: Coins)
    requires Covers(a, b)
    ensures forall d {:trigger Amount(r, d)} :: Amount(r, d) + Amount(b, d) == Amount(a, d)
  {
    map d | d in a && Amount(b, d) < a[d] :: a[d] - Amount(b, d)
  }

  /** The largest amount covered by both. */
  function Meet(a: Coins, b: Coins): (r: Coins)
    ensures Covers(a, r) && Covers(b, r)
    ensures forall d {:trigger Amount(r, d)} :: Amount(r, d) == Amount(a, d) || Amount(r, d) == Amount(b, d)
  {
    map d | d in a && d in b :: if a[d] < b[d] then a[d] else b[d]
  }

  /** Truncation of a decimal amount to whole coins. */
  function Floor(c: Coins): (r: Coins)
    ensures forall d {:trigger Amount(r, d)} :: Amount(r, d) == Whole(Amount(c, d))
  {
    map d | d in c && 0 < Whole(c[d]) :: Whole(c[d])
  }

  /** What truncation leaves behind. */
  function Fraction(c: Coins): (r: Coins)
    ensures forall d {:trigger Amount(r, d)} :: ToDec(Amount(Floor(c), d)) + Amount(r, d) == Amount(c, d)
  {
    map d | d in c && 0 < Dust(c[d]) :: Dust(c[d])
  }

  function Scale(c: Coins): (r: Coins)
    ensures forall d {:trigger Amount(r, d)} :: Amount(r, d) == ToDec(Amount(c, d))
  {
    map d | d in c :: ToDec(c[d])
  }

  /** Truncating division of a decimal amount by a whole number of tokens. */
  function Quo(c: Coins, tokens: Pos): (r: Coins)
    ensures forall d {:trigger Amount(r, d)} :: Amount(r, d) == Amount(c, d) / tokens
  {
    map d | d in c && 0 < c[d] / tokens :: c[d] / tokens
  }

  /** Reads a store whose missing entries are zero amounts. */
  function Get<K(==)>(m: map<K, Coins>, k: K): Coins {
    if k in m then m[k] else map[]
  }

  lemma SameAmounts(a: Coins, b: Coins)
    requires forall d :: Amount(a, d) == Amount(b, d)
    ensures a == b
  {
    forall d ensures d in a <==> d in b {
      assert Amount(a, d) == Amount(b, d);
    }
    forall d | d in a ensures a[d] == b[d] {
      assert Amount(a, d) == Amount(b, d);
    }
  }

  lemma ZeroIsNeutral(c: Coins)
    ensures Add(c, map[]) == c && Add(map[], c) == c
    ensures Covers(c, map[]) && Sub(c, map[]) == c
  {
    SameAmounts(Add(c, map[]), c);
    SameAmounts(Add(map[], c), c);
    SameAmounts(Sub(c, map[]), c);
  }

  // ---------------------------------------------------------------------------------------------
  // Sums over stores
  // ---------------------------------------------------------------------------------------------

  ghost function Sum<K>(m: map<K, nat>): nat
    decreases |m|
  {
    if m == map[] then 0 else
      var k :| k in m;
      assert (m - {k}).Keys == m.Keys - {k};
      m[k] + Sum(m - {k})
  }

  lemma {:induction false} SumSplit<K>(m: map<K, nat>, k: K)
    requires k in m
    ensures Sum(m) == m[k] + Sum(m - {k})
    decreases |m|
  {
    var j :| j in m && Sum(m) == m[j] + Sum(m - {j});
    if j != k {
      assert (m - {j}).Keys == m.Keys - {j} && (m - {k}).Keys == m.Keys - {k};
      SumSplit(m - {j}, k);
      SumSplit(m - {k}, j);
      assert m - {j} - {k} == m - {k} - {j};
    }
  }

  lemma SumUpdate<K>(m: map<K, nat>, k: K, n: nat)
    ensures Sum(m[k := n]) == Sum(m - {k}) + n
    ensures k in m ==> Sum(m) == Sum(m - {k}) + m[k]
    ensures k !in m ==> Sum(m) == Sum(m - {k})
  {
    SumSplit(m[k := n], k);
    assert m[k := n] - {k} == m - {k};
    if k in m {
      SumSplit(m, k);
    } else {
      assert m - {k} == m;
    }
  }

  /** How much of denomination d a whole store holds. */
  ghost function Total<K>(m: map<K, Coins>, d: Denom): nat {
    Sum(Amounts(m, d))
  }

  ghost function Amounts<K>(m: map<K, Coins>, d: Denom): map<K, nat> {
    map k | k in m :: Amount(m[k], d)
  }

  lemma TotalUpdate<K>(m: map<K, Coins>, k: K, c: Coins, d: Denom)
    ensures Total(m[k := c], d) + Amount(Get(m, k), d) == Total(m, d) + Amount(c, d)
    ensures Amount(Get(m, k), d) <= Total(m, d)
  {
    SumUpdate(Amounts(m, d), k, Amount(c, d));
    assert Amounts(m, d)[k := Amount(c, d)] == Amounts(m[k := c], d);
  }

  lemma {:induction false} TotalOfNothing<K>(m: map<K, Coins>, d: Denom)
    requires forall k | k in m :: m[k] == map[]
    ensures Total(m, d) == 0
    decreases |m|
  {
    if m != map[] {
      var k :| k in m;
      var rest := m - {k};
      assert rest.Keys == m.Keys - {k};
      TotalOfNothing(rest, d);
      assert rest[k := map[]] == m;
      TotalUpdate(rest, k, map[], d);
    }
  }
}
