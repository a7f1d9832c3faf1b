/** The token value of shares, which the rebuild writes into every starting info. */
module Stakes {
  import opened CoinMath
  import opened Stores
  import opened Distribution

  lemma MulOrder(p: int, q: int, m: int)
    requires 0 < m
    ensures q <= p ==> q * m <= p * m
  {
  }

  lemma FloorSum(a: int, b: int, qa: int, qb: int, qc: int, m: int)
    requires 0 < m && qa * m <= a < (qa + 1) * m && qb * m <= b < (qb + 1) * m && qc * m <= a + b < (qc + 1) * m
    ensures qa + qb <= qc <= qa + qb + 1
  {
    MulOrder(qa + qb, qc + 1, m);
    MulOrder(qc, qa + qb + 2, m);
    assert (qa + qb) * m == qa * m + qb * m;
    assert (qa + qb + 2) * m == (qa + 1) * m + (qb + 1) * m;
  }

  lemma FloorOfMultiple(q: int, p: int, m: int)
    requires 0 < m && p * m <= q * m < (p + 1) * m
    ensures p == q
  {
    MulOrder(p, q + 1, m);
    MulOrder(q, p + 1, m);
    assert (q + 1) * m == q * m + m;
  }

  /** A stake is the truncated share of the tokens, and all shares are worth all tokens. */
  lemma StakeIsProportional(val: Validator, shares: nat)
    requires 0 < val.delegatorShares
    ensures StakeOf(val, shares) * val.delegatorShares <= ToDec(shares * val.tokens)
    ensures ToDec(shares * val.tokens) < (StakeOf(val, shares) + 1) * val.delegatorShares
    ensures shares == val.delegatorShares ==> StakeOf(val, shares) == ToDec(val.tokens)
  {
    var n, m, q := ToDec(shares * val.tokens), val.delegatorShares, StakeOf(val, shares);
    assert n == q * m + n % m;
    assert (q + 1) * m == q * m + m;
    if shares == m {
      assert n == ToDec(val.tokens) * m;
      FloorOfMultiple(ToDec(val.tokens), q, m);
    }
  }

  /** Splitting shares never raises their value, and costs at most the smallest unit. */
  lemma StakesSplit(val: Validator, x: nat, y: nat)
    requires 0 < val.delegatorShares
    ensures StakeOf(val, x) + StakeOf(val, y) <= StakeOf(val, x + y) <= StakeOf(val, x) + StakeOf(val, y) + 1
  {
    hide StakeOf;
    StakeIsProportional(val, x);
    StakeIsProportional(val, y);
    StakeIsProportional(val, x + y);
    assert (x + y) * val.tokens == x * val.tokens + y * val.tokens;
    FloorSum(ToDec(x * val.tokens), ToDec(y * val.tokens), StakeOf(val, x), StakeOf(val, y), StakeOf(val, x + y),
             val.delegatorShares);
  }

  ghost function SumOf(shares: seq<nat>): nat {
    if shares == [] then 0 else shares[0] + SumOf(shares[1..])
  }

  ghost function StakeSum(val: Validator, shares: seq<nat>): nat
    requires 0 < val.delegatorShares
  {
    if shares == [] then 0 else StakeOf(val, shares[0]) + StakeSum(val, shares[1..])
  }

  lemma {:induction false} StakeSumSplits(val: Validator, shares: seq<nat>)
    requires 0 < val.delegatorShares
    ensures StakeSum(val, shares) <= StakeOf(val, SumOf(shares))
  {
    if shares == [] {
    } else {
      hide StakeOf;
      StakeSumSplits(val, shares[1..]);
      StakesSplit(val, shares[0], SumOf(shares[1..]));
    }
  }

  /** Delegations that together hold no more than the shares of a validator have no more stake than its tokens. */
  lemma StakesWithinTokens(val: Validator, shares: seq<nat>)
    requires 0 < val.delegatorShares && SumOf(shares) <= val.delegatorShares
    ensures StakeSum(val, shares) <= ToDec(val.tokens)
  {
    hide StakeOf;
    StakeSumSplits(val, shares);
    StakeIsProportional(val, val.delegatorShares);
    StakesSplit(val, SumOf(shares), val.delegatorShares - SumOf(shares));
  }
}
