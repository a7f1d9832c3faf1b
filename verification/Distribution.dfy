/**
  The distribution and bank keepers of cosmos-sdk that the export drives. Their code is not part of the
  repository, so every operation in this module is an assumption about that library: what it reads, what it
  writes and when it panics. The theorems about the export are proved from these operations.
 */
module Distribution {
  import opened Results
  import opened CoinMath
  import opened Stores

  datatype HistoricalRewards = HistoricalRewards(ratio: Coins, refs: nat)

  datatype CurrentRewards = CurrentRewards(rewards: Coins, period: nat)

  datatype StartingInfo = StartingInfo(previousPeriod: nat, stake: nat, height: int)

  datatype RecordKey = RecordKey(validator: Addr, period: nat)

  datatype SlashKey = SlashKey(validator: Addr, height: nat, period: nat)

  /** The store of the distribution module. */
  datatype Distr = Distr(
    communityPool: Coins,                           // decimal
    outstanding: map<Addr, Coins>,                  // decimal
    commission: map<Addr, Coins>,                   // decimal
    current: map<Addr, CurrentRewards>,
    historical: map<RecordKey, HistoricalRewards>,
    starting: map<PairKey, StartingInfo>,
    slashEvents: map<SlashKey, nat>,
    withdrawTo: map<Addr, Addr>
  )

  /** Whole coins: the distribution module account and everybody else. */
  datatype Bank = Bank(distrModule: Coins, accounts: map<Addr, Coins>)

  datatype Books = Books(bank: Bank, distr: Distr)

  /**
    What the library computes as the reward of a delegation, before it is clamped; None is an error or a panic.
    It may depend on the whole store. Nothing is assumed about it.
   */
  type RewardRule = (Distr, Delegation) -> Option<Coins>

  // ---------------------------------------------------------------------------------------------
  // Reads; a missing entry reads as a zero value
  // ---------------------------------------------------------------------------------------------

  function CurrentOf(s: Distr, v: Addr): CurrentRewards {
    if v in s.current then s.current[v] else CurrentRewards(map[], 0)
  }

  function RecordOf(s: Distr, v: Addr, p: nat): HistoricalRewards {
    if RecordKey(v, p) in s.historical then s.historical[RecordKey(v, p)] else HistoricalRewards(map[], 0)
  }

  function Refs(s: Distr, v: Addr, p: nat): nat {
    RecordOf(s, v, p).refs
  }

  function WithdrawAddr(s: Distr, a: Addr): Addr {
    if a in s.withdrawTo then s.withdrawTo[a] else a
  }

  /** Token value of shares, truncated; scaled by 10^18. */
  function StakeOf(val: Validator, shares: nat): nat
    requires 0 < val.delegatorShares
  {
    ToDec(shares * val.tokens) / val.delegatorShares
  }

  function SetOutstanding(s: Distr, v: Addr, c: Coins): (r: Distr)
    ensures Get(r.outstanding, v) == c && forall w | w != v :: Get(r.outstanding, w) == Get(s.outstanding, w)
    ensures r.outstanding.Keys == s.outstanding.Keys + {v}
    ensures r == s.(outstanding := r.outstanding)
  {
    s.(outstanding := s.outstanding[v := c])
  }

  // ---------------------------------------------------------------------------------------------
  // Reference counts
  // ---------------------------------------------------------------------------------------------

  function DecrementRefs(s: Distr, v: Addr, p: nat): (r: Result<Distr>)
    ensures r.Ok? ==> r.value == s.(historical := r.value.historical)
  {
    var h := RecordOf(s, v, p);
    if h.refs == 0 then Panic
    else if h.refs == 1 then Ok(s.(historical := s.historical - {RecordKey(v, p)}))
    else Ok(s.(historical := s.historical[RecordKey(v, p) := h.(refs := h.refs - 1)]))
  }

  function IncrementRefs(s: Distr, v: Addr, p: nat): (r: Result<Distr>)
    ensures r.Ok? ==> r.value == s.(historical := r.value.historical)
  {
    var h := RecordOf(s, v, p);
    if 2 < h.refs then Panic
    else Ok(s.(historical := s.historical[RecordKey(v, p) := h.(refs := h.refs + 1)]))
  }

  // ---------------------------------------------------------------------------------------------
  // Periods and delegations
  // ---------------------------------------------------------------------------------------------

  /** The ratio earned in the period that ends; a validator without tokens gives its rewards to the pool. */
  function CloseRewards(s: Distr, v: Addr, tokens: nat): (r: Result<(Distr, Coins)>)
    ensures r.Ok? ==> r.value.0 == s.(communityPool := r.value.0.communityPool, outstanding := r.value.0.outstanding)
    ensures r.Ok? ==> r.value.0.outstanding.Keys <= s.outstanding.Keys + {v}
    ensures r.Ok? ==> forall w | w != v :: Get(r.value.0.outstanding, w) == Get(s.outstanding, w)
  {
    var rewards := CurrentOf(s, v).rewards;
    if 0 < tokens then Ok((s, Quo(rewards, tokens)))
    else if !Covers(Get(s.outstanding, v), rewards) then Panic
    else Ok((SetOutstanding(s.(communityPool := Add(s.communityPool, rewards)), v,
                            Sub(Get(s.outstanding, v), rewards)), map[]))
  }

  /** Ends the current period of a validator: its record gets one reference, the record before it loses one. */
  function IncrementPeriod(s: Distr, v: Addr, tokens: nat): (r: Result<Distr>)
    ensures r.Ok? ==> CloseRewards(s, v, tokens).Ok?
    ensures r.Ok? ==>
              && r.value == CloseRewards(s, v, tokens).value.0.(historical := r.value.historical,
                                                                current := r.value.current)
              && r.value.current == s.current[v := CurrentRewards(map[], CurrentOf(s, v).period + 1)]
  {
    var period := CurrentOf(s, v).period;
    var (s1, ratio) :- CloseRewards(s, v, tokens);
    if period == 0 then Panic
    else
      var last := RecordOf(s1, v, period - 1);
      var s2 :- DecrementRefs(s1, v, period - 1);
      Ok(s2.(historical := s2.historical[RecordKey(v, period) := HistoricalRewards(Add(last.ratio, ratio), 1)],
             current := s2.current[v := CurrentRewards(map[], period + 1)]))
  }

  /** Starts a delegation at the latest record of its validator. */
  function InitializeDelegation(s: Distr, val: Validator, del: Delegation, height: int): (r: Result<Distr>)
    ensures r.Ok? ==> r.value == s.(historical := r.value.historical, starting := r.value.starting)
  {
    var period := CurrentOf(s, del.validator).period;
    if period == 0 then Panic
    else
      var s1 :- IncrementRefs(s, del.validator, period - 1);
      if val.delegatorShares == 0 then Panic
      else Ok(s1.(starting :=
                    s1.starting[KeyOf(del) := StartingInfo(period - 1, StakeOf(val, del.shares), height)]))
  }

  // ---------------------------------------------------------------------------------------------
  // Payments
  // ---------------------------------------------------------------------------------------------

  function Pay(b: Bank, to: Addr, coins: Coins): Option<Bank> {
    if coins == map[] then Some(b)
    else if !Covers(b.distrModule, coins) then None
    else Some(Bank(Sub(b.distrModule, coins), b.accounts[to := Add(Get(b.accounts, to), coins)]))
  }

  /**
    Pays the whole coins of the accumulated commission. The error it may return is discarded by its only
    caller, so it is not modelled: with no commission nothing is written, and when the bank refuses the
    payment the writes made before it stay.
   */
  function WithdrawValidatorCommission(b: Books, v: Addr): (r: Result<Books>)
    ensures Get(b.distr.commission, v) == map[] ==> r == Ok(b)
    ensures Get(b.distr.commission, v) != map[] ==>
              && (r.Ok? <==> TakeCommission(b.distr, v).Ok?)
              && (r.Ok? ==> r.value.distr == TakeCommission(b.distr, v).value)
  {
    if Get(b.distr.commission, v) == map[] then Ok(b)
    else
      var s :- TakeCommission(b.distr, v);
      match Pay(b.bank, WithdrawAddr(b.distr, v), Floor(Get(b.distr.commission, v)))
      case None => Ok(Books(b.bank, s))
      case Some(bank) => Ok(Books(bank, s))
  }

  /** The store writes of a commission withdrawal: the fraction stays accumulated, the rest leaves outstanding. */
  function TakeCommission(s: Distr, v: Addr): (r: Result<Distr>)
    ensures r.Ok? ==> r.value == s.(commission := r.value.commission, outstanding := r.value.outstanding)
  {
    var accumulated, held := Get(s.commission, v), Get(s.outstanding, v);
    var coins := Scale(Floor(accumulated));
    if !Covers(held, coins) then Panic
    else Ok(SetOutstanding(s.(commission := s.commission[v := Fraction(accumulated)]), v, Sub(held, coins)))
  }

  /** Books a reward: whole coins to the delegator, the fraction to the pool, both taken from outstanding. */
  function BookReward(b: Books, del: Delegation, raw: Coins): (r: Result<Books>)
    ensures r.Ok? ==> r.value.distr == b.distr.(communityPool := r.value.distr.communityPool,
                                                outstanding := r.value.distr.outstanding)
    ensures r.Ok? ==> r.value.distr.outstanding.Keys == b.distr.outstanding.Keys + {del.validator}
    ensures r.Ok? ==> forall w | w != del.validator ::
                Get(r.value.distr.outstanding, w) == Get(b.distr.outstanding, w)
  {
    var held := Get(b.distr.outstanding, del.validator);
    var rewards := Meet(raw, held);
    match Pay(b.bank, WithdrawAddr(b.distr, del.delegator), Floor(rewards))
    case None => Panic
    case Some(bank) =>
      Ok(Books(bank, SetOutstanding(b.distr.(communityPool := Add(b.distr.communityPool, Fraction(rewards))),
                                    del.validator, Sub(held, rewards))))
  }

  /** Drops the reference of a delegation together with its starting info. */
  function DropStart(s: Distr, k: PairKey): (r: Result<Distr>)
    ensures r.Ok? ==> r.value == s.(historical := r.value.historical, starting := s.starting - {k})
  {
    if k !in s.starting then Panic
    else
      var s1 :- DecrementRefs(s, k.validator, s.starting[k].previousPeriod);
      Ok(s1.(starting := s1.starting - {k}))
  }

  /** Moves a delegation from the record it started at to the latest one. */
  function RestartDelegation(s: Distr, val: Validator, del: Delegation, height: int): (r: Result<Distr>)
    ensures r.Ok? ==> r.value == s.(historical := r.value.historical, starting := r.value.starting)
  {
    var s1 :- DropStart(s, KeyOf(del));
    InitializeDelegation(s1, val, del, height)
  }

  /** An error returned here makes the caller panic, so both are Panic. */
  function WithdrawDelegationRewards(st: Staking, b: Books, del: Delegation, rule: RewardRule, height: int)
    : Result<Books>
  {
    if del.validator !in st.validators.entries || KeyOf(del) !in b.distr.starting then Panic
    else
      var val := st.validators.entries[del.validator];
      var s1 :- IncrementPeriod(b.distr, del.validator, val.tokens);
      match rule(s1, del)
      case None => Panic
      case Some(raw) =>
        var b2 :- BookReward(Books(b.bank, s1), del, raw);
        var s3 :- RestartDelegation(b2.distr, val, del, height);
        Ok(Books(b2.bank, s3))
  }

  // ---------------------------------------------------------------------------------------------
  // Clearing and hooks
  // ---------------------------------------------------------------------------------------------

  function DeleteAllValidatorSlashEvents(s: Distr): Distr {
    s.(slashEvents := map[])
  }

  function DeleteAllValidatorHistoricalRewards(s: Distr): Distr {
    s.(historical := map[])
  }

  function AfterValidatorCreated(s: Distr, v: Addr): Distr {
    s.(historical := s.historical[RecordKey(v, 0) := HistoricalRewards(map[], 1)],
       current := s.current[v := CurrentRewards(map[], 1)],
       commission := s.commission[v := map[]],
       outstanding := s.outstanding[v := map[]])
  }

  function BeforeDelegationCreated(st: Staking, s: Distr, del: Delegation): Result<Distr> {
    if del.validator !in st.validators.entries then Panic
    else IncrementPeriod(s, del.validator, st.validators.entries[del.validator].tokens)
  }

  function AfterDelegationModified(st: Staking, s: Distr, del: Delegation, height: int): Result<Distr> {
    if del.validator !in st.validators.entries then Panic
    else InitializeDelegation(s, st.validators.entries[del.validator], del, height)
  }

  // ---------------------------------------------------------------------------------------------
  // The assumed operations read back, denomination by denomination
  // ---------------------------------------------------------------------------------------------

  /**
    What one reward withdrawal books in one denomination: the lesser of the computed reward and what is
    outstanding leaves outstanding; its whole coins go to the delegator's withdraw address, its dust to the pool.
   */
  lemma RewardBooked(b: Books, del: Delegation, raw: Coins, d: Denom)
    requires BookReward(b, del, raw).Ok?
    ensures var r := BookReward(b, del, raw).value; var to := WithdrawAddr(b.distr, del.delegator);
            var held := Amount(Get(b.distr.outstanding, del.validator), d);
            var reward := if Amount(raw, d) < held then Amount(raw, d) else held;
            && Amount(Get(r.distr.outstanding, del.validator), d) == held - reward
            && Amount(Get(r.bank.accounts, to), d) == Amount(Get(b.bank.accounts, to), d) + Whole(reward)
            && Amount(r.bank.distrModule, d) == Amount(b.bank.distrModule, d) - Whole(reward)
            && Amount(r.distr.communityPool, d) == Amount(b.distr.communityPool, d) + Dust(reward)
  {
    var rewards := Meet(raw, Get(b.distr.outstanding, del.validator));
    assert Amount(rewards, d) <= Amount(raw, d);
    assert Amount(rewards, d) <= Amount(Get(b.distr.outstanding, del.validator), d);
    assert ToDec(Amount(Floor(rewards), d)) + Amount(Fraction(rewards), d) == Amount(rewards, d);
    assert Amount(Floor(rewards), d) == Whole(Amount(rewards, d));
  }

  /**
    What one commission withdrawal books in one denomination when the module account can pay: the whole coins
    leave outstanding and go to the validator's withdraw address, the dust stays accumulated, the pool is untouched.
   */
  lemma CommissionBooked(b: Books, v: Addr, d: Denom)
    requires WithdrawValidatorCommission(b, v).Ok?
    requires Covers(b.bank.distrModule, Floor(Get(b.distr.commission, v)))
    ensures var r := WithdrawValidatorCommission(b, v).value; var to := WithdrawAddr(b.distr, v);
            var accumulated := Amount(Get(b.distr.commission, v), d);
            && Amount(Get(r.distr.commission, v), d) == Dust(accumulated)
            && Amount(Get(r.distr.outstanding, v), d) + ToDec(Whole(accumulated))
               == Amount(Get(b.distr.outstanding, v), d)
            && Amount(Get(r.bank.accounts, to), d) == Amount(Get(b.bank.accounts, to), d) + Whole(accumulated)
            && r.distr.communityPool == b.distr.communityPool
  {
    var commission := Get(b.distr.commission, v);
    assert ToDec(Amount(Floor(commission), d)) + Amount(Fraction(commission), d) == Amount(commission, d);
    assert Amount(Floor(commission), d) == Whole(Amount(commission, d));
    if commission != map[] {
      assert Amount(Scale(Floor(commission)), d) == ToDec(Whole(Amount(commission, d)));
    }
  }

  /**
    What ending a period books in one denomination: the new record adds the rewards for each token to the ratio of
    the last one; without tokens the rewards leave outstanding for the pool instead.
   */
  lemma PeriodBooked(s: Distr, v: Addr, tokens: nat, d: Denom)
    requires IncrementPeriod(s, v, tokens).Ok?
    ensures 1 <= CurrentOf(s, v).period
    ensures var r := IncrementPeriod(s, v, tokens).value; var period := CurrentOf(s, v).period;
            var rewards := Amount(CurrentOf(s, v).rewards, d);
            && Amount(RecordOf(r, v, period).ratio, d) ==
               Amount(RecordOf(s, v, period - 1).ratio, d) + (if tokens == 0 then 0 else rewards / tokens)
            && Amount(r.communityPool, d) == Amount(s.communityPool, d) + (if tokens == 0 then rewards else 0)
            && Amount(Get(r.outstanding, v), d)
               == Amount(Get(s.outstanding, v), d) - (if tokens == 0 then rewards else 0)
  {
  }
}
