/**
  Conservation. Every step of the distribution phases keeps, in every denomination, the gap between what the
  module account holds and what the distribution module owes, and the total supply. Because the phases are
  folds over arbitrary lists, the same holds after every iteration of each loop.
 */
module Conservation {
  import opened CoinMath
  import opened Stores
  import opened Distribution
  import opened ZeroHeight

  /** What the distribution module owes to validators and delegators, plus the community pool. */
  ghost function Owed(s: Distr, d: Denom): nat {
    Total(s.outstanding, d) + Amount(s.communityPool, d)
  }

  /** Coins of the module account, scaled, beyond what is owed. */
  ghost function Gap(b: Books, d: Denom): int {
    ToDec(Amount(b.bank.distrModule, d)) - Owed(b.distr, d)
  }

  /** The module account covers everything that is owed. */
  ghost predicate Solvent(b: Books) {
    forall d :: 0 <= Gap(b, d)
  }

  /** The module account holds exactly what is owed. */
  ghost predicate Backed(b: Books) {
    forall d :: Gap(b, d) == 0
  }

  ghost function Supply(b: Bank, d: Denom): nat {
    Amount(b.distrModule, d) + Total(b.accounts, d)
  }

  /** No account other than the module account loses anything. */
  ghost predicate OnlyCredits(b: Bank, b': Bank) {
    && Covers(b.distrModule, b'.distrModule)
    && forall a :: Covers(Get(b'.accounts, a), Get(b.accounts, a))
  }

  /** Same gap and same supply in every denomination, and users are only credited. */
  ghost predicate Conserves(b: Books, b': Books) {
    && (forall d :: Gap(b', d) == Gap(b, d))
    && (forall d :: Supply(b'.bank, d) == Supply(b.bank, d))
    && OnlyCredits(b.bank, b'.bank)
  }

  lemma PayConserves(b: Bank, to: Addr, coins: Coins)
    ensures Pay(b, to, coins).Some? <==> Covers(b.distrModule, coins)
    ensures Pay(b, to, coins).Some? ==>
              && (forall d ::
                    Amount(Pay(b, to, coins).value.distrModule, d) + Amount(coins, d) == Amount(b.distrModule, d))
              && (forall d :: Supply(Pay(b, to, coins).value, d) == Supply(b, d))
              && OnlyCredits(b, Pay(b, to, coins).value)
  {
    if Covers(b.distrModule, coins) {
      var b' := Pay(b, to, coins).value;
      forall d ensures Supply(b', d) == Supply(b, d) {
        TotalUpdate(b.accounts, to, Add(Get(b.accounts, to), coins), d);
      }
    }
  }

  lemma CommissionConserves(b: Books, v: Addr)
    requires Solvent(b)
    ensures var r := WithdrawValidatorCommission(b, v); r.Ok? ==> Conserves(b, r.value)
  {
    var r := WithdrawValidatorCommission(b, v);
    var accumulated := Get(b.distr.commission, v);
    if r.Ok? && accumulated != map[] {
      var coins := Floor(accumulated);
      var held := Get(b.distr.outstanding, v);
      forall d ensures Amount(coins, d) <= Amount(b.bank.distrModule, d) {
        assert 0 <= Gap(b, d);
        TotalUpdate(b.distr.outstanding, v, held, d);
        assert Amount(Scale(coins), d) <= Amount(held, d);
      }
      PayConserves(b.bank, WithdrawAddr(b.distr, v), coins);
      forall d ensures Gap(r.value, d) == Gap(b, d) {
        TotalUpdate(b.distr.outstanding, v, Sub(held, Scale(coins)), d);
      }
    }
  }

  lemma CloseRewardsConserves(s: Distr, v: Addr, tokens: nat)
    ensures var r := CloseRewards(s, v, tokens);
            r.Ok? ==> forall d :: Owed(r.value.0, d) == Owed(s, d)
  {
    var r := CloseRewards(s, v, tokens);
    if r.Ok? && tokens == 0 {
      forall d ensures Owed(r.value.0, d) == Owed(s, d) {
        TotalUpdate(s.outstanding, v, Sub(Get(s.outstanding, v), CurrentOf(s, v).rewards), d);
      }
    }
  }

  lemma IncrementPeriodConserves(s: Distr, v: Addr, tokens: nat)
    ensures var r := IncrementPeriod(s, v, tokens);
            r.Ok? ==> forall d :: Owed(r.value, d) == Owed(s, d)
  {
    CloseRewardsConserves(s, v, tokens);
    var r := IncrementPeriod(s, v, tokens);
    if r.Ok? {
      SameOwed(CloseRewards(s, v, tokens).value.0, r.value);
    }
  }

  lemma SameOwed(s: Distr, s': Distr)
    requires s'.outstanding == s.outstanding && s'.communityPool == s.communityPool
    ensures forall d :: Owed(s', d) == Owed(s, d)
  {
  }

  lemma BookRewardConserves(b: Books, del: Delegation, raw: Coins)
    ensures var r := BookReward(b, del, raw); r.Ok? ==> Conserves(b, r.value)
  {
    var r := BookReward(b, del, raw);
    if r.Ok? {
      var held := Get(b.distr.outstanding, del.validator);
      var rewards := Meet(raw, held);
      PayConserves(b.bank, WithdrawAddr(b.distr, del.delegator), Floor(rewards));
      forall d ensures Gap(r.value, d) == Gap(b, d) {
        TotalUpdate(b.distr.outstanding, del.validator, Sub(held, rewards), d);
        assert ToDec(Amount(Floor(rewards), d)) + Amount(Fraction(rewards), d) == Amount(rewards, d);
      }
    }
  }

  lemma RewardsConserve(st: Staking, b: Books, del: Delegation, rule: RewardRule, height: int)
    ensures var r := WithdrawDelegationRewards(st, b, del, rule, height); r.Ok? ==> Conserves(b, r.value)
  {
    var r := WithdrawDelegationRewards(st, b, del, rule, height);
    if r.Ok? {
      var tokens := st.validators.entries[del.validator].tokens;
      IncrementPeriodConserves(b.distr, del.validator, tokens);
      var b1 := Books(b.bank, IncrementPeriod(b.distr, del.validator, tokens).value);
      var raw := rule(b1.distr, del).value;
      BookRewardConserves(b1, del, raw);
      SameOwed(BookReward(b1, del, raw).value.distr, r.value.distr);
      SameGap(b, b1);
      SameGap(BookReward(b1, del, raw).value, r.value);
      ConservesChain(b, b1, BookReward(b1, del, raw).value);
      ConservesChain(b, BookReward(b1, del, raw).value, r.value);
    }
  }

  lemma SameGap(b: Books, b': Books)
    requires b'.bank == b.bank
    requires forall d :: Owed(b'.distr, d) == Owed(b.distr, d)
    ensures Conserves(b, b')
  {
    forall d ensures Gap(b', d) == Gap(b, d) {
      assert Owed(b'.distr, d) == Owed(b.distr, d);
    }
  }

  lemma ConservesChain(b: Books, b1: Books, b2: Books)
    requires Conserves(b, b1) && Conserves(b1, b2)
    ensures Conserves(b, b2)
  {
    forall d ensures Gap(b2, d) == Gap(b, d) && Supply(b2.bank, d) == Supply(b.bank, d) {
      assert Gap(b1, d) == Gap(b, d) && Supply(b1.bank, d) == Supply(b.bank, d);
    }
    forall a ensures Covers(Get(b2.bank.accounts, a), Get(b.bank.accounts, a)) {
      assert Covers(Get(b1.bank.accounts, a), Get(b.bank.accounts, a));
      assert Covers(Get(b2.bank.accounts, a), Get(b1.bank.accounts, a));
    }
  }

  lemma SolventStays(b: Books, b': Books)
    requires Conserves(b, b')
    ensures Solvent(b) ==> Solvent(b')
    ensures Backed(b) ==> Backed(b')
  {
    forall d ensures Gap(b', d) == Gap(b, d) {}
  }

  lemma {:induction false} PayCommissionsConserves(vals: seq<Addr>, b: Books)
    requires Solvent(b)
    ensures var r := PayCommissions(vals, b); r.Ok? ==> Conserves(b, r.value)
  {
    if vals == [] {
    } else {
      CommissionConserves(b, vals[0]);
      var r1 := WithdrawValidatorCommission(b, vals[0]);
      if r1.Ok? {
        assert Solvent(r1.value) by {
          forall d ensures 0 <= Gap(r1.value, d) { assert Gap(r1.value, d) == Gap(b, d); }
        }
        PayCommissionsConserves(vals[1..], r1.value);
        if PayCommissions(vals, b).Ok? {
          ConservesChain(b, r1.value, PayCommissions(vals, b).value);
        }
      }
    }
  }

  lemma {:induction false} PayRewardsConserves(st: Staking, ws: seq<Withdrawal>, b: Books, rule: RewardRule)
    ensures var r := PayRewards(st, ws, b, rule); r.Ok? ==> Conserves(b, r.value)
  {
    if ws == [] {
    } else {
      RewardsConserve(st, b, ws[0].del, rule, ws[0].height);
      var r1 := WithdrawDelegationRewards(st, b, ws[0].del, rule, ws[0].height);
      if r1.Ok? {
        PayRewardsConserves(st, ws[1..], r1.value, rule);
        if PayRewards(st, ws, b, rule).Ok? {
          ConservesChain(b, r1.value, PayRewards(st, ws, b, rule).value);
        }
      }
    }
  }

  lemma {:induction false} ReinitValidatorsConserves(vals: seq<Addr>, s: Distr)
    ensures forall d :: Owed(ReinitValidators(vals, s), d) == Owed(s, d)
  {
    if vals == [] {
    } else {
      var s1 := ReinitValidator(s, vals[0]);
      ReinitValidatorsConserves(vals[1..], s1);
      forall d ensures Owed(ReinitValidators(vals, s), d) == Owed(s, d) {
        TotalUpdate(s.outstanding, vals[0], map[], d);
        assert Owed(s1, d) == Owed(s, d);
      }
    }
  }

  lemma {:induction false} ReinitDelegationsConserves(st: Staking, dels: seq<Delegation>, s: Distr)
    ensures var r := ReinitDelegations(st, dels, s); r.Ok? ==> forall d :: Owed(r.value, d) == Owed(s, d)
  {
    if dels == [] {
    } else {
      var r1 := ReinitDelegation(st, s, dels[0]);
      if r1.Ok? {
        IncrementPeriodConserves(s, dels[0].validator, st.validators.entries[dels[0].validator].tokens);
        var s0 := BeforeDelegationCreated(st, s, dels[0]).value;
        assert r1.value.outstanding == s0.outstanding && r1.value.communityPool == s0.communityPool;
        ReinitDelegationsConserves(st, dels[1..], r1.value);
        forall d | ReinitDelegations(st, dels, s).Ok?
          ensures Owed(ReinitDelegations(st, dels, s).value, d) == Owed(s, d)
        {
          assert Owed(s0, d) == Owed(s, d);
          assert Owed(r1.value, d) == Owed(s0, d);
        }
      }
    }
  }

  /** The rebuild moves what is outstanding to the pool and loses none of it. */
  lemma RebuildConserves(st: Staking, s: Distr)
    ensures Rebuild(st, s).Ok? ==> forall d :: Owed(Rebuild(st, s).value, d) == Owed(s, d)
  {
    hide ReinitValidators, ReinitDelegations;
    SameOwed(s, ClearRecords(s));
    ReinitValidatorsConserves(st.validators.keys, ClearRecords(s));
    ReinitDelegationsConserves(st, st.delegations, ReinitValidators(st.validators.keys, ClearRecords(s)));
  }

  /** The whole distribution phase neither creates nor loses anything, whatever rewards are computed. */
  lemma SettleConserves(st: Staking, b: Books, rule: RewardRule)
    requires Solvent(b)
    ensures var r := SettleDistribution(st, b, rule); r.Ok? ==> Conserves(b, r.value)
  {
    hide Rebuild, PayCommissions, PayRewards, Solvent;
    var r := SettleDistribution(st, b, rule);
    if r.Ok? {
      var b1 := PayCommissions(st.validators.keys, b).value;
      PayCommissionsConserves(st.validators.keys, b);
      PayRewardsConserves(st, AtHeight(st.delegations, 0), b1, rule);
      var b2 := PayOut(st, b, rule).value;
      ConservesChain(b, b1, b2);
      RebuildConserves(st, b2.distr);
      SameGap(b2, r.value);
      ConservesChain(b, b2, r.value);
    }
  }
}
