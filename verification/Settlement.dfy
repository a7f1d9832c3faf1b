/**
  The distribution phases as a whole: when they complete, the closed form they leave, that this form is
  consistent again, and that a second run on it changes nothing.
 */
module Settlement {
  import opened CoinMath
  import opened Stores
  import opened Distribution
  import opened ZeroHeight
  import opened Conservation
  import opened References
  import opened Payout
  import opened Rebuilding

  /** Nothing that belongs to unknown validators or unknown delegations has changed. */
  ghost predicate SameOutside(st: Staking, s: Distr, s': Distr) {
    && s'.outstanding - Vals(st) == s.outstanding - Vals(st)
    && s'.commission - Vals(st) == s.commission - Vals(st)
    && s'.current - Vals(st) == s.current - Vals(st)
    && s'.starting - Keys(st.delegations) == s.starting - Keys(st.delegations)
    && s'.withdrawTo == s.withdrawTo
  }

  lemma {:induction false} CommissionsStayInside(st: Staking, vals: seq<Addr>, b: Books)
    requires forall v | v in vals :: v in Vals(st)
    ensures var r := PayCommissions(vals, b); r.Ok? ==> SameOutside(st, b.distr, r.value.distr)
  {
    if vals == [] {
    } else {
      var r := WithdrawValidatorCommission(b, vals[0]);
      if r.Ok? {
        assert vals[0] in Vals(st);
        CommissionsStayInside(st, vals[1..], r.value);
      }
    }
  }

  lemma PeriodStaysInside(st: Staking, s: Distr, v: Addr, tokens: nat)
    requires v in Vals(st)
    ensures var r := IncrementPeriod(s, v, tokens); r.Ok? ==> SameOutside(st, s, r.value)
  {
  }

  lemma RewardStaysInside(st: Staking, b: Books, del: Delegation, rule: RewardRule, height: int)
    requires del in st.delegations
    ensures var r := WithdrawDelegationRewards(st, b, del, rule, height);
            r.Ok? ==> SameOutside(st, b.distr, r.value.distr)
  {
    hide IncrementPeriod, BookReward, RestartDelegation;
    assert KeyOf(del) in Keys(st.delegations);
    var r := WithdrawDelegationRewards(st, b, del, rule, height);
    if r.Ok? {
      var val := st.validators.entries[del.validator];
      PeriodStaysInside(st, b.distr, del.validator, val.tokens);
      var b1 := Books(b.bank, IncrementPeriod(b.distr, del.validator, val.tokens).value);
      BookStaysInside(st, b1, del, rule(b1.distr, del).value);
      var s2 := BookReward(b1, del, rule(b1.distr, del).value).value.distr;
      RestartStaysInside(st, s2, val, del, height);
    }
  }

  lemma BookStaysInside(st: Staking, b: Books, del: Delegation, raw: Coins)
    requires del.validator in Vals(st)
    ensures var r := BookReward(b, del, raw); r.Ok? ==> SameOutside(st, b.distr, r.value.distr)
  {
  }

  lemma RestartStaysInside(st: Staking, s: Distr, val: Validator, del: Delegation, height: int)
    requires KeyOf(del) in Keys(st.delegations)
    ensures var r := RestartDelegation(s, val, del, height); r.Ok? ==> SameOutside(st, s, r.value)
  {
  }

  lemma {:induction false} RewardsStayInside(st: Staking, ws: seq<Withdrawal>, b: Books, rule: RewardRule)
    requires forall w | w in ws :: w.del in st.delegations
    ensures var r := PayRewards(st, ws, b, rule); r.Ok? ==> SameOutside(st, b.distr, r.value.distr)
  {
    if ws == [] {
    } else {
      RewardStaysInside(st, b, ws[0].del, rule, ws[0].height);
      var r := WithdrawDelegationRewards(st, b, ws[0].del, rule, ws[0].height);
      if r.Ok? {
        RewardsStayInside(st, ws[1..], r.value, rule);
      }
    }
  }

  lemma PayOutStaysInside(st: Staking, b: Books, rule: RewardRule)
    requires st.validators.Valid()
    ensures var r := PayOut(st, b, rule); r.Ok? ==> SameOutside(st, b.distr, r.value.distr)
  {
    CommissionsStayInside(st, st.validators.keys, b);
    var r := PayCommissions(st.validators.keys, b);
    if r.Ok? {
      RewardsStayInside(st, AtHeight(st.delegations, 0), r.value, rule);
    }
  }

  // ---------------------------------------------------------------------------------------------
  // The closed form
  // ---------------------------------------------------------------------------------------------

  /**
    The distribution store after a completed run: a function of the staking store and of the pool. From base it
    keeps the withdraw addresses and what belongs to unknown validators or pairs.
   */
  ghost function Settled(st: Staking, pool: Coins, base: Distr): Distr
    requires Rooted(st, st.delegations)
  {
    Rebuilt(st, st.delegations, base).(communityPool := pool)
  }

  lemma OverwriteOutside<K, V>(a: map<K, V>, b: map<K, V>, over: map<K, V>)
    requires a - over.Keys == b - over.Keys
    ensures a + over == b + over
  {
    assert a + over == (a - over.Keys) + over;
    assert b + over == (b - over.Keys) + over;
  }

  lemma {:induction false} StartsKeys(st: Staking, dels: seq<Delegation>)
    requires Rooted(st, dels)
    ensures Starts(st, dels).Keys == Keys(dels)
  {
    if dels == [] {
    } else {
      var front, last := dels[..|dels| - 1], dels[|dels| - 1];
      assert dels == front + [last];
      RootedSplit(st, front, [last]);
      StartsKeys(st, front);
      assert last in dels;
      assert Keys(dels) == Keys(front) + {KeyOf(last)};
    }
  }

  /** The closed form does not depend on what a run changes before the rebuild. */
  lemma RebuiltOutside(st: Staking, s: Distr, s': Distr)
    requires Rooted(st, st.delegations) && SameOutside(st, s, s') && s'.communityPool == s.communityPool
    ensures Rebuilt(st, st.delegations, s') == Rebuilt(st, st.delegations, s)
  {
    StartsKeys(st, st.delegations);
    assert Nothing(Vals(st)).Keys == Vals(st) == Periods(Vals(st), st.delegations).Keys;
    OverwriteOutside(s.outstanding, s'.outstanding, Nothing(Vals(st)));
    OverwriteOutside(s.commission, s'.commission, Nothing(Vals(st)));
    OverwriteOutside(s.current, s'.current, Periods(Vals(st), st.delegations));
    OverwriteOutside(s.starting, s'.starting, Starts(st, st.delegations));
  }

  /** Every completed run, from whatever state, leaves the closed form with some pool. */
  lemma CompletedForm(st: Staking, b: Books, rule: RewardRule)
    requires st.validators.Valid() && SettleDistribution(st, b, rule).Ok?
    ensures Rooted(st, st.delegations)
    ensures var s := SettleDistribution(st, b, rule).value.distr; s == Settled(st, s.communityPool, b.distr)
  {
    hide PayOut, Rebuild, Rebuilt, Rooted;
    PayOutStaysInside(st, b, rule);
    var s1 := PayOut(st, b, rule).value.distr;
    RebuildResult(st, s1);
    var pool := Rebuild(st, s1).value.communityPool;
    RebuiltPool(st, st.delegations, b.distr, pool);
    RebuiltPool(st, st.delegations, s1, pool);
    RebuiltOutside(st, b.distr.(communityPool := pool), s1.(communityPool := pool));
  }

  lemma NothingOutstanding(st: Staking, s: Distr, d: Denom)
    requires Rooted(st, st.delegations) && s.outstanding.Keys <= Vals(st)
    ensures Owed(Rebuilt(st, st.delegations, s), d) == Amount(s.communityPool, d)
  {
    assert s.outstanding + Nothing(Vals(st)) == Nothing(Vals(st));
    TotalOfNothing(Nothing(Vals(st)), d);
  }

  /** Both payout loops complete from a consistent state exactly when the library answers. */
  lemma PayOutResult(st: Staking, b: Books, rule: RewardRule)
    requires Consistent(st, b)
    ensures PayCommissions(st.validators.keys, b).Ok?
    ensures PayOut(st, b, rule).Ok? <==>
            Answered(st, AtHeight(st.delegations, 0), PayCommissions(st.validators.keys, b).value, rule)
  {
    CommissionsComplete(st, st.validators.keys, b);
    var b1 := PayCommissions(st.validators.keys, b).value;
    ConsistentIsPayable(st, b1);
    RewardsComplete(st, AtHeight(st.delegations, 0), b1, rule);
  }

  /**
    From a consistent state the run panics only if the library refuses to compute some reward. A completed run
    leaves the closed form, and its pool holds exactly what the module account has beyond the gap at entry.
   */
  lemma SettleResult(st: Staking, b: Books, rule: RewardRule)
    requires Consistent(st, b)
    ensures PayCommissions(st.validators.keys, b).Ok?
    ensures SettleDistribution(st, b, rule).Ok? <==>
            Answered(st, AtHeight(st.delegations, 0), PayCommissions(st.validators.keys, b).value, rule)
    ensures var r := SettleDistribution(st, b, rule);
            r.Ok? ==>
              && Conserves(b, r.value)
              && r.value.distr == Settled(st, r.value.distr.communityPool, b.distr)
              && forall d :: Amount(r.value.distr.communityPool, d) + Gap(b, d)
                             == ToDec(Amount(r.value.bank.distrModule, d))
  {
    PayOutResult(st, b, rule);
    if PayOut(st, b, rule).Ok? {
      RebuildResult(st, PayOut(st, b, rule).value.distr);
      hide PayOut, Rebuild, Tracked, CommissionFunded;
      CompletedForm(st, b, rule);
      SettleConserves(st, b, rule);
      var r := SettleDistribution(st, b, rule).value;
      forall d ensures Amount(r.distr.communityPool, d) + Gap(b, d) == ToDec(Amount(r.bank.distrModule, d)) {
        NothingOutstanding(st, b.distr.(communityPool := r.distr.communityPool), d);
        RebuiltPool(st, st.delegations, b.distr, r.distr.communityPool);
        assert Gap(r, d) == Gap(b, d);
      }
    }
  }

  /** Dust reassembles: with a backed module the pool ends as the whole coins of the module account. */
  lemma SettledForm(st: Staking, b: Books, rule: RewardRule)
    requires Consistent(st, b) && Backed(b)
    ensures var r := SettleDistribution(st, b, rule);
            r.Ok? ==> && r.value.distr == Settled(st, Scale(r.value.bank.distrModule), b.distr)
                      && Conserves(b, r.value) && Backed(r.value)
  {
    SettleResult(st, b, rule);
    if SettleDistribution(st, b, rule).Ok? {
      var r := SettleDistribution(st, b, rule).value;
      SolventStays(b, r);
      forall d ensures Amount(r.distr.communityPool, d) == Amount(Scale(r.bank.distrModule), d) {
        assert Gap(b, d) == 0;
      }
      SameAmounts(r.distr.communityPool, Scale(r.bank.distrModule));
    }
  }
}
