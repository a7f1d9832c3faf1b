/** The payout loops complete: what a consistent chain state is, and that the loops never panic on one. */
module Payout {
  import opened CoinMath
  import opened Stores
  import opened Distribution
  import opened ZeroHeight
  import opened Conservation
  import opened References

  ghost function Vals(st: Staking): set<Addr> {
    st.validators.entries.Keys
  }

  /** Rewards that have no tokens to be shared among, and so go to the pool when the period ends. */
  ghost function Stuck(st: Staking, s: Distr, v: Addr): Coins
    requires v in Vals(st)
  {
    if st.validators.entries[v].tokens == 0 then CurrentOf(s, v).rewards else map[]
  }

  /** The accumulated commission, and rewards that are stuck, are still outstanding. */
  ghost predicate CommissionFunded(st: Staking, s: Distr, v: Addr)
    requires v in Vals(st)
  {
    Covers(Get(s.outstanding, v), Add(Get(s.commission, v), Stuck(st, s, v)))
  }

  /** What the staking and distribution modules guarantee between blocks. */
  ghost predicate Consistent(st: Staking, b: Books) {
    && st.validators.Valid() && DelegationsValid(st)
    && Tracked(Vals(st), Keys(st.delegations), b.distr)
    && (forall v | v in Vals(st) :: CommissionFunded(st, b.distr, v))
    && b.distr.outstanding.Keys <= Vals(st)
    && Solvent(b)
  }

  /** What the reward loop relies on, and keeps. */
  ghost predicate Payable(st: Staking, b: Books) {
    && Tracked(Vals(st), Keys(st.delegations), b.distr)
    && (forall v | v in Vals(st) :: CanClose(b.distr, v, st.validators.entries[v].tokens))
    && b.distr.outstanding.Keys <= Vals(st)
    && Solvent(b)
  }

  lemma TrackedFrame(vals: set<Addr>, keys: set<PairKey>, s: Distr, s': Distr)
    requires Tracked(vals, keys, s)
    requires s'.current == s.current && s'.historical == s.historical
    requires s'.starting == s.starting && s'.slashEvents == s.slashEvents
    ensures Tracked(vals, keys, s')
  {
    forall v, p: nat | v in vals ensures Refs(s', v, p) == Expected(keys, s', v, p) {
      assert Refs(s, v, p) == Expected(keys, s, v, p);
      assert Holders(keys, s', v, p) == Holders(keys, s, v, p);
      assert SlashHolders(s', v, p) == SlashHolders(s, v, p);
    }
    forall v, p: nat | v in vals && CurrentOf(s', v).period <= p ensures Refs(s', v, p) == 0 {
      assert Refs(s, v, p) == 0;
    }
  }

  lemma ConsistentIsPayable(st: Staking, b: Books)
    requires Consistent(st, b)
    ensures Payable(st, b)
  {
    forall v | v in Vals(st) ensures CanClose(b.distr, v, st.validators.entries[v].tokens) {
      var rewards := Stuck(st, b.distr, v);
      assert CommissionFunded(st, b.distr, v);
      forall d | d in rewards ensures Amount(rewards, d) <= Amount(Get(b.distr.outstanding, v), d) {
        assert Amount(rewards, d) <= Amount(Add(Get(b.distr.commission, v), rewards), d);
      }
    }
  }

  // ---------------------------------------------------------------------------------------------
  // Commissions
  // ---------------------------------------------------------------------------------------------

  lemma CommissionStep(st: Staking, b: Books, v: Addr)
    requires Consistent(st, b) && v in Vals(st)
    ensures WithdrawValidatorCommission(b, v).Ok? && Consistent(st, WithdrawValidatorCommission(b, v).value)
  {
    if Get(b.distr.commission, v) != map[] {
      CommissionKeepsFunding(st, b.distr, v);
      var b' := WithdrawValidatorCommission(b, v).value;
      TrackedFrame(Vals(st), Keys(st.delegations), b.distr, b'.distr);
      CommissionConserves(b, v);
      SolventStays(b, b');
    }
  }

  lemma CommissionKeepsFunding(st: Staking, s: Distr, v: Addr)
    requires v in Vals(st) && forall w | w in Vals(st) :: CommissionFunded(st, s, w)
    ensures var r := TakeCommission(s, v);
            && r.Ok? && r.value.outstanding.Keys == s.outstanding.Keys + {v}
            && forall w | w in Vals(st) :: CommissionFunded(st, r.value, w)
  {
    hide TakeCommission;
    CommissionSplits(st, s, v);
    var s' := TakeCommission(s, v).value;
    forall w | w in Vals(st) && w != v ensures CommissionFunded(st, s', w) {
      FundingFrame(st, s, s', w);
    }
  }

  lemma FundingFrame(st: Staking, s: Distr, s': Distr, v: Addr)
    requires v in Vals(st) && CurrentOf(s', v) == CurrentOf(s, v)
    requires Get(s'.outstanding, v) == Get(s.outstanding, v) && Get(s'.commission, v) == Get(s.commission, v)
    ensures CommissionFunded(st, s', v) == CommissionFunded(st, s, v)
  {
  }

  lemma CommissionSplits(st: Staking, s: Distr, v: Addr)
    requires v in Vals(st) && CommissionFunded(st, s, v)
    ensures var r := TakeCommission(s, v);
            && r.Ok? && CommissionFunded(st, r.value, v)
            && r.value.outstanding.Keys == s.outstanding.Keys + {v}
            && forall w | w != v :: Get(r.value.outstanding, w) == Get(s.outstanding, w)
                                    && Get(r.value.commission, w) == Get(s.commission, w)
  {
    hide Covers, Add, Sub, Floor, Fraction, Scale;
    var stuck := Stuck(st, s, v);
    CommissionCovered(Get(s.outstanding, v), Get(s.commission, v), stuck);
    CommissionLeavesCover(Get(s.outstanding, v), Get(s.commission, v), stuck);
    assert Stuck(st, TakeCommission(s, v).value, v) == stuck;
  }

  lemma CommissionCovered(held: Coins, accumulated: Coins, stuck: Coins)
    requires Covers(held, Add(accumulated, stuck))
    ensures Covers(held, Scale(Floor(accumulated)))
  {
    forall d ensures Amount(Scale(Floor(accumulated)), d) <= Amount(held, d) {
      assert ToDec(Amount(Floor(accumulated), d)) + Amount(Fraction(accumulated), d) == Amount(accumulated, d);
      assert Amount(Add(accumulated, stuck), d) <= Amount(held, d);
    }
  }

  lemma CommissionLeavesCover(held: Coins, accumulated: Coins, stuck: Coins)
    requires Covers(held, Add(accumulated, stuck)) && Covers(held, Scale(Floor(accumulated)))
    ensures Covers(Sub(held, Scale(Floor(accumulated))), Add(Fraction(accumulated), stuck))
  {
    var rest := Sub(held, Scale(Floor(accumulated)));
    forall d ensures Amount(Add(Fraction(accumulated), stuck), d) <= Amount(rest, d) {
      assert ToDec(Amount(Floor(accumulated), d)) + Amount(Fraction(accumulated), d) == Amount(accumulated, d);
      assert Amount(Add(accumulated, stuck), d) <= Amount(held, d);
      assert Amount(rest, d) + ToDec(Amount(Floor(accumulated), d)) == Amount(held, d);
    }
  }

  /** The commission loop completes and leaves a consistent state, after any number of its iterations. */
  lemma {:induction false} CommissionsComplete(st: Staking, vals: seq<Addr>, b: Books)
    requires Consistent(st, b) && forall v | v in vals :: v in Vals(st)
    ensures PayCommissions(vals, b).Ok? && Consistent(st, PayCommissions(vals, b).value)
  {
    if vals == [] {
    } else {
      CommissionStep(st, b, vals[0]);
      CommissionsComplete(st, vals[1..], WithdrawValidatorCommission(b, vals[0]).value);
    }
  }

  // ---------------------------------------------------------------------------------------------
  // Rewards
  // ---------------------------------------------------------------------------------------------

  /** The library computes a reward, if this withdrawal gets as far as asking for one. */
  ghost predicate Answers(st: Staking, b: Books, del: Delegation, rule: RewardRule) {
    del.validator in st.validators.entries ==>
      var s1 := IncrementPeriod(b.distr, del.validator, st.validators.entries[del.validator].tokens);
      s1.Ok? ==> rule(s1.value, del).Some?
  }

  lemma BookStep(st: Staking, b: Books, del: Delegation, raw: Coins)
    requires Solvent(b)
    ensures BookReward(b, del, raw).Ok?
  {
    var held := Get(b.distr.outstanding, del.validator);
    var rewards := Meet(raw, held);
    assert Covers(b.bank.distrModule, Floor(rewards)) by {
      forall d ensures Amount(Floor(rewards), d) <= Amount(b.bank.distrModule, d) {
        assert 0 <= Gap(b, d);
        TotalUpdate(b.distr.outstanding, del.validator, held, d);
        assert Amount(rewards, d) <= Amount(held, d);
      }
    }
    PayConserves(b.bank, WithdrawAddr(b.distr, del.delegator), Floor(rewards));
  }

  /** Up to the reward query: the period has ended, and nothing else that matters has changed. */
  lemma QueryStep(st: Staking, b: Books, del: Delegation)
    requires Payable(st, b) && DelegationsValid(st) && del in st.delegations
    ensures var v := del.validator; var r := IncrementPeriod(b.distr, v, st.validators.entries[v].tokens);
            && r.Ok? && Payable(st, Books(b.bank, r.value))
            && 2 <= CurrentOf(r.value, v).period && CurrentOf(r.value, v).rewards == map[]
            && Refs(r.value, v, CurrentOf(r.value, v).period - 1) == 1
            && KeyOf(del) in r.value.starting
            && r.value.starting[KeyOf(del)].previousPeriod < CurrentOf(r.value, v).period - 1
  {
    hide IncrementPeriod;
    var v, keys := del.validator, Keys(st.delegations);
    var tokens := st.validators.entries[v].tokens;
    assert KeyOf(del) in keys;
    HeldRecord(Vals(st), keys, b.distr, KeyOf(del));
    PeriodKeepsCounts(Vals(st), keys, b.distr, v, tokens);
    var s1 := IncrementPeriod(b.distr, v, tokens).value;
    IncrementPeriodConserves(b.distr, v, tokens);
    SameGap(b, Books(b.bank, s1));
    forall d ensures 0 <= Gap(Books(b.bank, s1), d) { assert Gap(Books(b.bank, s1), d) == Gap(b, d); }
    forall w | w in Vals(st) ensures CanClose(s1, w, st.validators.entries[w].tokens) {
      assert CanClose(b.distr, w, st.validators.entries[w].tokens);
      if w != v {
        assert Get(s1.outstanding, w) == Get(b.distr.outstanding, w);
      }
    }
  }

  /** From the reward query on: the reward is booked and the delegation starts again. */
  lemma BookAndRestart(st: Staking, b: Books, del: Delegation, raw: Coins, height: int)
    requires Payable(st, b) && DelegationsValid(st) && del in st.delegations
    requires 2 <= CurrentOf(b.distr, del.validator).period && CurrentOf(b.distr, del.validator).rewards == map[]
    requires Refs(b.distr, del.validator, CurrentOf(b.distr, del.validator).period - 1) == 1
    requires KeyOf(del) in b.distr.starting
    requires b.distr.starting[KeyOf(del)].previousPeriod < CurrentOf(b.distr, del.validator).period - 1
    ensures BookReward(b, del, raw).Ok?
    ensures var b2 := BookReward(b, del, raw).value;
            var r := RestartDelegation(b2.distr, st.validators.entries[del.validator], del, height);
            r.Ok? && Payable(st, Books(b2.bank, r.value))
  {
    hide BookReward, RestartDelegation;
    BookStep(st, b, del, raw);
    var b2 := BookReward(b, del, raw).value;
    TrackedFrame(Vals(st), Keys(st.delegations), b.distr, b2.distr);
    BookKeepsPayable(st, b, del, raw);
    RestartStep(st, b2.distr, del, height);
    var b' := Books(b2.bank, RestartDelegation(b2.distr, st.validators.entries[del.validator], del, height).value);
    SameOwed(b2.distr, b'.distr);
    SameGap(b2, b');
    forall d ensures 0 <= Gap(b', d) { assert Gap(b', d) == Gap(b2, d); }
    forall w | w in Vals(st) ensures CanClose(b'.distr, w, st.validators.entries[w].tokens) {
      assert CanClose(b2.distr, w, st.validators.entries[w].tokens);
    }
  }

  lemma BookKeepsPayable(st: Staking, b: Books, del: Delegation, raw: Coins)
    requires Payable(st, b) && del.validator in Vals(st)
    requires CurrentOf(b.distr, del.validator).rewards == map[] && BookReward(b, del, raw).Ok?
    ensures Payable(st, BookReward(b, del, raw).value)
  {
    var b2 := BookReward(b, del, raw).value;
    TrackedFrame(Vals(st), Keys(st.delegations), b.distr, b2.distr);
    BookRewardConserves(b, del, raw);
    forall d ensures 0 <= Gap(b2, d) { assert Gap(b2, d) == Gap(b, d); }
    forall w | w in Vals(st) ensures CanClose(b2.distr, w, st.validators.entries[w].tokens) {
      assert CanClose(b.distr, w, st.validators.entries[w].tokens);
    }
  }

  /** One withdrawal always gets as far as asking for the reward, and fails exactly when the library refuses. */
  lemma RewardStep(st: Staking, b: Books, del: Delegation, rule: RewardRule, height: int)
    requires Payable(st, b) && DelegationsValid(st) && del in st.delegations
    ensures IncrementPeriod(b.distr, del.validator, st.validators.entries[del.validator].tokens).Ok?
    ensures var r := WithdrawDelegationRewards(st, b, del, rule, height);
            (r.Ok? <==> Answers(st, b, del, rule)) && (r.Ok? ==> Payable(st, r.value))
  {
    hide IncrementPeriod, BookReward, RestartDelegation, CountsExact, Solvent, CanClose, Refs;
    assert KeyOf(del) in Keys(st.delegations);
    QueryStep(st, b, del);
    var s1 := IncrementPeriod(b.distr, del.validator, st.validators.entries[del.validator].tokens).value;
    if rule(s1, del).Some? {
      BookAndRestart(st, Books(b.bank, s1), del, rule(s1, del).value, height);
    }
  }

  /** Dropping the start of a delegation and starting it again at the fresh latest record. */
  lemma RestartStep(st: Staking, s: Distr, del: Delegation, height: int)
    requires Tracked(Vals(st), Keys(st.delegations), s) && DelegationsValid(st) && del in st.delegations
    requires 2 <= CurrentOf(s, del.validator).period
    requires Refs(s, del.validator, CurrentOf(s, del.validator).period - 1) == 1
    requires KeyOf(del) in s.starting
    requires s.starting[KeyOf(del)].previousPeriod < CurrentOf(s, del.validator).period - 1
    ensures var r := RestartDelegation(s, st.validators.entries[del.validator], del, height);
            r.Ok? && Tracked(Vals(st), Keys(st.delegations), r.value)
  {
    var keys, k, val := Keys(st.delegations), KeyOf(del), st.validators.entries[del.validator];
    assert k in keys;
    DropKeepsCounts(Vals(st), keys, s, k);
    var s1 := DropStart(s, k).value;
    StartKeepsCounts(Vals(st), keys - {k}, s1, val, del, height);
    StartStep(s1, val, del, height);
    assert keys - {k} + {k} == keys;
  }

  /**
    The library answers every query of a list of withdrawals. A withdrawal that stops before its query, or after
    the answer, does not count against the library.
   */
  ghost predicate Answered(st: Staking, ws: seq<Withdrawal>, b: Books, rule: RewardRule) {
    ws == [] ||
    (&& Answers(st, b, ws[0].del, rule)
     && var r := WithdrawDelegationRewards(st, b, ws[0].del, rule, ws[0].height);
        r.Ok? ==> Answered(st, ws[1..], r.value, rule))
  }

  /**
    Withdrawals fail only when the library refuses to compute a reward, for any list of them, with repetitions and
    at any heights: no zero count is decremented, no subtraction goes negative, no payment bounces.
   */
  lemma {:induction false} RewardsComplete(st: Staking, ws: seq<Withdrawal>, b: Books, rule: RewardRule)
    requires Payable(st, b) && DelegationsValid(st) && forall w | w in ws :: w.del in st.delegations
    ensures var r := PayRewards(st, ws, b, rule);
            (r.Ok? <==> Answered(st, ws, b, rule)) && (r.Ok? ==> Payable(st, r.value))
  {
    if ws == [] {
    } else {
      RewardStep(st, b, ws[0].del, rule, ws[0].height);
      var r := WithdrawDelegationRewards(st, b, ws[0].del, rule, ws[0].height);
      if r.Ok? {
        RewardsComplete(st, ws[1..], r.value, rule);
      }
    }
  }

  /** A library that always computes a reward. */
  ghost predicate AlwaysAnswers(rule: RewardRule) {
    forall s, del :: rule(s, del).Some?
  }

  lemma {:induction false} TotalRuleAnswers(st: Staking, ws: seq<Withdrawal>, b: Books, rule: RewardRule)
    requires AlwaysAnswers(rule)
    ensures Answered(st, ws, b, rule)
  {
    if ws == [] {
    } else {
      hide IncrementPeriod, WithdrawDelegationRewards;
      var r := WithdrawDelegationRewards(st, b, ws[0].del, rule, ws[0].height);
      if r.Ok? {
        TotalRuleAnswers(st, ws[1..], r.value, rule);
      }
    }
  }
}
