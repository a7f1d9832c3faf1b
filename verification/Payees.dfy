/** Who is paid: no account changes except the withdraw addresses of validators and delegators. */
module Payees {
  import opened CoinMath
  import opened Stores
  import opened Distribution
  import opened ZeroHeight

  /** The accounts outside payees are untouched, and so are the withdraw addresses. */
  ghost predicate PaysOnly(payees: set<Addr>, b: Books, b': Books) {
    b'.bank.accounts - payees == b.bank.accounts - payees && b'.distr.withdrawTo == b.distr.withdrawTo
  }

  ghost function Recipients(st: Staking, s: Distr): set<Addr> {
    (set v | v in st.validators.keys :: WithdrawAddr(s, v))
    + (set del | del in st.delegations :: WithdrawAddr(s, del.delegator))
  }

  lemma PayReaches(b: Bank, to: Addr, coins: Coins, payees: set<Addr>)
    requires to in payees
    ensures var r := Pay(b, to, coins); r.Some? ==> r.value.accounts - payees == b.accounts - payees
  {
  }

  lemma {:induction false} CommissionsReach(vals: seq<Addr>, b: Books, payees: set<Addr>)
    requires forall v | v in vals :: WithdrawAddr(b.distr, v) in payees
    ensures var r := PayCommissions(vals, b); r.Ok? ==> PaysOnly(payees, b, r.value)
  {
    if vals == [] {
    } else {
      var r := WithdrawValidatorCommission(b, vals[0]);
      assert vals[0] in vals;
      PayReaches(b.bank, WithdrawAddr(b.distr, vals[0]), Floor(Get(b.distr.commission, vals[0])), payees);
      if r.Ok? {
        hide Pay;
        assert r.value.distr.withdrawTo == b.distr.withdrawTo;
        assert forall v | v in vals[1..] :: v in vals && WithdrawAddr(r.value.distr, v) == WithdrawAddr(b.distr, v);
        CommissionsReach(vals[1..], r.value, payees);
      }
    }
  }

  lemma RewardReaches(st: Staking, b: Books, del: Delegation, rule: RewardRule, height: int, payees: set<Addr>)
    requires WithdrawAddr(b.distr, del.delegator) in payees
    ensures var r := WithdrawDelegationRewards(st, b, del, rule, height); r.Ok? ==> PaysOnly(payees, b, r.value)
  {
    hide IncrementPeriod, RestartDelegation, Pay;
    var r := WithdrawDelegationRewards(st, b, del, rule, height);
    if r.Ok? {
      var s1 := IncrementPeriod(b.distr, del.validator, st.validators.entries[del.validator].tokens).value;
      var rewards := Meet(rule(s1, del).value, Get(s1.outstanding, del.validator));
      PayReaches(b.bank, WithdrawAddr(s1, del.delegator), Floor(rewards), payees);
    }
  }

  lemma {:induction false} RewardsReach(st: Staking, ws: seq<Withdrawal>, b: Books, rule: RewardRule,
                                        payees: set<Addr>)
    requires forall w | w in ws :: WithdrawAddr(b.distr, w.del.delegator) in payees
    ensures var r := PayRewards(st, ws, b, rule); r.Ok? ==> PaysOnly(payees, b, r.value)
  {
    if ws == [] {
    } else {
      assert ws[0] in ws;
      RewardReaches(st, b, ws[0].del, rule, ws[0].height, payees);
      var r := WithdrawDelegationRewards(st, b, ws[0].del, rule, ws[0].height);
      if r.Ok? {
        RewardsReach(st, ws[1..], r.value, rule, payees);
      }
    }
  }

  /** The whole distribution phase leaves every account alone that nobody has chosen to withdraw to. */
  lemma SettlePaysOnlyRecipients(st: Staking, b: Books, rule: RewardRule)
    ensures var r := SettleDistribution(st, b, rule);
            r.Ok? ==> r.value.bank.accounts - Recipients(st, b.distr) == b.bank.accounts - Recipients(st, b.distr)
  {
    hide Rebuild;
    var payees := Recipients(st, b.distr);
    CommissionsReach(st.validators.keys, b, payees);
    var r := PayCommissions(st.validators.keys, b);
    if r.Ok? {
      RewardsReach(st, AtHeight(st.delegations, 0), r.value, rule, payees);
    }
  }
}
