/**
  What the payout loops pay: every listed commission and every listed reward, in every denomination, to the withdraw
  address of its owner, and nothing else.
 */
module Payments {
  import opened CoinMath
  import opened Stores
  import opened Distribution
  import opened ZeroHeight
  import opened Conservation

  // ---------------------------------------------------------------------------------------------
  // Commissions
  // ---------------------------------------------------------------------------------------------

  /** The whole coins of the commissions of these validators that are withdrawn to account a. */
  ghost function CommissionTo(vals: seq<Addr>, s: Distr, a: Addr, d: Denom): nat {
    if vals == [] then 0
    else
      CommissionTo(vals[1..], s, a, d)
      + if WithdrawAddr(s, vals[0]) == a then Whole(Amount(Get(s.commission, vals[0]), d)) else 0
  }

  /** The dust of the commission of v stays; its whole coins have left the outstanding rewards of v. */
  ghost predicate CommissionTaken(s: Distr, s': Distr, v: Addr, d: Denom) {
    var accumulated := Amount(Get(s.commission, v), d);
    && Amount(Get(s'.commission, v), d) == Dust(accumulated)
    && Amount(Get(s'.outstanding, v), d) + ToDec(Whole(accumulated)) == Amount(Get(s.outstanding, v), d)
  }

  ghost predicate CommissionKept(s: Distr, s': Distr, v: Addr) {
    Get(s'.commission, v) == Get(s.commission, v) && Get(s'.outstanding, v) == Get(s.outstanding, v)
  }

  /** A solvent module can pay the whole coins of any commission that is still outstanding. */
  lemma CommissionPayable(b: Books, v: Addr)
    requires Solvent(b) && WithdrawValidatorCommission(b, v).Ok?
    ensures Covers(b.bank.distrModule, Floor(Get(b.distr.commission, v)))
  {
    var coins, held := Floor(Get(b.distr.commission, v)), Get(b.distr.outstanding, v);
    if Get(b.distr.commission, v) != map[] {
      forall d | d in coins ensures Amount(coins, d) <= Amount(b.bank.distrModule, d) {
        assert 0 <= Gap(b, d);
        TotalUpdate(b.distr.outstanding, v, held, d);
        assert Amount(Scale(coins), d) <= Amount(held, d);
      }
    }
  }

  lemma CommissionFrame(b: Books, v: Addr, a: Addr)
    requires WithdrawValidatorCommission(b, v).Ok?
    ensures var r := WithdrawValidatorCommission(b, v).value;
            && r.distr.withdrawTo == b.distr.withdrawTo
            && (forall w | w != v :: CommissionKept(b.distr, r.distr, w))
            && (a != WithdrawAddr(b.distr, v) ==> Get(r.bank.accounts, a) == Get(b.bank.accounts, a))
  {
    hide Pay, Floor, Scale, Fraction, Sub, Covers;
    if a != WithdrawAddr(b.distr, v) {
      PayFrame(b.bank, WithdrawAddr(b.distr, v), Floor(Get(b.distr.commission, v)), a);
    }
  }

  lemma PayFrame(b: Bank, to: Addr, coins: Coins, a: Addr)
    requires a != to
    ensures var r := Pay(b, to, coins); r.Some? ==> Get(r.value.accounts, a) == Get(b.accounts, a)
  {
  }

  lemma {:induction false} CommissionToFrame(vals: seq<Addr>, s: Distr, s': Distr, a: Addr, d: Denom)
    requires s'.withdrawTo == s.withdrawTo && forall v | v in vals :: CommissionKept(s, s', v)
    ensures CommissionTo(vals, s', a, d) == CommissionTo(vals, s, a, d)
  {
    if vals == [] {
    } else {
      assert vals[0] in vals;
      CommissionToFrame(vals[1..], s, s', a, d);
    }
  }

  /**
    The commission loop pays: in every denomination each account gains the whole coins of the listed commissions
    that are withdrawn to it, each listed validator keeps its dust, and unlisted validators keep everything.
   */
  lemma {:induction false} CommissionsPaid(vals: seq<Addr>, b: Books, a: Addr, w: Addr, d: Denom)
    requires Solvent(b) && PayCommissions(vals, b).Ok?
    requires forall i, j | 0 <= i < j < |vals| :: vals[i] != vals[j]
    ensures var r := PayCommissions(vals, b).value;
            && Amount(Get(r.bank.accounts, a), d)
               == Amount(Get(b.bank.accounts, a), d) + CommissionTo(vals, b.distr, a, d)
            && (w in vals ==> CommissionTaken(b.distr, r.distr, w, d))
            && (w !in vals ==> CommissionKept(b.distr, r.distr, w))
  {
    if vals == [] {
    } else {
      var v, rest := vals[0], vals[1..];
      assert WithdrawValidatorCommission(b, v).Ok?;
      var b1 := WithdrawValidatorCommission(b, v).value;
      CommissionPayable(b, v);
      CommissionBooked(b, v, d);
      CommissionFrame(b, v, a);
      CommissionConserves(b, v);
      SolventStays(b, b1);
      assert v !in rest && forall u | u in rest :: u in vals;
      assert PayCommissions(vals, b) == PayCommissions(rest, b1);
      hide WithdrawValidatorCommission, Conserves, Solvent, Whole, Dust, ToDec, WithdrawAddr;
      CommissionToFrame(rest, b.distr, b1.distr, a, d);
      CommissionsPaid(rest, b1, a, w, d);
    }
  }

  // ---------------------------------------------------------------------------------------------
  // Rewards
  // ---------------------------------------------------------------------------------------------

  /** The reward of a withdrawal in one denomination: the lesser of what is computed and what is outstanding then. */
  ghost function RewardOf(st: Staking, b: Books, del: Delegation, rule: RewardRule, d: Denom): nat {
    if del.validator !in st.validators.entries then 0
    else match IncrementPeriod(b.distr, del.validator, st.validators.entries[del.validator].tokens)
      case Panic => 0
      case Ok(s) =>
        match rule(s, del)
        case None => 0
        case Some(raw) =>
          var held := Amount(Get(s.outstanding, del.validator), d);
          if Amount(raw, d) < held then Amount(raw, d) else held
  }

  /** The whole coins of the rewards of these withdrawals, made one after the other, that go to account a. */
  ghost function RewardsTo(st: Staking, ws: seq<Withdrawal>, b: Books, rule: RewardRule, a: Addr, d: Denom): nat {
    if ws == [] then 0
    else
      var del := ws[0].del;
      (if WithdrawAddr(b.distr, del.delegator) == a then Whole(RewardOf(st, b, del, rule, d)) else 0)
      + match WithdrawDelegationRewards(st, b, del, rule, ws[0].height)
        case Panic => 0
        case Ok(b1) => RewardsTo(st, ws[1..], b1, rule, a, d)
  }

  lemma BookFrame(b: Books, del: Delegation, raw: Coins, a: Addr)
    requires BookReward(b, del, raw).Ok? && a != WithdrawAddr(b.distr, del.delegator)
    ensures Get(BookReward(b, del, raw).value.bank.accounts, a) == Get(b.bank.accounts, a)
  {
  }

  /** One withdrawal pays its reward to the delegator's withdraw address and to nobody else. */
  lemma WithdrawalPays(st: Staking, b: Books, del: Delegation, rule: RewardRule, height: int, a: Addr, d: Denom)
    requires WithdrawDelegationRewards(st, b, del, rule, height).Ok?
    ensures var r := WithdrawDelegationRewards(st, b, del, rule, height).value;
            Amount(Get(r.bank.accounts, a), d) == Amount(Get(b.bank.accounts, a), d)
              + if WithdrawAddr(b.distr, del.delegator) == a then Whole(RewardOf(st, b, del, rule, d)) else 0
  {
    hide IncrementPeriod, BookReward, RestartDelegation, Whole;
    var s1 := IncrementPeriod(b.distr, del.validator, st.validators.entries[del.validator].tokens).value;
    var raw := rule(s1, del).value;
    assert s1.withdrawTo == b.distr.withdrawTo;
    if WithdrawAddr(b.distr, del.delegator) == a {
      RewardBooked(Books(b.bank, s1), del, raw, d);
    } else {
      BookFrame(Books(b.bank, s1), del, raw, a);
    }
  }

  /** One withdrawal ends one period of its validator and starts its delegation at the record of that period. */
  lemma WithdrawalRestarts(st: Staking, b: Books, del: Delegation, rule: RewardRule, height: int)
    requires WithdrawDelegationRewards(st, b, del, rule, height).Ok?
    ensures del.validator in st.validators.entries && 0 < st.validators.entries[del.validator].delegatorShares
    ensures var v := del.validator; var r := WithdrawDelegationRewards(st, b, del, rule, height).value;
            && r.distr.withdrawTo == b.distr.withdrawTo
            && CurrentOf(r.distr, v).period == CurrentOf(b.distr, v).period + 1
            && (forall u | u != v :: CurrentOf(r.distr, u) == CurrentOf(b.distr, u))
            && r.distr.starting == b.distr.starting[KeyOf(del) :=
                 StartingInfo(CurrentOf(b.distr, v).period, StakeOf(st.validators.entries[v], del.shares), height)]
  {
    hide IncrementPeriod, BookReward, IncrementRefs, DecrementRefs, StakeOf;
    var v, val := del.validator, st.validators.entries[del.validator];
    var s1 := IncrementPeriod(b.distr, v, val.tokens).value;
    var s2 := BookReward(Books(b.bank, s1), del, rule(s1, del).value).value.distr;
    var info := StartingInfo(CurrentOf(b.distr, v).period, StakeOf(val, del.shares), height);
    assert CurrentOf(s2, v).period == CurrentOf(b.distr, v).period + 1;
    assert s2.starting == b.distr.starting;
    assert (s2.starting - {KeyOf(del)})[KeyOf(del) := info] == s2.starting[KeyOf(del) := info];
  }

  ghost function WithdrawalsTo(ws: seq<Withdrawal>, v: Addr): nat {
    if ws == [] then 0 else WithdrawalsTo(ws[1..], v) + if ws[0].del.validator == v then 1 else 0
  }

  /** The reward loop pays: in every denomination each account gains the rewards that are withdrawn to it. */
  lemma {:induction false} RewardsPaid(st: Staking, ws: seq<Withdrawal>, b: Books, rule: RewardRule, a: Addr, d: Denom)
    requires PayRewards(st, ws, b, rule).Ok?
    ensures Amount(Get(PayRewards(st, ws, b, rule).value.bank.accounts, a), d) ==
            Amount(Get(b.bank.accounts, a), d) + RewardsTo(st, ws, b, rule, a, d)
  {
    if ws == [] {
    } else {
      hide WithdrawDelegationRewards, RewardOf, Whole;
      WithdrawalPays(st, b, ws[0].del, rule, ws[0].height, a, d);
      var b1 := WithdrawDelegationRewards(st, b, ws[0].del, rule, ws[0].height).value;
      assert PayRewards(st, ws, b, rule) == PayRewards(st, ws[1..], b1, rule);
      RewardsPaid(st, ws[1..], b1, rule, a, d);
    }
  }

  /** Each validator's period rises by the number of withdrawals to it, and other delegations are left alone. */
  lemma {:induction false} PeriodsAdvance(st: Staking, ws: seq<Withdrawal>, b: Books, rule: RewardRule,
                                          v: Addr, k: PairKey)
    requires PayRewards(st, ws, b, rule).Ok?
    ensures var r := PayRewards(st, ws, b, rule).value;
            && CurrentOf(r.distr, v).period == CurrentOf(b.distr, v).period + WithdrawalsTo(ws, v)
            && ((forall w | w in ws :: KeyOf(w.del) != k) ==>
                  && (k in r.distr.starting <==> k in b.distr.starting)
                  && (k in r.distr.starting ==> r.distr.starting[k] == b.distr.starting[k]))
  {
    if ws == [] {
    } else {
      hide WithdrawDelegationRewards, CurrentOf, StakeOf;
      assert ws[0] in ws && forall w | w in ws[1..] :: w in ws;
      WithdrawalRestarts(st, b, ws[0].del, rule, ws[0].height);
      var b1 := WithdrawDelegationRewards(st, b, ws[0].del, rule, ws[0].height).value;
      assert PayRewards(st, ws, b, rule) == PayRewards(st, ws[1..], b1, rule);
      PeriodsAdvance(st, ws[1..], b1, rule, v, k);
    }
  }

  /**
    A delegation ends as its last withdrawal left it: at the height of that withdrawal, with the token value of its
    shares as stake, at the record of the period that this withdrawal ended.
   */
  lemma {:induction false} LastWithdrawalStarts(st: Staking, ws: seq<Withdrawal>, b: Books, rule: RewardRule, i: nat)
    requires PayRewards(st, ws, b, rule).Ok? && i < |ws|
    requires forall j | i < j < |ws| :: KeyOf(ws[j].del) != KeyOf(ws[i].del)
    ensures var del := ws[i].del; var r := PayRewards(st, ws, b, rule).value;
            && del.validator in st.validators.entries
            && 0 < st.validators.entries[del.validator].delegatorShares
            && 1 <= CurrentOf(b.distr, del.validator).period + WithdrawalsTo(ws[..i + 1], del.validator)
            && KeyOf(del) in r.distr.starting
            && r.distr.starting[KeyOf(del)] ==
               StartingInfo(CurrentOf(b.distr, del.validator).period + WithdrawalsTo(ws[..i + 1], del.validator) - 1,
                            StakeOf(st.validators.entries[del.validator], del.shares), ws[i].height)
    decreases |ws|
  {
    hide WithdrawDelegationRewards, CurrentOf, StakeOf;
    var del := ws[i].del;
    WithdrawalRestarts(st, b, ws[0].del, rule, ws[0].height);
    var b1, rest := WithdrawDelegationRewards(st, b, ws[0].del, rule, ws[0].height).value, ws[1..];
    assert PayRewards(st, ws, b, rule) == PayRewards(st, rest, b1, rule);
    if i == 0 {
      assert ws[..1] == [ws[0]] && WithdrawalsTo(ws[..1], del.validator) == WithdrawalsTo([], del.validator) + 1;
      PeriodsAdvance(st, rest, b1, rule, del.validator, KeyOf(del));
    } else {
      assert ws[..i + 1][1..] == rest[..i];
      LastWithdrawalStarts(st, rest, b1, rule, i - 1);
    }
  }

  // ---------------------------------------------------------------------------------------------
  // Both loops
  // ---------------------------------------------------------------------------------------------

  /**
    A completed distribution phase pays, in every denomination and to every account, the whole coins of the
    commission of every validator and of the reward of every delegation that are withdrawn to it, and no more.
   */
  lemma SettlePays(st: Staking, b: Books, rule: RewardRule, a: Addr, d: Denom)
    requires st.validators.Valid() && Solvent(b) && SettleDistribution(st, b, rule).Ok?
    ensures PayCommissions(st.validators.keys, b).Ok?
    ensures Amount(Get(SettleDistribution(st, b, rule).value.bank.accounts, a), d) ==
            Amount(Get(b.bank.accounts, a), d)
            + CommissionTo(st.validators.keys, b.distr, a, d)
            + RewardsTo(st, AtHeight(st.delegations, 0), PayCommissions(st.validators.keys, b).value, rule, a, d)
  {
    hide PayCommissions, PayRewards, Rebuild, CommissionTo, RewardsTo, Solvent;
    CommissionsPaid(st.validators.keys, b, a, a, d);
    RewardsPaid(st, AtHeight(st.delegations, 0), PayCommissions(st.validators.keys, b).value, rule, a, d);
  }
}
