/** The distribution phases of prepForZeroHeightGenesis, as functions of the stores. */
module ZeroHeight {
  import opened Results
  import opened CoinMath
  import opened Stores
  import opened Distribution

  /** Withdraws the commission of the listed validators, in order. */
  function PayCommissions(vals: seq<Addr>, b: Books): Result<Books> {
    if vals == [] then Ok(b)
    else
      var b1 :- WithdrawValidatorCommission(b, vals[0]);
      PayCommissions(vals[1..], b1)
  }

  /** A reward withdrawal of one delegation at some context height. */
  datatype Withdrawal = Withdrawal(del: Delegation, height: int)

  function AtHeight(dels: seq<Delegation>, height: int): (ws: seq<Withdrawal>)
    ensures |ws| == |dels| && forall i | 0 <= i < |ws| :: ws[i] == Withdrawal(dels[i], height)
    ensures forall w | w in ws :: w.del in dels && w.height == height
  {
    seq(|dels|, i requires 0 <= i < |dels| => Withdrawal(dels[i], height))
  }

  /** Makes the listed withdrawals, in order. */
  function PayRewards(st: Staking, ws: seq<Withdrawal>, b: Books, rule: RewardRule): Result<Books> {
    if ws == [] then Ok(b)
    else
      var b1 :- WithdrawDelegationRewards(st, b, ws[0].del, rule, ws[0].height);
      PayRewards(st, ws[1..], b1, rule)
  }

  function ClearRecords(s: Distr): Distr {
    DeleteAllValidatorHistoricalRewards(DeleteAllValidatorSlashEvents(s))
  }

  /** Donates what a validator still has outstanding to the community pool and creates it anew. */
  function ReinitValidator(s: Distr, v: Addr): Distr {
    AfterValidatorCreated(s.(communityPool := Add(s.communityPool, Get(s.outstanding, v))), v)
  }

  function ReinitValidators(vals: seq<Addr>, s: Distr): Distr {
    if vals == [] then s else ReinitValidators(vals[1..], ReinitValidator(s, vals[0]))
  }

  function ReinitDelegation(st: Staking, s: Distr, del: Delegation): Result<Distr> {
    var s1 :- BeforeDelegationCreated(st, s, del);
    AfterDelegationModified(st, s1, del, 0)
  }

  function ReinitDelegations(st: Staking, dels: seq<Delegation>, s: Distr): Result<Distr> {
    if dels == [] then Ok(s)
    else
      var s1 :- ReinitDelegation(st, s, dels[0]);
      ReinitDelegations(st, dels[1..], s1)
  }

  /** Both payout loops; the context height is 0. */
  function PayOut(st: Staking, b: Books, rule: RewardRule): Result<Books> {
    var b1 :- PayCommissions(st.validators.keys, b);
    PayRewards(st, AtHeight(st.delegations, 0), b1, rule)
  }

  /** Everything after the payout loops up to the staking phases. */
  function Rebuild(st: Staking, s: Distr): Result<Distr> {
    ReinitDelegations(st, st.delegations, ReinitValidators(st.validators.keys, ClearRecords(s)))
  }

  function SettleDistribution(st: Staking, b: Books, rule: RewardRule): Result<Books> {
    var b1 :- PayOut(st, b, rule);
    var s1 :- Rebuild(st, b1.distr);
    Ok(Books(b1.bank, s1))
  }
}
