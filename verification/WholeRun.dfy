/** The whole of prepForZeroHeightGenesis as a function of all stores, and what holds when it returns. */
module WholeRun {
  import opened Results
  import opened CoinMath
  import opened Stores
  import opened Distribution
  import opened ZeroHeight
  import opened Conservation
  import opened References
  import opened Payout
  import opened Rebuilding
  import opened Settlement
  import opened AfterExport
  import opened Resets

  datatype World = World(bank: Bank, distr: Distr, staking: Staking, signingInfos: SigningInfos)

  function BooksOf(w: World): Books {
    Books(w.bank, w.distr)
  }

  /**
    Distribution first, on the staking store as it is; then the staking and slashing stores are reset. The update
    of the validator set between those two (app/export.go:235) is not part of this model.
   */
  function PrepForZeroHeight(w: World, list: seq<AllowEntry>, rule: RewardRule): Result<World> {
    if Unparsed in list then Panic
    else
      var b :- SettleDistribution(w.staking, BooksOf(w), rule);
      Ok(World(b.bank, b.distr, ResetStaking(w.staking, list), ResetSigningInfos(w.signingInfos)))
  }

  // ---------------------------------------------------------------------------------------------
  // Resetting heights and jailing does not disturb what the distribution phase has settled
  // ---------------------------------------------------------------------------------------------

  lemma {:induction false} StartsAfterReset(st: Staking, list: seq<AllowEntry>, dels: seq<Delegation>)
    requires Rooted(st, dels)
    ensures Rooted(ResetStaking(st, list), dels)
    ensures Starts(ResetStaking(st, list), dels) == Starts(st, dels)
  {
    if dels == [] {
    } else {
      var front, last := dels[..|dels| - 1], dels[|dels| - 1];
      assert dels == front + [last] && last in dels;
      RootedSplit(st, front, [last]);
      StartsAfterReset(st, list, front);
    }
  }

  lemma SettledAfterReset(st: Staking, list: seq<AllowEntry>, pool: Coins, base: Distr)
    requires st.validators.Valid() && DelegationsValid(st)
    ensures var st' := ResetStaking(st, list);
            && st'.validators.Valid() && DelegationsValid(st') && Vals(st') == Vals(st)
            && Settled(st', pool, base) == Settled(st, pool, base)
  {
    StartsAfterReset(st, list, st.delegations);
    assert Vals(ResetStaking(st, list)) == Vals(st);
  }

  /** The staking and slashing stores after a completed run, and that the list has parsed. */
  lemma ExportedStores(w: World, list: seq<AllowEntry>, rule: RewardRule)
    requires PrepForZeroHeight(w, list, rule).Ok?
    ensures var w' := PrepForZeroHeight(w, list, rule).value;
            && Unparsed !in list
            && StakingIsReset(w.staking, w'.staking, list) && InfosAreReset(w.signingInfos, w'.signingInfos)
            && SettleDistribution(w.staking, BooksOf(w), rule) == Ok(BooksOf(w'))
  {
    hide SettleDistribution, ResetStaking, ResetSigningInfos, StakingIsReset, InfosAreReset;
    PassesReset(w.staking, w.signingInfos, list);
  }

  /**
    The exported state of a consistent chain: the closed form, balanced books, and a consistent chain again; with a
    backed module the pool is exactly the coins of the module account.
   */
  lemma ExportedState(w: World, list: seq<AllowEntry>, rule: RewardRule)
    requires Consistent(w.staking, BooksOf(w)) && PrepForZeroHeight(w, list, rule).Ok?
    ensures var w' := PrepForZeroHeight(w, list, rule).value;
            && w'.distr == Settled(w.staking, w'.distr.communityPool, w.distr)
            && Consistent(w'.staking, BooksOf(w')) && Conserves(BooksOf(w), BooksOf(w'))
            && (Backed(BooksOf(w)) ==> Backed(BooksOf(w')) && w'.distr.communityPool == Scale(w'.bank.distrModule))
  {
    hide Tracked, CommissionFunded, Settled, Conserves, SettleDistribution, Answered;
    SettleResult(w.staking, BooksOf(w), rule);
    var w' := PrepForZeroHeight(w, list, rule).value;
    SettledAfterReset(w.staking, list, w'.distr.communityPool, w.distr);
    PoolCovered(BooksOf(w), BooksOf(w'));
    SettledConsistent(w'.staking, w'.bank, w'.distr.communityPool, w.distr);
    if Backed(BooksOf(w)) {
      SettledForm(w.staking, BooksOf(w), rule);
      SettledPool(w.staking, w'.distr.communityPool, Scale(w'.bank.distrModule), w.distr);
    }
  }

  lemma PoolCovered(b: Books, b': Books)
    requires Solvent(b)
    requires forall d :: Amount(b'.distr.communityPool, d) + Gap(b, d) == ToDec(Amount(b'.bank.distrModule, d))
    ensures Covers(Scale(b'.bank.distrModule), b'.distr.communityPool)
  {
    forall d ensures Amount(b'.distr.communityPool, d) <= Amount(Scale(b'.bank.distrModule), d) {
      assert 0 <= Gap(b, d);
    }
  }

  lemma SettledPool(st: Staking, p: Coins, q: Coins, base: Distr)
    requires Rooted(st, st.delegations) && Settled(st, p, base) == Settled(st, q, base)
    ensures p == q
  {
    assert Settled(st, p, base).communityPool == p && Settled(st, q, base).communityPool == q;
  }

  /** With a library that computes every reward, only an allow list that does not parse stops these phases. */
  lemma ExportCompletesIff(w: World, list: seq<AllowEntry>, rule: RewardRule)
    requires Consistent(w.staking, BooksOf(w)) && AlwaysAnswers(rule)
    ensures PrepForZeroHeight(w, list, rule).Ok? <==> Unparsed !in list
  {
    hide Answered, Tracked, CommissionFunded, SettleDistribution, AlwaysAnswers;
    SettleResult(w.staking, BooksOf(w), rule);
    TotalRuleAnswers(w.staking, AtHeight(w.staking.delegations, 0),
                     PayCommissions(w.staking.validators.keys, BooksOf(w)).value, rule);
  }

  /** After any completed run, exporting again with the same allow list changes no store. */
  lemma ExportTwice(w: World, list: seq<AllowEntry>, first: RewardRule, second: RewardRule)
    requires w.staking.validators.Valid() && UniquePairs(w.staking) && PrepForZeroHeight(w, list, first).Ok?
    ensures var w' := PrepForZeroHeight(w, list, first).value; var r := PrepForZeroHeight(w', list, second);
            && (r.Ok? <==> Answered(w'.staking, AtHeight(w'.staking.delegations, 0), BooksOf(w'), second))
            && (r.Ok? ==> r.value == w') && (AlwaysAnswers(second) ==> r == Ok(w'))
  {
    CompletedForm(w.staking, BooksOf(w), first);
    hide Settled, Answered, SettleDistribution, AlwaysAnswers, Rooted, UniquePairs;
    var w' := PrepForZeroHeight(w, list, first).value;
    SettledAfterReset(w.staking, list, w'.distr.communityPool, w.distr);
    SettledIsFixed(w'.staking, w'.bank, w'.distr.communityPool, w.distr, second);
    ResetTwice(w.staking, w.signingInfos, list);
  }
}
