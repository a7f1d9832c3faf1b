/** The exporting application: the loops of prepForZeroHeightGenesis over the stores it holds. */
module Export {
  import opened Results
  import opened CoinMath
  import opened Stores
  import opened Distribution
  import opened ZeroHeight
  import opened Conservation
  import opened Payout
  import opened Rebuilding
  import opened Settlement
  import opened Resets
  import opened WholeRun

  /** What the export reports besides the marshalled stores. */
  datatype Exported = Exported(height: int, state: World)

  class EnokiApp {
    var bank: Bank
    var distr: Distr
    var staking: Staking
    var signingInfos: SigningInfos
    const lastBlockHeight: int

    constructor (w: World, lastBlockHeight: int)
      ensures State() == w && this.lastBlockHeight == lastBlockHeight
    {
      bank, distr, staking, signingInfos := w.bank, w.distr, w.staking, w.signingInfos;
      this.lastBlockHeight := lastBlockHeight;
    }

    function State(): World
      reads this
    {
      World(bank, distr, staking, signingInfos)
    }

    function Ledger(): Books
      reads this
    {
      Books(bank, distr)
    }

    /** Tables are well formed, and records are stored under the keys they name. */
    ghost predicate Valid()
      reads this
    {
      && staking.validators.Valid() && staking.redelegations.Valid() && staking.unbondings.Valid()
      && signingInfos.Valid()
      && (forall k | k in staking.validators.entries :: staking.validators.entries[k].operator == k)
      && (forall k | k in staking.redelegations.entries :: RedelegationKey(staking.redelegations.entries[k]) == k)
      && (forall k | k in staking.unbondings.entries :: UnbondingKey(staking.unbondings.entries[k]) == k)
    }

    static function RedelegationKey(red: Redelegation): (Addr, Addr, Addr) {
      (red.delegator, red.source, red.destination)
    }

    static function UnbondingKey(ubd: UnbondingDelegation): PairKey {
      PairKey(ubd.validator, ubd.delegator)
    }

    // -------------------------------------------------------------------------------------------
    // Distribution
    // -------------------------------------------------------------------------------------------

    /** Iterates over the validators and withdraws the commission of each. */
    method WithdrawAllCommissions() returns (r: Result<()>)
      requires Valid()
      modifies `bank, `distr
      ensures var spec := PayCommissions(staking.validators.keys, old(Ledger()));
              (r.Ok? <==> spec.Ok?) && (r.Ok? ==> Ledger() == spec.value)
      // from a solvent module the books balance, whatever was withdrawn
      ensures old(Solvent(Ledger())) && r.Ok? ==> Conserves(old(Ledger()), Ledger())
    {
      ghost var start := Ledger();
      var keys := staking.validators.keys;
      for i := 0 to |keys|
        invariant PayCommissions(keys, start) == PayCommissions(keys[i..], Ledger())
        invariant Solvent(start) ==> Conserves(start, Ledger()) && Solvent(Ledger())
      {
        assert keys[i..][0] == keys[i] && keys[i..][1..] == keys[i + 1..];
        ghost var before := Ledger();
        var operator := staking.validators.entries[keys[i]].operator;
        var books :- WithdrawValidatorCommission(Ledger(), operator);
        bank, distr := books.bank, books.distr;
        if Solvent(start) {
          CommissionConserves(before, operator);
          ConservesChain(start, before, Ledger());
          SolventStays(before, Ledger());
        }
      }
      return Ok(());
    }

    /** Withdraws the rewards of the delegations of a snapshot, in its order, at context height 0. */
    method WithdrawAllRewards(dels: seq<Delegation>, rule: RewardRule) returns (r: Result<()>)
      modifies `bank, `distr
      ensures var spec := PayRewards(staking, AtHeight(dels, 0), old(Ledger()), rule);
              (r.Ok? <==> spec.Ok?) && (r.Ok? ==> Ledger() == spec.value)
      ensures r.Ok? ==> Conserves(old(Ledger()), Ledger())
    {
      ghost var start, ws := Ledger(), AtHeight(dels, 0);
      for i := 0 to |dels|
        invariant PayRewards(staking, ws, start, rule) == PayRewards(staking, ws[i..], Ledger(), rule)
        invariant Conserves(start, Ledger())
      {
        assert ws[i..][0] == Withdrawal(dels[i], 0) && ws[i..][1..] == ws[i + 1..];
        ghost var before := Ledger();
        var books :- WithdrawDelegationRewards(staking, Ledger(), dels[i], rule, 0);
        bank, distr := books.bank, books.distr;
        RewardsConserve(staking, before, dels[i], rule, 0);
        ConservesChain(start, before, Ledger());
      }
      return Ok(());
    }

    /** Donates the scraps of every validator to the pool and creates its distribution records anew. */
    method ReinitializeValidators()
      requires Valid()
      modifies `distr
      ensures distr == ReinitValidators(staking.validators.keys, old(distr))
      ensures forall d :: Owed(distr, d) == Owed(old(distr), d)
    {
      ghost var start := distr;
      var keys := staking.validators.keys;
      for i := 0 to |keys|
        invariant ReinitValidators(keys, start) == ReinitValidators(keys[i..], distr)
      {
        assert keys[i..][0] == keys[i] && keys[i..][1..] == keys[i + 1..];
        var operator := staking.validators.entries[keys[i]].operator;
        var scraps := Get(distr.outstanding, operator);
        distr := distr.(communityPool := Add(distr.communityPool, scraps));
        distr := AfterValidatorCreated(distr, operator);
      }
      ReinitValidatorsConserves(keys, start);
    }

    /** Runs both hooks for the delegations of the snapshot, in its order, at context height 0. */
    method ReinitializeDelegations(dels: seq<Delegation>) returns (r: Result<()>)
      modifies `distr
      ensures var spec := ReinitDelegations(staking, dels, old(distr));
              (r.Ok? <==> spec.Ok?) && (r.Ok? ==> distr == spec.value)
    {
      ghost var start := distr;
      for i := 0 to |dels|
        invariant ReinitDelegations(staking, dels, start) == ReinitDelegations(staking, dels[i..], distr)
      {
        assert dels[i..][0] == dels[i] && dels[i..][1..] == dels[i + 1..];
        var ended :- BeforeDelegationCreated(staking, distr, dels[i]);
        distr := ended;
        var started :- AfterDelegationModified(staking, distr, dels[i], 0);
        distr := started;
      }
      return Ok(());
    }

    // -------------------------------------------------------------------------------------------
    // Staking and slashing
    // -------------------------------------------------------------------------------------------

    /** Reads the allow list; text that is not an address ends the process. */
    method ReadAllowList(list: seq<AllowEntry>) returns (r: Result<map<Addr, bool>>)
      ensures r.Ok? <==> Unparsed !in list
      ensures r.Ok? ==> forall a :: (a in r.value && r.value[a]) <==> Parsed(a) in list
    {
      var allowed: map<Addr, bool> := map[];
      for i := 0 to |list|
        invariant Unparsed !in list[..i]
        invariant forall a :: (a in allowed && allowed[a]) <==> Parsed(a) in list[..i]
      {
        assert list[..i + 1] == list[..i] + [list[i]];
        if list[i].Unparsed? {
          return Panic;
        }
        allowed := allowed[list[i].addr := true];
      }
      assert list[..|list|] == list;
      return Ok(allowed);
    }

    method ResetRedelegations()
      requires Valid()
      modifies `staking
      ensures Valid()
      ensures staking == old(staking).(redelegations := MapStore(old(staking).redelegations, ZeroRedelegation))
    {
      ghost var was := staking.redelegations.entries;
      var keys := staking.redelegations.keys;
      for i := 0 to |keys|
        invariant staking == old(staking).(redelegations := staking.redelegations)
        invariant staking.redelegations.keys == keys && staking.redelegations.entries.Keys == was.Keys
        invariant forall j | 0 <= j < |keys| :: staking.redelegations.entries[keys[j]]
                    == if j < i then ZeroRedelegation(was[keys[j]]) else was[keys[j]]
      {
        var red := ResetRedelegation(staking.redelegations.entries[keys[i]]);
        staking := staking.(redelegations := staking.redelegations.Set(RedelegationKey(red), red));
      }
      assert staking.redelegations.entries == MapStore(old(staking).redelegations, ZeroRedelegation).entries;
    }

    method ResetUnbondings()
      requires Valid()
      modifies `staking
      ensures Valid()
      ensures staking == old(staking).(unbondings := MapStore(old(staking).unbondings, ZeroUnbonding))
    {
      ghost var was := staking.unbondings.entries;
      var keys := staking.unbondings.keys;
      for i := 0 to |keys|
        invariant staking == old(staking).(unbondings := staking.unbondings)
        invariant staking.unbondings.keys == keys && staking.unbondings.entries.Keys == was.Keys
        invariant forall j | 0 <= j < |keys| :: staking.unbondings.entries[keys[j]]
                    == if j < i then ZeroUnbonding(was[keys[j]]) else was[keys[j]]
      {
        var ubd := ResetUnbonding(staking.unbondings.entries[keys[i]]);
        staking := staking.(unbondings := staking.unbondings.Set(UnbondingKey(ubd), ubd));
      }
      assert staking.unbondings.entries == MapStore(old(staking).unbondings, ZeroUnbonding).entries;
    }

    /**
      Iterates over the validators in reverse key order, writing each back while the iteration is under way; each
      record is reset exactly once and none is missed.
     */
    method ResetAllValidators(applyAllowed: bool, allowed: map<Addr, bool>, ghost list: seq<AllowEntry>)
      returns (r: Result<()>)
      requires Valid() && (applyAllowed <==> list != [])
      requires forall a :: (a in allowed && allowed[a]) <==> Parsed(a) in list
      modifies `staking
      ensures r.Ok? && Valid()
      ensures staking == old(staking).(validators := ResetValidators(old(staking).validators, list))
      ensures ValidatorsAreReset(old(staking).validators, staking.validators, list)
    {
      ghost var was := staking.validators.entries;
      var keys := staking.validators.keys;
      var i := |keys|;
      while 0 < i
        invariant 0 <= i <= |keys|
        invariant staking == old(staking).(validators := staking.validators)
        invariant staking.validators.keys == keys && staking.validators.entries.Keys == was.Keys
        invariant forall j | 0 <= j < |keys| :: staking.validators.entries[keys[j]]
                    == if j < i then was[keys[j]] else ResetValidator(keys[j], was[keys[j]], list)
      {
        i := i - 1;
        var addr := keys[i];
        if addr !in staking.validators.entries {
          return Panic;
        }
        var validator := staking.validators.entries[addr];
        validator := validator.(unbondingHeight := 0);
        if applyAllowed && !(addr in allowed && allowed[addr]) {
          validator := validator.(jailed := true);
        }
        staking := staking.(validators := staking.validators.Set(validator.operator, validator));
      }
      assert staking.validators.entries == ResetValidators(old(staking).validators, list).entries;
      return Ok(());
    }

    method ResetAllSigningInfos()
      requires Valid()
      modifies `signingInfos
      ensures Valid()
      ensures signingInfos == ResetSigningInfos(old(signingInfos))
      ensures InfosAreReset(old(signingInfos), signingInfos)
    {
      ghost var was := signingInfos.entries;
      var keys := signingInfos.keys;
      for i := 0 to |keys|
        invariant signingInfos.keys == keys && signingInfos.entries.Keys == was.Keys
        invariant forall j | 0 <= j < |keys| :: signingInfos.entries[keys[j]]
                    == if j < i then ZeroStart(was[keys[j]]) else was[keys[j]]
      {
        var info := signingInfos.entries[keys[i]];
        info := info.(startHeight := 0);
        signingInfos := signingInfos.Set(keys[i], info);
      }
      assert signingInfos.entries == ResetSigningInfos(old(signingInfos)).entries;
    }

    // -------------------------------------------------------------------------------------------
    // The whole run
    // -------------------------------------------------------------------------------------------

    /** The distribution phases; the context height is zero throughout them. */
    method HandleDistribution(rule: RewardRule) returns (r: Result<()>)
      requires Valid()
      modifies `bank, `distr
      ensures var spec := SettleDistribution(staking, old(Ledger()), rule);
              (r.Ok? <==> spec.Ok?) && (r.Ok? ==> Ledger() == spec.value)
    {
      hide PayCommissions, PayRewards, ReinitDelegations, ReinitValidators, Conserves, Solvent, Owed;
      var _ :- WithdrawAllCommissions();
      var dels := staking.delegations;
      var _ :- WithdrawAllRewards(dels, rule);
      distr := DeleteAllValidatorSlashEvents(distr);
      distr := DeleteAllValidatorHistoricalRewards(distr);
      ReinitializeValidators();
      r := ReinitializeDelegations(dels);
    }

    /** Panic stands for a panic and for log.Fatal: the process ends and exports nothing. */
    method PrepForZeroHeightGenesis(jailAllowedAddrs: seq<AllowEntry>, rule: RewardRule) returns (r: Result<()>)
      requires Valid()
      modifies this
      ensures var spec := PrepForZeroHeight(old(State()), jailAllowedAddrs, rule);
              (r.Ok? <==> spec.Ok?) && (r.Ok? ==> State() == spec.value && Valid())
      // every staking and signing record is reset, and the allow list decides who is jailed
      ensures r.Ok? ==> StakingIsReset(old(staking), staking, jailAllowedAddrs)
                        && InfosAreReset(old(signingInfos), signingInfos)
      // a completed run leaves the closed form
      ensures r.Ok? ==> Rooted(old(staking), old(staking).delegations)
                        && distr == Settled(old(staking), distr.communityPool, old(distr))
      // a consistent chain stays consistent, and its books balance
      ensures old(Consistent(staking, Ledger())) && r.Ok? ==>
                Consistent(staking, Ledger()) && Conserves(old(Ledger()), Ledger())
    {
      hide SettleDistribution, Consistent, Conserves, Settled, Rooted;
      ghost var start := State();
      var applyAllowed := 0 < |jailAllowedAddrs|;
      var allowed :- ReadAllowList(jailAllowedAddrs);

      var _ :- HandleDistribution(rule);
      CompletedForm(start.staking, BooksOf(start), rule);

      ResetRedelegations();
      ResetUnbondings();
      r := ResetAllValidators(applyAllowed, allowed, jailAllowedAddrs);
      // Here the source lets the staking module apply validator set updates, which may end the process;
      // that step is not part of this model.
      ResetAllSigningInfos();
      ExportedStores(start, jailAllowedAddrs, rule);
      if Consistent(start.staking, BooksOf(start)) {
        ExportedState(start, jailAllowedAddrs, rule);
      }
    }

    /** At height zero only when asked to; otherwise one past the last block, and nothing is rewritten. */
    method ExportAppStateAndValidators(forZeroHeight: bool, jailAllowedAddrs: seq<AllowEntry>, rule: RewardRule)
      returns (r: Result<Exported>)
      requires Valid()
      modifies this
      ensures !forZeroHeight ==> r == Ok(Exported(lastBlockHeight + 1, old(State()))) && State() == old(State())
      ensures forZeroHeight ==>
                match PrepForZeroHeight(old(State()), jailAllowedAddrs, rule)
                case Panic => r == Panic
                case Ok(w) => r == Ok(Exported(0, w)) && State() == w
    {
      var height := lastBlockHeight + 1;
      if forZeroHeight {
        height := 0;
        var _ :- PrepForZeroHeightGenesis(jailAllowedAddrs, rule);
      }
      return Ok(Exported(height, State()));
    }
  }
}
