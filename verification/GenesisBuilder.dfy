/** GenesisStateWithValSet: the genesis sections built for a validator set, and how they agree with each other. */
module GenesisBuilder {
  import opened Results
  import opened CoinMath
  import opened Stores

  datatype CmtValidator = CmtValidator(address: Addr, pubKey: string)

  datatype Account = Account(address: Addr)

  datatype Balance = Balance(address: Addr, coins: Coins)

  datatype SigningRecord = SigningRecord(address: Addr, info: SigningInfo)

  /** Conversion of a consensus key and wrapping of the result; both may fail. */
  datatype KeyCodec = KeyCodec(fromCmt: string -> Option<string>, toAny: string -> Option<string>) {
    function Convert(key: string): Option<string> {
      match fromCmt(key)
      case None => None
      case Some(pk) => toAny(pk)
    }
  }

  /** The chain constants that the builder reads. */
  datatype ChainParams = ChainParams(bondDenom: Denom, bondedPool: Addr)

  datatype Section =
    | AuthSection(accounts: seq<Account>)
    | StakingSection(validators: seq<Validator>, delegations: seq<Delegation>)
    | SlashingSection(infos: seq<SigningRecord>)
    | BankSection(balances: seq<Balance>, supply: Coins)
    | OtherSection(raw: string)

  /** The map of sections, which the builder writes in place. */
  class GenesisState {
    var sections: map<string, Section>

    constructor (sections: map<string, Section>)
      ensures this.sections == sections
    {
      this.sections := sections;
    }
  }

  datatype BuildResult = Built | KeyError | IndexPanic

  const AUTH := "auth"
  const STAKING := "staking"
  const SLASHING := "slashing"
  const BANK := "bank"

  /** Tokens of every validator: one unit of consensus power. */
  const POWER_REDUCTION: nat := 1_000_000

  // ---------------------------------------------------------------------------------------------
  // What is built
  // ---------------------------------------------------------------------------------------------

  predicate Convertible(codec: KeyCodec, val: CmtValidator) {
    codec.Convert(val.pubKey).Some?
  }

  function CoinsOf(d: Denom, n: nat): (c: Coins)
    ensures forall e {:trigger Amount(c, e)} :: Amount(c, e) == if e == d then n else 0
  {
    if n == 0 then map[] else map[d := n]
  }

  /** A bonded, unjailed validator with one unit of power, one share and no commission. */
  ghost predicate ValidatorMatches(codec: KeyCodec, val: CmtValidator, v: Validator) {
    && v.operator == val.address && Some(v.consensusKey) == codec.Convert(val.pubKey)
    && v.status == Bonded && !v.jailed
    && v.tokens == 1_000_000 && v.delegatorShares == 1_000_000_000_000_000_000
    && v.unbondingHeight == 0 && v.unbondingTime == 0
    && v.commissionRate == 0 && v.minSelfDelegation == 0 && v.description == ""
  }

  /** Validators and delegations correspond to the set one to one and in order. */
  ghost predicate StakingMatches(codec: KeyCodec, vals: seq<CmtValidator>, delegator: Addr,
                                 validators: seq<Validator>, delegations: seq<Delegation>)
  {
    && |validators| == |delegations| == |vals|
    && forall i | 0 <= i < |vals| ::
         && Convertible(codec, vals[i]) && ValidatorMatches(codec, vals[i], validators[i])
         && delegations[i] == Delegation(delegator, vals[i].address, 1_000_000_000_000_000_000)
  }

  ghost predicate SigningMatches(vals: seq<CmtValidator>, infos: seq<SigningRecord>) {
    |infos| == |vals| && forall i | 0 <= i < |vals| ::
      && infos[i].address == vals[i].address
      && infos[i].info.startHeight == 0 && infos[i].info.indexOffset == 0 && infos[i].info.jailedUntil == 0
      && !infos[i].info.tombstoned && infos[i].info.missedBlocks == 0
  }

  ghost function BalanceSum(balances: seq<Balance>, d: Denom): nat {
    if balances == [] then 0 else BalanceSum(balances[..|balances| - 1], d) + Amount(balances[|balances| - 1].coins, d)
  }

  ghost function TokenSum(validators: seq<Validator>): nat {
    if validators == [] then 0 else TokenSum(validators[..|validators| - 1]) + validators[|validators| - 1].tokens
  }

  ghost function SharesTo(delegations: seq<Delegation>, v: Addr): nat {
    if delegations == [] then 0
    else
      SharesTo(delegations[..|delegations| - 1], v)
      + if delegations[|delegations| - 1].validator == v then delegations[|delegations| - 1].shares else 0
  }

  ghost predicate DistinctAddresses(vals: seq<CmtValidator>) {
    forall i, j | 0 <= i < j < |vals| :: vals[i].address != vals[j].address
  }

  // ---------------------------------------------------------------------------------------------
  // The builder
  // ---------------------------------------------------------------------------------------------

  method BuildStaking(codec: KeyCodec, vals: seq<CmtValidator>, genAccs: seq<Account>)
    returns (r: BuildResult, validators: seq<Validator>, delegations: seq<Delegation>)
    ensures r.Built? <==> (vals == [] || genAccs != []) && forall val | val in vals :: Convertible(codec, val)
    ensures r.IndexPanic? <==> vals != [] && genAccs == [] && Convertible(codec, vals[0])
    ensures r.Built? && vals != [] ==>
              StakingMatches(codec, vals, genAccs[0].address, validators, delegations)
    ensures r.Built? && vals == [] ==> validators == [] && delegations == []
  {
    validators, delegations := [], [];
    for i := 0 to |vals|
      invariant |validators| == |delegations| == i
      invariant forall j | 0 <= j < i :: Convertible(codec, vals[j])
      invariant 0 < i ==> genAccs != []
      invariant forall j | 0 <= j < i ::
                  && ValidatorMatches(codec, vals[j], validators[j])
                  && delegations[j] == Delegation(genAccs[0].address, vals[j].address, ToDec(1))
    {
      var val := vals[i];
      assert val in vals;
      var pk := codec.fromCmt(val.pubKey);
      if pk.None? {
        return KeyError, validators, delegations;
      }
      var pkAny := codec.toAny(pk.value);
      if pkAny.None? {
        return KeyError, validators, delegations;
      }
      validators := validators
                    + [Validator(val.address, pkAny.value, false, Bonded, POWER_REDUCTION, ToDec(1), "", 0, 0, 0, 0)];
      if |genAccs| == 0 {
        return IndexPanic, validators, delegations;
      }
      delegations := delegations + [Delegation(genAccs[0].address, val.address, ToDec(1))];
    }
    return Built, validators, delegations;
  }

  method BuildSigningInfos(vals: seq<CmtValidator>) returns (infos: seq<SigningRecord>)
    ensures SigningMatches(vals, infos)
  {
    var signingInfos := new SigningRecord[|vals|];
    for i := 0 to |vals|
      invariant forall j | 0 <= j < i ::
                    signingInfos[j] == SigningRecord(vals[j].address, SigningInfo(0, 0, 0, false, 0))
    {
      signingInfos[i] := SigningRecord(vals[i].address, SigningInfo(0, 0, 0, false, 0));
    }
    infos := signingInfos[..];
  }

  method TotalSupply(balances: seq<Balance>) returns (supply: Coins)
    ensures forall d :: Amount(supply, d) == BalanceSum(balances, d)
  {
    supply := map[];
    for i := 0 to |balances|
      invariant forall d :: Amount(supply, d) == BalanceSum(balances[..i], d)
    {
      assert balances[..i + 1][..i] == balances[..i];
      supply := Add(supply, balances[i].coins);
    }
    assert balances[..|balances|] == balances;
  }

  /** The bonded pool entry appended to the balances. */
  function PoolBalance(params: ChainParams, n: nat): Balance {
    Balance(params.bondedPool, CoinsOf(params.bondDenom, n * POWER_REDUCTION))
  }

  /** The staking, slashing and bank sections agree with the validator set, the balances and one another. */
  ghost predicate SectionsAgree(sections: map<string, Section>, codec: KeyCodec, params: ChainParams,
                                vals: seq<CmtValidator>, genAccs: seq<Account>, balances: seq<Balance>)
  {
    && AUTH in sections && sections[AUTH] == AuthSection(genAccs)
    && STAKING in sections && sections[STAKING].StakingSection?
    && (vals != [] ==> genAccs != [] && StakingMatches(codec, vals, genAccs[0].address,
                         sections[STAKING].validators, sections[STAKING].delegations))
    && (vals == [] ==> sections[STAKING] == StakingSection([], []))
    && SLASHING in sections && sections[SLASHING].SlashingSection?
    && SigningMatches(vals, sections[SLASHING].infos)
    && BANK in sections && sections[BANK].BankSection?
    && |sections[BANK].balances| == |balances| + 1 && sections[BANK].balances[..|balances|] == balances
    && sections[BANK].balances[|balances|].address == params.bondedPool
    && (forall d :: Amount(sections[BANK].balances[|balances|].coins, d)
                    == if d == params.bondDenom then |vals| * 1_000_000 else 0)
    && forall d :: Amount(sections[BANK].supply, d) == BalanceSum(sections[BANK].balances, d)
  }

  /** On failure only the auth section has been written; on success the other sections are left alone. */
  method GenesisStateWithValSet(genesis: GenesisState, codec: KeyCodec, params: ChainParams,
                                vals: seq<CmtValidator>, genAccs: seq<Account>, balances: seq<Balance>)
    returns (r: BuildResult)
    modifies genesis
    ensures r.Built? <==> (vals == [] || genAccs != []) && forall val | val in vals :: Convertible(codec, val)
    ensures r.IndexPanic? <==> vals != [] && genAccs == [] && Convertible(codec, vals[0])
    ensures !r.Built? ==> genesis.sections == old(genesis.sections)[AUTH := AuthSection(genAccs)]
    ensures r.Built? ==>
              && SectionsAgree(genesis.sections, codec, params, vals, genAccs, balances)
              && genesis.sections - {AUTH, STAKING, SLASHING, BANK}
                 == old(genesis.sections) - {AUTH, STAKING, SLASHING, BANK}
  {
    genesis.sections := genesis.sections[AUTH := AuthSection(genAccs)];
    var validators, delegations;
    r, validators, delegations := BuildStaking(codec, vals, genAccs);
    if !r.Built? { return; }
    genesis.sections := genesis.sections[STAKING := StakingSection(validators, delegations)];
    var infos := BuildSigningInfos(vals);
    genesis.sections := genesis.sections[SLASHING := SlashingSection(infos)];
    var all := balances + [PoolBalance(params, |vals|)];
    var supply := TotalSupply(all);
    genesis.sections := genesis.sections[BANK := BankSection(all, supply)];
  }

  // ---------------------------------------------------------------------------------------------
  // Agreement between the sections
  // ---------------------------------------------------------------------------------------------

  lemma {:induction false} TokensOfSet(codec: KeyCodec, vals: seq<CmtValidator>, delegator: Addr,
                                       validators: seq<Validator>, delegations: seq<Delegation>)
    requires StakingMatches(codec, vals, delegator, validators, delegations)
    ensures TokenSum(validators) == |vals| * 1_000_000
  {
    if vals != [] {
      var n := |vals| - 1;
      TokensOfSet(codec, vals[..n], delegator, validators[..n], delegations[..n]);
    }
  }

  /**
    In every denomination the supply is the sum of the given balances plus, in the bond denomination, the tokens
    of all validators.
   */
  lemma SupplyIsBalancesPlusBonded(sections: map<string, Section>, codec: KeyCodec, params: ChainParams,
                                   vals: seq<CmtValidator>, genAccs: seq<Account>, balances: seq<Balance>, d: Denom)
    requires SectionsAgree(sections, codec, params, vals, genAccs, balances)
    ensures Amount(sections[BANK].supply, d) ==
            BalanceSum(balances, d) + if d == params.bondDenom then TokenSum(sections[STAKING].validators) else 0
  {
    assert |sections[BANK].balances| - 1 == |balances|;
    if vals != [] {
      TokensOfSet(codec, vals, genAccs[0].address, sections[STAKING].validators, sections[STAKING].delegations);
    }
  }

  /** How often an address occurs in the set. */
  ghost function Occurrences(vals: seq<CmtValidator>, a: Addr): nat {
    if vals == [] then 0 else Occurrences(vals[..|vals| - 1], a) + if vals[|vals| - 1].address == a then 1 else 0
  }

  lemma {:induction false} SharesAreOccurrences(codec: KeyCodec, vals: seq<CmtValidator>, delegator: Addr,
                                                validators: seq<Validator>, delegations: seq<Delegation>, a: Addr)
    requires StakingMatches(codec, vals, delegator, validators, delegations)
    ensures SharesTo(delegations, a) == ToDec(Occurrences(vals, a))
  {
    if vals != [] {
      var n := |vals| - 1;
      SharesAreOccurrences(codec, vals[..n], delegator, validators[..n], delegations[..n], a);
    }
  }

  lemma {:induction false} OccurrencesOf(vals: seq<CmtValidator>, i: nat)
    requires i < |vals|
    ensures 1 <= Occurrences(vals, vals[i].address)
    ensures Occurrences(vals, vals[i].address) == 1 <==>
            forall j | 0 <= j < |vals| && j != i :: vals[j].address != vals[i].address
  {
    var n, a := |vals| - 1, vals[i].address;
    if i < n {
      OccurrencesOf(vals[..n], i);
      assert forall j | 0 <= j < n :: vals[..n][j] == vals[j];
    } else {
      NoOccurrence(vals[..n], a);
    }
  }

  lemma {:induction false} NoOccurrence(vals: seq<CmtValidator>, a: Addr)
    ensures Occurrences(vals, a) == 0 <==> forall j | 0 <= j < |vals| :: vals[j].address != a
  {
    if vals != [] {
      var n := |vals| - 1;
      NoOccurrence(vals[..n], a);
      assert forall j | 0 <= j < n :: vals[..n][j] == vals[j];
    }
  }

  /** Each validator's shares are the sum of the delegations to it exactly when the addresses are distinct. */
  lemma SharesAgreeIff(codec: KeyCodec, vals: seq<CmtValidator>, delegator: Addr,
                       validators: seq<Validator>, delegations: seq<Delegation>)
    requires StakingMatches(codec, vals, delegator, validators, delegations)
    ensures (forall i | 0 <= i < |vals| ::
               SharesTo(delegations, validators[i].operator) == validators[i].delegatorShares)
            <==> DistinctAddresses(vals)
  {
    forall i | 0 <= i < |vals|
      ensures SharesTo(delegations, validators[i].operator) == validators[i].delegatorShares
              <==> forall j | 0 <= j < |vals| && j != i :: vals[j].address != vals[i].address
    {
      SharesAreOccurrences(codec, vals, delegator, validators, delegations, vals[i].address);
      OccurrencesOf(vals, i);
    }
  }
}
