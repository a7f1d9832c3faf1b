/** The staking and slashing phases: what each pass over a store turns its records into. */
module Resets {
  import opened Stores

  /** The same table with every record replaced, under the same keys in the same order. */
  function MapStore<K, V>(s: Store<K, V>, f: V -> V): Store<K, V> {
    Store(s.keys, map k | k in s.entries :: f(s.entries[k]))
  }

  function ZeroRedelegation(red: Redelegation): Redelegation {
    red.(entries := seq(|red.entries|, i requires 0 <= i < |red.entries| => red.entries[i].(creationHeight := 0)))
  }

  function ZeroUnbonding(ubd: UnbondingDelegation): UnbondingDelegation {
    ubd.(entries := seq(|ubd.entries|, i requires 0 <= i < |ubd.entries| => ubd.entries[i].(creationHeight := 0)))
  }

  function ZeroStart(info: SigningInfo): SigningInfo {
    info.(startHeight := 0)
  }

  /** An entry of the jail allow list: a validator address, or text that does not parse as one. */
  datatype AllowEntry = Parsed(addr: Addr) | Unparsed

  /** The record of a validator after the validator loop; key is the address the record is stored under. */
  function ResetValidator(key: Addr, val: Validator, list: seq<AllowEntry>): Validator {
    val.(unbondingHeight := 0, jailed := val.jailed || (list != [] && Parsed(key) !in list))
  }

  function ResetValidators(s: Store<Addr, Validator>, list: seq<AllowEntry>): Store<Addr, Validator> {
    Store(s.keys, map k | k in s.entries :: ResetValidator(k, s.entries[k], list))
  }

  function ResetStaking(st: Staking, list: seq<AllowEntry>): Staking {
    st.(redelegations := MapStore(st.redelegations, ZeroRedelegation),
        unbondings := MapStore(st.unbondings, ZeroUnbonding),
        validators := ResetValidators(st.validators, list))
  }

  function ResetSigningInfos(infos: SigningInfos): SigningInfos {
    MapStore(infos, ZeroStart)
  }

  // ---------------------------------------------------------------------------------------------
  // What the passes leave, field by field
  // ---------------------------------------------------------------------------------------------

  /** The same table but for the values of its records. */
  ghost predicate SameKeys<K, V>(s: Store<K, V>, s': Store<K, V>) {
    s'.keys == s.keys && s'.entries.Keys == s.entries.Keys
  }

  ghost predicate RedelegationZeroed(was: Redelegation, now: Redelegation) {
    && now.delegator == was.delegator && now.source == was.source && now.destination == was.destination
    && |now.entries| == |was.entries|
    && forall i | 0 <= i < |was.entries| ::
         && now.entries[i].creationHeight == 0
         && now.entries[i].completionTime == was.entries[i].completionTime
         && now.entries[i].initialBalance == was.entries[i].initialBalance
         && now.entries[i].sharesDst == was.entries[i].sharesDst
  }

  ghost predicate UnbondingZeroed(was: UnbondingDelegation, now: UnbondingDelegation) {
    && now.delegator == was.delegator && now.validator == was.validator
    && |now.entries| == |was.entries|
    && forall i | 0 <= i < |was.entries| ::
         && now.entries[i].creationHeight == 0
         && now.entries[i].completionTime == was.entries[i].completionTime
         && now.entries[i].initialBalance == was.entries[i].initialBalance
         && now.entries[i].balance == was.entries[i].balance
  }

  /** Unbonding height 0; jailed if it was, or if a non-empty list omits it; every other field as before. */
  ghost predicate ValidatorReset(key: Addr, was: Validator, now: Validator, list: seq<AllowEntry>) {
    && now.unbondingHeight == 0
    && (now.jailed <==> was.jailed || (list != [] && Parsed(key) !in list))
    && now.(unbondingHeight := was.unbondingHeight, jailed := was.jailed) == was
  }

  ghost predicate ValidatorsAreReset(s: Store<Addr, Validator>, s': Store<Addr, Validator>, list: seq<AllowEntry>) {
    SameKeys(s, s') && forall k | k in s.entries :: ValidatorReset(k, s.entries[k], s'.entries[k], list)
  }

  /** Every staking table keeps its keys in order, every record is reset, and the delegations are untouched. */
  ghost predicate StakingIsReset(st: Staking, st': Staking, list: seq<AllowEntry>) {
    && st'.delegations == st.delegations
    && ValidatorsAreReset(st.validators, st'.validators, list)
    && SameKeys(st.redelegations, st'.redelegations)
    && (forall k | k in st.redelegations.entries ::
          RedelegationZeroed(st.redelegations.entries[k], st'.redelegations.entries[k]))
    && SameKeys(st.unbondings, st'.unbondings)
    && (forall k | k in st.unbondings.entries ::
          UnbondingZeroed(st.unbondings.entries[k], st'.unbondings.entries[k]))
  }

  /** Every signing info gets start height 0 and keeps every other field. */
  ghost predicate InfosAreReset(s: SigningInfos, s': SigningInfos) {
    && SameKeys(s, s')
    && forall k | k in s.entries ::
         && s'.entries[k].startHeight == 0
         && s'.entries[k].(startHeight := s.entries[k].startHeight) == s.entries[k]
  }

  lemma PassesReset(st: Staking, infos: SigningInfos, list: seq<AllowEntry>)
    ensures StakingIsReset(st, ResetStaking(st, list), list)
    ensures InfosAreReset(infos, ResetSigningInfos(infos))
  {
  }

  /** The validators that are jailed. */
  ghost function JailedSet(s: Store<Addr, Validator>): set<Addr> {
    set k | k in s.entries && s.entries[k].jailed
  }

  /** Nobody is unjailed; exactly the validators that a non-empty list omits are added. */
  lemma JailedExactly(s: Store<Addr, Validator>, list: seq<AllowEntry>)
    ensures JailedSet(ResetValidators(s, list)) ==
            JailedSet(s) + set k | k in s.entries && list != [] && Parsed(k) !in list
  {
  }

  /**
    Enlarging the allow list never jails more validators exactly when it starts non-empty or stays empty: the
    empty list jails nobody, so its first entry can jail.
   */
  lemma JailingIsMonotoneIff(small: seq<AllowEntry>, large: seq<AllowEntry>, outsider: Addr)
    requires (forall a :: Parsed(a) in small ==> Parsed(a) in large) && Parsed(outsider) !in large
    ensures (forall s: Store<Addr, Validator> ::
               JailedSet(ResetValidators(s, large)) <= JailedSet(ResetValidators(s, small)))
            <==> (small != [] || large == [])
  {
    if small != [] || large == [] {
      forall s: Store<Addr, Validator>
        ensures JailedSet(ResetValidators(s, large)) <= JailedSet(ResetValidators(s, small))
      {
        JailedExactly(s, small);
        JailedExactly(s, large);
      }
    } else {
      var val := Validator(outsider, "", false, Bonded, 0, 0, "", 0, 0, 0, 0);
      var s := Store([outsider], map[outsider := val]);
      JailedExactly(s, small);
      JailedExactly(s, large);
      assert JailedSet(s) == {};
      assert outsider in JailedSet(ResetValidators(s, large));
      assert outsider !in JailedSet(ResetValidators(s, small));
    }
  }

  /** A second pass finds nothing left to reset. */
  lemma ResetTwice(st: Staking, infos: SigningInfos, list: seq<AllowEntry>)
    ensures ResetStaking(ResetStaking(st, list), list) == ResetStaking(st, list)
    ensures ResetSigningInfos(ResetSigningInfos(infos)) == ResetSigningInfos(infos)
  {
    forall red: Redelegation ensures ZeroRedelegation(ZeroRedelegation(red)) == ZeroRedelegation(red) {
      assert ZeroRedelegation(ZeroRedelegation(red)).entries == ZeroRedelegation(red).entries;
    }
    forall ubd: UnbondingDelegation ensures ZeroUnbonding(ZeroUnbonding(ubd)) == ZeroUnbonding(ubd) {
      assert ZeroUnbonding(ZeroUnbonding(ubd)).entries == ZeroUnbonding(ubd).entries;
    }
    MapStoreTwice(st.redelegations, ZeroRedelegation);
    MapStoreTwice(st.unbondings, ZeroUnbonding);
    MapStoreTwice(infos, ZeroStart);
    assert ResetValidators(ResetValidators(st.validators, list), list).entries
           == ResetValidators(st.validators, list).entries;
  }

  lemma MapStoreTwice<K, V(!new)>(s: Store<K, V>, f: V -> V)
    requires forall v :: f(f(v)) == f(v)
    ensures MapStore(MapStore(s, f), f) == MapStore(s, f)
  {
    assert MapStore(MapStore(s, f), f).entries == MapStore(s, f).entries;
  }

  // ---------------------------------------------------------------------------------------------
  // The passes over the entries of one record
  // ---------------------------------------------------------------------------------------------

  /** Zeroes every entry of one redelegation and touches nothing else in it. */
  method ResetRedelegation(red: Redelegation) returns (r: Redelegation)
    ensures RedelegationZeroed(red, r) && r == ZeroRedelegation(red)
  {
    r := red;
    for i := 0 to |red.entries|
      invariant r == red.(entries := r.entries) && |r.entries| == |red.entries|
      invariant forall j | 0 <= j < |red.entries| ::
                  r.entries[j] == if j < i then red.entries[j].(creationHeight := 0) else red.entries[j]
    {
      r := r.(entries := r.entries[i := r.entries[i].(creationHeight := 0)]);
    }
    assert r.entries == ZeroRedelegation(red).entries;
  }

  /** Zeroes every entry of one unbonding delegation and touches nothing else in it. */
  method ResetUnbonding(ubd: UnbondingDelegation) returns (r: UnbondingDelegation)
    ensures UnbondingZeroed(ubd, r) && r == ZeroUnbonding(ubd)
  {
    r := ubd;
    for i := 0 to |ubd.entries|
      invariant r == ubd.(entries := r.entries) && |r.entries| == |ubd.entries|
      invariant forall j | 0 <= j < |ubd.entries| ::
                  r.entries[j] == if j < i then ubd.entries[j].(creationHeight := 0) else ubd.entries[j]
    {
      r := r.(entries := r.entries[i := r.entries[i].(creationHeight := 0)]);
    }
    assert r.entries == ZeroUnbonding(ubd).entries;
  }
}
