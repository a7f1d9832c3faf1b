/** The staking and slashing records that the export reads and rewrites. */
module Stores {

  type Addr(==, 0, !new)

  /** An ordered key-value table; keys lists the key column in iteration order. */
  datatype Store<K(==), V> = Store(keys: seq<K>, entries: map<K, V>) {
    ghost predicate Valid() {
      && (forall i, j | 0 <= i < j < |keys| :: keys[i] != keys[j])
      && (forall k | k in keys :: k in entries)
      && (forall k | k in entries :: k in keys)
    }

    /** Overwriting keeps the position of the key, so an iteration over keys is not disturbed. */
    function Set(k: K, v: V): Store<K, V> {
      Store(if k in entries then keys else keys + [k], entries[k := v])
    }
  }

  datatype BondStatus = Unbonded | Unbonding | Bonded

  datatype Validator = Validator(
    operator: Addr,
    consensusKey: string,
    jailed: bool,
    status: BondStatus,
    tokens: nat,
    delegatorShares: nat,   // scaled by 10^18
    description: string,
    unbondingHeight: int,
    unbondingTime: int,
    commissionRate: nat,    // scaled by 10^18
    minSelfDelegation: nat
  )

  datatype Delegation = Delegation(delegator: Addr, validator: Addr, shares: nat)

  /** Identifies a delegation, and the starting info of a delegation. */
  datatype PairKey = PairKey(validator: Addr, delegator: Addr)

  function KeyOf(del: Delegation): PairKey {
    PairKey(del.validator, del.delegator)
  }

  datatype RedelegationEntry =
    RedelegationEntry(creationHeight: int, completionTime: int, initialBalance: nat, sharesDst: nat)

  datatype Redelegation =
    Redelegation(delegator: Addr, source: Addr, destination: Addr, entries: seq<RedelegationEntry>)

  datatype UnbondingEntry =
    UnbondingEntry(creationHeight: int, completionTime: int, initialBalance: nat, balance: nat)

  datatype UnbondingDelegation =
    UnbondingDelegation(delegator: Addr, validator: Addr, entries: seq<UnbondingEntry>)

  datatype SigningInfo = SigningInfo(
    startHeight: int, indexOffset: int, jailedUntil: int, tombstoned: bool, missedBlocks: int
  )

  datatype Staking = Staking(
    validators: Store<Addr, Validator>,
    delegations: seq<Delegation>,
    redelegations: Store<(Addr, Addr, Addr), Redelegation>,
    unbondings: Store<PairKey, UnbondingDelegation>
  )

  type SigningInfos = Store<Addr, SigningInfo>

  /** The keys of a list of delegations. */
  ghost function Keys(dels: seq<Delegation>): set<PairKey> {
    set del | del in dels :: KeyOf(del)
  }

  /** The delegation store holds one record for each pair. */
  ghost predicate UniquePairs(st: Staking) {
    forall i, j | 0 <= i < j < |st.delegations| :: KeyOf(st.delegations[i]) != KeyOf(st.delegations[j])
  }

  /** Pairs are unique and every delegation points at a validator that has shares. */
  ghost predicate DelegationsValid(st: Staking) {
    && UniquePairs(st)
    && (forall del | del in st.delegations ::
          && del.validator in st.validators.entries
          && 0 < st.validators.entries[del.validator].delegatorShares)
  }
}
