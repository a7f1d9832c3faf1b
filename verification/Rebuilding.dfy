/**
  The rebuild in closed form: after the records are wiped, every validator is created anew and every delegation
  hook has run, the distribution store is a function of the staking store alone, apart from the community pool.
 */
module Rebuilding {
  import opened Results
  import opened CoinMath
  import opened Stores
  import opened Distribution
  import opened ZeroHeight
  import opened Payout

  /** How many of these delegations are to validator v. */
  ghost function Delegated(dels: seq<Delegation>, v: Addr): nat {
    if dels == [] then 0
    else Delegated(dels[..|dels| - 1], v) + if dels[|dels| - 1].validator == v then 1 else 0
  }

  /**
    The historical records of validators with these delegations: the k delegations of a validator start at
    records 1 to k, and the latest record is also held by the current period; without delegations record 0 stays.
   */
  ghost function History(vals: set<Addr>, dels: seq<Delegation>): map<RecordKey, HistoricalRewards> {
    map v, p: nat | v in vals && (if Delegated(dels, v) == 0 then 0 else 1) <= p <= Delegated(dels, v) ::
      RecordKey(v, p) := HistoricalRewards(map[], if 0 < p == Delegated(dels, v) then 2 else 1)
  }

  ghost function Periods(vals: set<Addr>, dels: seq<Delegation>): map<Addr, CurrentRewards> {
    map v | v in vals :: CurrentRewards(map[], Delegated(dels, v) + 1)
  }

  /** Every delegation is to a validator that has shares. */
  ghost predicate Rooted(st: Staking, dels: seq<Delegation>) {
    forall del | del in dels ::
      del.validator in Vals(st) && 0 < st.validators.entries[del.validator].delegatorShares
  }

  /** The k-th delegation of a validator starts at record k, at height 0. */
  ghost function Starts(st: Staking, dels: seq<Delegation>): map<PairKey, StartingInfo>
    requires Rooted(st, dels)
  {
    if dels == [] then map[]
    else
      var del := dels[|dels| - 1];
      assert del in dels;
      Starts(st, dels[..|dels| - 1])[
        KeyOf(del) := StartingInfo(Delegated(dels, del.validator),
                                   StakeOf(st.validators.entries[del.validator], del.shares), 0)]
  }

  ghost function Nothing(vals: set<Addr>): map<Addr, Coins> {
    Fill(vals, map[])
  }

  ghost function Fill<K, V>(keys: set<K>, value: V): map<K, V> {
    map k | k in keys :: value
  }

  /** The store with all validators created anew and these delegations rebuilt. */
  ghost function Rebuilt(st: Staking, dels: seq<Delegation>, base: Distr): Distr
    requires Rooted(st, dels)
  {
    base.(outstanding := base.outstanding + Nothing(Vals(st)),
          commission := base.commission + Nothing(Vals(st)),
          current := base.current + Periods(Vals(st), dels),
          historical := History(Vals(st), dels),
          starting := base.starting + Starts(st, dels),
          slashEvents := map[])
  }

  // ---------------------------------------------------------------------------------------------
  // Validators
  // ---------------------------------------------------------------------------------------------

  ghost function SetOf(vals: seq<Addr>): set<Addr> {
    set v | v in vals
  }

  ghost function FirstKeys(vals: set<Addr>): set<RecordKey> {
    set v | v in vals :: RecordKey(v, 0)
  }

  lemma FillStep<K, V>(m: map<K, V>, k: K, rest: set<K>, all: set<K>, value: V)
    requires all == {k} + rest
    ensures m[k := value] + Fill(rest, value) == m + Fill(all, value)
  {
  }

  lemma {:induction false} ReinitValidatorsResult(vals: seq<Addr>, s: Distr)
    ensures var r := ReinitValidators(vals, s);
            && r.outstanding == s.outstanding + Nothing(SetOf(vals))
            && r.commission == s.commission + Nothing(SetOf(vals))
            && r.current == s.current + Fill(SetOf(vals), CurrentRewards(map[], 1))
            && r.historical == s.historical + Fill(FirstKeys(SetOf(vals)), HistoricalRewards(map[], 1))
            && r.starting == s.starting && r.slashEvents == s.slashEvents && r.withdrawTo == s.withdrawTo
  {
    if vals == [] {
      assert s.historical + Fill({}, HistoricalRewards(map[], 1)) == s.historical;
    } else {
      var v, rest, all := vals[0], SetOf(vals[1..]), SetOf(vals);
      assert all == {v} + rest && FirstKeys(all) == {RecordKey(v, 0)} + FirstKeys(rest);
      ReinitValidatorsResult(vals[1..], ReinitValidator(s, v));
      hide Fill;
      FillStep(s.outstanding, v, rest, all, map[]);
      FillStep(s.commission, v, rest, all, map[]);
      FillStep(s.current, v, rest, all, CurrentRewards(map[], 1));
      FillStep(s.historical, RecordKey(v, 0), FirstKeys(rest), FirstKeys(all), HistoricalRewards(map[], 1));
    }
  }

  lemma FirstHistory(vals: set<Addr>)
    ensures map[] + Fill(FirstKeys(vals), HistoricalRewards(map[], 1)) == History(vals, [])
    ensures Fill(vals, CurrentRewards(map[], 1)) == Periods(vals, [])
  {
    assert forall v :: Delegated([], v) == 0;
  }

  /** The store after all validators are created anew. */
  lemma ValidatorsRebuilt(st: Staking, base: Distr)
    requires SetOf(st.validators.keys) == Vals(st)
    ensures ReinitValidators(st.validators.keys, ClearRecords(base)) ==
            Rebuilt(st, [], base).(
              communityPool := ReinitValidators(st.validators.keys, ClearRecords(base)).communityPool)
  {
    hide ReinitValidators, Fill, History, Periods, FirstKeys;
    ReinitValidatorsResult(st.validators.keys, ClearRecords(base));
    FirstHistory(Vals(st));
    assert base.starting + Starts(st, []) == base.starting;
  }

  // ---------------------------------------------------------------------------------------------
  // Delegations
  // ---------------------------------------------------------------------------------------------

  lemma DelegatedStep(dels: seq<Delegation>, del: Delegation, v: Addr)
    ensures Delegated(dels + [del], v) == Delegated(dels, v) + if del.validator == v then 1 else 0
  {
    assert (dels + [del])[..|dels|] == dels;
  }

  /** Membership and value of one historical record of the closed form. */
  lemma HistoryAt(vals: set<Addr>, dels: seq<Delegation>, v: Addr, p: nat)
    ensures var n := Delegated(dels, v); var h := History(vals, dels);
            && (RecordKey(v, p) in h <==> v in vals && (if n == 0 then 0 else 1) <= p <= n)
            && (RecordKey(v, p) in h ==>
                  h[RecordKey(v, p)] == HistoricalRewards(map[], if 0 < p == n then 2 else 1))
  {
  }

  /** The history that the two hooks produce when v, with n delegations so far, gets one more. */
  ghost function Extended(h: map<RecordKey, HistoricalRewards>, v: Addr, n: nat): map<RecordKey, HistoricalRewards> {
    Ended(h, v, n)[RecordKey(v, n + 1) := HistoricalRewards(map[], 2)]
  }

  /** The same after the first hook only. */
  ghost function Ended(h: map<RecordKey, HistoricalRewards>, v: Addr, n: nat): map<RecordKey, HistoricalRewards> {
    (if n == 0 then h - {RecordKey(v, n)} else h[RecordKey(v, n) := HistoricalRewards(map[], 1)])
      [RecordKey(v, n + 1) := HistoricalRewards(map[], 1)]
  }

  lemma HistoryStep(vals: set<Addr>, dels: seq<Delegation>, del: Delegation)
    requires del.validator in vals
    ensures History(vals, dels + [del]) == Extended(History(vals, dels), del.validator, Delegated(dels, del.validator))
  {
    var h := Extended(History(vals, dels), del.validator, Delegated(dels, del.validator));
    var h' := History(vals, dels + [del]);
    forall k: RecordKey ensures (k in h <==> k in h') && (k in h ==> h[k] == h'[k]) {
      HistoryStepAt(vals, dels, del, k.validator, k.period);
      assert k == RecordKey(k.validator, k.period);
    }
  }

  lemma HistoryStepAt(vals: set<Addr>, dels: seq<Delegation>, del: Delegation, v: Addr, p: nat)
    requires del.validator in vals
    ensures var k := RecordKey(v, p); var h' := History(vals, dels + [del]);
            var h := Extended(History(vals, dels), del.validator, Delegated(dels, del.validator));
            (k in h <==> k in h') && (k in h ==> h[k] == h'[k])
  {
    HistoryAt(vals, dels, v, p);
    HistoryAt(vals, dels + [del], v, p);
    DelegatedStep(dels, del, v);
  }

  lemma PeriodsStep(vals: set<Addr>, dels: seq<Delegation>, del: Delegation, base: map<Addr, CurrentRewards>)
    requires del.validator in vals
    ensures base + Periods(vals, dels + [del]) ==
            (base + Periods(vals, dels))[del.validator := CurrentRewards(map[], Delegated(dels, del.validator) + 2)]
  {
    hide Delegated;
    var v := del.validator;
    var next := CurrentRewards(map[], Delegated(dels, v) + 2);
    assert Periods(vals, dels + [del]) == Periods(vals, dels)[v := next] by {
      assert Periods(vals, dels + [del]).Keys == Periods(vals, dels)[v := next].Keys;
      forall w | w in vals ensures Periods(vals, dels + [del])[w] == Periods(vals, dels)[v := next][w] {
        DelegatedStep(dels, del, w);
      }
    }
    assert base + Periods(vals, dels)[v := next] == (base + Periods(vals, dels))[v := next];
  }

  /** A validator without rewards closes its period without changing anything else. */
  lemma CloseNothing(s: Distr, v: Addr, tokens: nat)
    requires CurrentOf(s, v).rewards == map[]
    requires v in s.outstanding && s.outstanding[v] == map[]
    ensures CloseRewards(s, v, tokens) == Ok((s, map[]))
  {
    if tokens == 0 {
      ZeroIsNeutral(s.communityPool);
      ZeroIsNeutral(map[]);
      assert s.outstanding[v := map[]] == s.outstanding;
    }
  }

  /** A validator as the rebuild leaves it: n delegations so far, no rewards, nothing outstanding. */
  ghost predicate Ready(s: Distr, v: Addr, n: nat) {
    && CurrentOf(s, v) == CurrentRewards(map[], n + 1)
    && RecordOf(s, v, n) == HistoricalRewards(map[], if n == 0 then 1 else 2)
    && v in s.outstanding && s.outstanding[v] == map[]
  }

  lemma RebuiltIsReady(st: Staking, dels: seq<Delegation>, v: Addr, base: Distr)
    requires Rooted(st, dels) && v in Vals(st)
    ensures Ready(Rebuilt(st, dels, base), v, Delegated(dels, v))
  {
    HistoryAt(Vals(st), dels, v, Delegated(dels, v));
  }

  /** Ending a period without rewards, in terms of the fields. */
  lemma EndReady(s: Distr, v: Addr, tokens: nat, n: nat)
    requires Ready(s, v, n)
    ensures IncrementPeriod(s, v, tokens) ==
            Ok(s.(historical := Ended(s.historical, v, n), current := s.current[v := CurrentRewards(map[], n + 2)]))
  {
    CloseNothing(s, v, tokens);
    ZeroIsNeutral(map[]);
  }

  /** Starting a delegation, in terms of the fields. */
  lemma StartReady(s: Distr, val: Validator, del: Delegation, height: int, last: nat)
    requires CurrentOf(s, del.validator).period == last + 1 && 0 < val.delegatorShares
    requires RecordOf(s, del.validator, last) == HistoricalRewards(map[], 1)
    ensures InitializeDelegation(s, val, del, height) ==
            Ok(s.(historical := s.historical[RecordKey(del.validator, last) := HistoricalRewards(map[], 2)],
                  starting := s.starting[KeyOf(del) := StartingInfo(last, StakeOf(val, del.shares), height)]))
  {
  }

  /** Both hooks, in terms of the fields. */
  lemma HooksOnReady(st: Staking, s: Distr, del: Delegation, n: nat)
    requires Ready(s, del.validator, n)
    requires del.validator in Vals(st) && 0 < st.validators.entries[del.validator].delegatorShares
    ensures ReinitDelegation(st, s, del) ==
            Ok(s.(historical := Extended(s.historical, del.validator, n),
                  current := s.current[del.validator := CurrentRewards(map[], n + 2)],
                  starting := s.starting[KeyOf(del) :=
                    StartingInfo(n + 1, StakeOf(st.validators.entries[del.validator], del.shares), 0)]))
  {
    var v := del.validator;
    var val := st.validators.entries[v];
    EndReady(s, v, val.tokens, n);
    var s1 := IncrementPeriod(s, v, val.tokens).value;
    StartReady(s1, val, del, 0, n + 1);
    hide IncrementPeriod, InitializeDelegation;
    EndedTwice(s.historical, v, n);
  }

  lemma EndedTwice(h: map<RecordKey, HistoricalRewards>, v: Addr, n: nat)
    ensures Ended(h, v, n)[RecordKey(v, n + 1) := HistoricalRewards(map[], 2)] == Extended(h, v, n)
  {
  }

  lemma RootedSplit(st: Staking, dels: seq<Delegation>, more: seq<Delegation>)
    requires Rooted(st, dels + more)
    ensures Rooted(st, dels) && Rooted(st, more)
  {
    assert forall e | e in dels || e in more :: e in dels + more;
  }

  lemma StartsStep(st: Staking, dels: seq<Delegation>, del: Delegation, base: map<PairKey, StartingInfo>)
    requires Rooted(st, dels) && Rooted(st, dels + [del])
    requires del.validator in Vals(st) && 0 < st.validators.entries[del.validator].delegatorShares
    ensures base + Starts(st, dels + [del]) ==
            (base + Starts(st, dels))[KeyOf(del) := StartingInfo(Delegated(dels, del.validator) + 1,
                                        StakeOf(st.validators.entries[del.validator], del.shares), 0)]
  {
    assert (dels + [del])[..|dels|] == dels;
    DelegatedStep(dels, del, del.validator);
  }

  /** The fields that one more delegation changes, and that it changes no other. */
  lemma RebuiltStep(st: Staking, dels: seq<Delegation>, del: Delegation, base: Distr)
    requires Rooted(st, dels) && Rooted(st, dels + [del])
    requires del.validator in Vals(st) && 0 < st.validators.entries[del.validator].delegatorShares
    ensures var s := Rebuilt(st, dels, base); var n := Delegated(dels, del.validator);
            Rebuilt(st, dels + [del], base) ==
            s.(historical := Extended(s.historical, del.validator, n),
               current := s.current[del.validator := CurrentRewards(map[], n + 2)],
               starting := s.starting[KeyOf(del) :=
                 StartingInfo(n + 1, StakeOf(st.validators.entries[del.validator], del.shares), 0)])
  {
    HistoryStep(Vals(st), dels, del);
    PeriodsStep(Vals(st), dels, del, base.current);
    StartsStep(st, dels, del, base.starting);
  }

  /** One delegation rebuilt: both hooks succeed and extend the closed form by this delegation. */
  lemma DelegationRebuilt(st: Staking, dels: seq<Delegation>, del: Delegation, base: Distr)
    requires Rooted(st, dels) && Rooted(st, dels + [del])
    requires del.validator in Vals(st) && 0 < st.validators.entries[del.validator].delegatorShares
    ensures ReinitDelegation(st, Rebuilt(st, dels, base), del) == Ok(Rebuilt(st, dels + [del], base))
  {
    hide Rebuilt, ReinitDelegation, Ready;
    RebuiltIsReady(st, dels, del.validator, base);
    HooksOnReady(st, Rebuilt(st, dels, base), del, Delegated(dels, del.validator));
    RebuiltStep(st, dels, del, base);
  }

  /** The delegation loop completes and yields the closed form, after any number of its iterations. */
  lemma {:induction false} DelegationsRebuilt(st: Staking, done: seq<Delegation>, todo: seq<Delegation>, base: Distr)
    requires Rooted(st, done + todo)
    ensures Rooted(st, done)
    ensures ReinitDelegations(st, todo, Rebuilt(st, done, base)) == Ok(Rebuilt(st, done + todo, base))
    decreases |todo|
  {
    RootedSplit(st, done, todo);
    if todo == [] {
      assert done + todo == done;
    } else {
      assert done + todo == done + [todo[0]] + todo[1..];
      RootedSplit(st, done + [todo[0]], todo[1..]);
      assert todo[0] in done + todo;
      DelegationsRebuilt(st, done + [todo[0]], todo[1..], base);
      DelegationRebuilt(st, done, todo[0], base);
    }
  }

  lemma RebuiltPool(st: Staking, dels: seq<Delegation>, s: Distr, pool: Coins)
    requires Rooted(st, dels)
    ensures Rebuilt(st, dels, s.(communityPool := pool)) == Rebuilt(st, dels, s).(communityPool := pool)
  {
  }

  /** A completed delegation loop has met only delegations to validators that exist and have shares. */
  lemma {:induction false} CompletedIsRooted(st: Staking, dels: seq<Delegation>, s: Distr)
    requires ReinitDelegations(st, dels, s).Ok?
    ensures Rooted(st, dels)
  {
    hide IncrementPeriod, IncrementRefs;
    if dels == [] {
    } else {
      CompletedIsRooted(st, dels[1..], ReinitDelegation(st, s, dels[0]).value);
      assert dels == [dels[0]] + dels[1..];
    }
  }

  /**
    From any distribution store the rebuild completes exactly when every delegation is to a validator that exists
    and has shares. Its result is the closed form; the pool is what the validator loop makes of it.
   */
  lemma RebuildResult(st: Staking, s: Distr)
    requires st.validators.Valid()
    ensures Rebuild(st, s).Ok? <==> Rooted(st, st.delegations)
    ensures var r := Rebuild(st, s);
            r.Ok? ==>
              && r.value == Rebuilt(st, st.delegations, s).(communityPool := r.value.communityPool)
              && r.value.communityPool == ReinitValidators(st.validators.keys, ClearRecords(s)).communityPool
  {
    assert Rooted(st, []) && SetOf(st.validators.keys) == Vals(st);
    hide ReinitValidators, ReinitDelegations, Rebuilt, Rooted, ClearRecords;
    var s4 := ReinitValidators(st.validators.keys, ClearRecords(s));
    if ReinitDelegations(st, st.delegations, s4).Ok? {
      CompletedIsRooted(st, st.delegations, s4);
    }
    if Rooted(st, st.delegations) {
      ValidatorsRebuilt(st, s);
      RebuiltPool(st, [], s, s4.communityPool);
      assert [] + st.delegations == st.delegations;
      DelegationsRebuilt(st, [], st.delegations, s.(communityPool := s4.communityPool));
      RebuiltPool(st, st.delegations, s, s4.communityPool);
    }
  }

  // ---------------------------------------------------------------------------------------------
  // Why every validator is created anew before any delegation hook runs
  // ---------------------------------------------------------------------------------------------

  ghost predicate NoRecords(s: Distr, v: Addr) {
    forall p: nat :: RecordKey(v, p) !in s.historical
  }

  lemma HooksPanicWithoutRecords(st: Staking, s: Distr, del: Delegation)
    requires NoRecords(s, del.validator)
    ensures ReinitDelegation(st, s, del).Panic?
  {
  }

  lemma HooksMakeNoOtherRecords(st: Staking, s: Distr, del: Delegation, v: Addr)
    requires NoRecords(s, v) && del.validator != v
    ensures var r := ReinitDelegation(st, s, del); r.Ok? ==> NoRecords(r.value, v)
  {
  }

  lemma {:induction false} ReinitMakesNoOtherRecords(vals: seq<Addr>, s: Distr, v: Addr)
    requires NoRecords(s, v) && v !in vals
    ensures NoRecords(ReinitValidators(vals, s), v)
  {
    if vals == [] {
    } else {
      ReinitMakesNoOtherRecords(vals[1..], ReinitValidator(s, vals[0]), v);
    }
  }

  lemma {:induction false} SkippedValidatorPanics(st: Staking, dels: seq<Delegation>, s: Distr, skipped: Delegation)
    requires skipped in dels && NoRecords(s, skipped.validator)
    ensures ReinitDelegations(st, dels, s).Panic?
  {
    if dels[0].validator == skipped.validator {
      HooksPanicWithoutRecords(st, s, dels[0]);
    } else {
      HooksMakeNoOtherRecords(st, s, dels[0], skipped.validator);
      if ReinitDelegation(st, s, dels[0]).Ok? {
        SkippedValidatorPanics(st, dels[1..], ReinitDelegation(st, s, dels[0]).value, skipped);
      }
    }
  }

  /** The staking store with only these validators. */
  ghost function Restricted(st: Staking, vals: seq<Addr>): Staking
    requires forall v | v in vals :: v in Vals(st)
  {
    st.(validators := Store(vals, map v | v in Vals(st) && v in vals :: st.validators.entries[v]))
  }

  lemma {:induction false} RestrictionInvisible(st: Staking, vals: seq<Addr>, dels: seq<Delegation>, s: Distr)
    requires forall v | v in vals :: v in Vals(st)
    requires forall del | del in dels :: del.validator in vals
    ensures ReinitDelegations(Restricted(st, vals), dels, s) == ReinitDelegations(st, dels, s)
  {
    if dels == [] {
    } else {
      hide IncrementPeriod, InitializeDelegation;
      assert dels[0] in dels;
      var r := ReinitDelegation(st, s, dels[0]);
      if r.Ok? {
        RestrictionInvisible(st, vals, dels[1..], r.value);
      }
    }
  }

  /**
    If only the listed validators were created anew, the delegation loop would complete exactly when every
    delegation is to one of them and that one has shares; so the validator loop must come first and must not skip
    a delegated validator.
   */
  lemma RebuildCompletesIff(st: Staking, vals: seq<Addr>, s: Distr)
    requires forall v | v in vals :: v in Vals(st)
    ensures ReinitDelegations(st, st.delegations, ReinitValidators(vals, ClearRecords(s))).Ok?
            <==> Rooted(st, st.delegations) && forall del | del in st.delegations :: del.validator in vals
  {
    var s4 := ReinitValidators(vals, ClearRecords(s));
    if ReinitDelegations(st, st.delegations, s4).Ok? {
      CompletedIsRooted(st, st.delegations, s4);
      forall del | del in st.delegations ensures del.validator in vals {
        if del.validator !in vals {
          ReinitMakesNoOtherRecords(vals, ClearRecords(s), del.validator);
          SkippedValidatorPanics(st, st.delegations, s4, del);
        }
      }
    }
    if Rooted(st, st.delegations) && forall del | del in st.delegations :: del.validator in vals {
      ListedRebuildCompletes(st, vals, s);
    }
  }

  lemma ListedRebuildCompletes(st: Staking, vals: seq<Addr>, s: Distr)
    requires Rooted(st, st.delegations) && forall v | v in vals :: v in Vals(st)
    requires forall del | del in st.delegations :: del.validator in vals
    ensures ReinitDelegations(st, st.delegations, ReinitValidators(vals, ClearRecords(s))).Ok?
  {
    var s4 := ReinitValidators(vals, ClearRecords(s));
    var st' := Restricted(st, vals);
    assert Rooted(st', st.delegations) && Rooted(st', []);
    assert SetOf(st'.validators.keys) == Vals(st');
    hide ReinitValidators, ReinitDelegations, Rebuilt, Rooted, ClearRecords;
    ValidatorsRebuilt(st', s);
    RebuiltPool(st', [], s, s4.communityPool);
    assert [] + st.delegations == st.delegations;
    DelegationsRebuilt(st', [], st.delegations, s.(communityPool := s4.communityPool));
    RestrictionInvisible(st, vals, st.delegations, s4);
  }
}
