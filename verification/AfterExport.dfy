/**
  What the settled state offers: exact and bounded reference counts, a second run that changes nothing, and
  withdrawals that always go through.
 */
module AfterExport {
  import opened Results
  import opened CoinMath
  import opened Stores
  import opened Distribution
  import opened ZeroHeight
  import opened Conservation
  import opened References
  import opened Payout
  import opened Rebuilding
  import opened Settlement

  // ---------------------------------------------------------------------------------------------
  // Reference counts rebuilt from nothing
  // ---------------------------------------------------------------------------------------------

  lemma FirstTracked(st: Staking, base: Distr)
    ensures Tracked(Vals(st), {}, Rebuilt(st, [], base))
  {
    var s := Rebuilt(st, [], base);
    forall v, p: nat | v in Vals(st)
      ensures Refs(s, v, p) == Expected({}, s, v, p) && (1 <= p ==> Refs(s, v, p) == 0)
    {
      HistoryAt(Vals(st), [], v, p);
      assert Holders({}, s, v, p) == {} && SlashHolders(s, v, p) == {};
    }
  }

  /** The counts are exact for the delegations rebuilt so far, after any number of iterations of the loop. */
  lemma {:induction false} RebuiltTracked(st: Staking, dels: seq<Delegation>, base: Distr)
    requires Rooted(st, dels) && forall i, j | 0 <= i < j < |dels| :: KeyOf(dels[i]) != KeyOf(dels[j])
    ensures Tracked(Vals(st), Keys(dels), Rebuilt(st, dels, base))
  {
    hide Tracked, Rebuilt;
    if dels == [] {
      FirstTracked(st, base);
      assert Keys([]) == {};
    } else {
      var front, last := dels[..|dels| - 1], dels[|dels| - 1];
      assert dels == front + [last] && last in dels;
      RootedSplit(st, front, [last]);
      RebuiltTracked(st, front, base);
      NextTracked(st, front, last, base);
      assert Keys(dels) == Keys(front) + {KeyOf(last)};
    }
  }

  /** Both hooks of the delegation loop keep the counts exact. */
  lemma HooksKeepCounts(st: Staking, keys: set<PairKey>, s: Distr, del: Delegation)
    requires del.validator in Vals(st) && 0 < st.validators.entries[del.validator].delegatorShares
    requires KeyOf(del) !in keys && Tracked(Vals(st), keys, s)
    requires CanClose(s, del.validator, st.validators.entries[del.validator].tokens)
    ensures var r := ReinitDelegation(st, s, del); r.Ok? && Tracked(Vals(st), keys + {KeyOf(del)}, r.value)
  {
    hide IncrementPeriod, InitializeDelegation, Tracked, CanClose;
    var v, val := del.validator, st.validators.entries[del.validator];
    PeriodKeepsCounts(Vals(st), keys, s, v, val.tokens);
    StartKeepsCounts(Vals(st), keys, IncrementPeriod(s, v, val.tokens).value, val, del, 0);
  }

  lemma NextTracked(st: Staking, front: seq<Delegation>, del: Delegation, base: Distr)
    requires Rooted(st, front) && Rooted(st, front + [del])
    requires del.validator in Vals(st) && 0 < st.validators.entries[del.validator].delegatorShares
    requires KeyOf(del) !in Keys(front)
    requires Tracked(Vals(st), Keys(front), Rebuilt(st, front, base))
    ensures Tracked(Vals(st), Keys(front) + {KeyOf(del)}, Rebuilt(st, front + [del], base))
  {
    hide Rebuilt, ReinitDelegation, Tracked, Covers;
    RebuiltIsReady(st, front, del.validator, base);
    ZeroIsNeutral(map[]);
    HooksKeepCounts(st, Keys(front), Rebuilt(st, front, base), del);
    DelegationRebuilt(st, front, del, base);
  }

  /** The sum of all reference counts. */
  ghost function RefTotal(h: map<RecordKey, HistoricalRewards>): nat {
    Sum(RefCounts(h))
  }

  ghost function RefCounts(h: map<RecordKey, HistoricalRewards>): map<RecordKey, nat> {
    map k | k in h :: h[k].refs
  }

  lemma RefTotalUpdate(h: map<RecordKey, HistoricalRewards>, k: RecordKey, r: HistoricalRewards)
    ensures RefTotal(h[k := r]) + (if k in h then h[k].refs else 0) == RefTotal(h) + r.refs
    ensures RefTotal(h - {k}) + (if k in h then h[k].refs else 0) == RefTotal(h)
  {
    SumUpdate(RefCounts(h), k, r.refs);
    assert RefCounts(h[k := r]) == RefCounts(h)[k := r.refs];
    assert RefCounts(h - {k}) == RefCounts(h) - {k};
  }

  lemma {:induction false} FirstTotal(vals: set<Addr>)
    ensures RefTotal(History(vals, [])) == |vals|
    decreases vals
  {
    if vals == {} {
      assert RefCounts(History(vals, [])) == map[];
    } else {
      var v :| v in vals;
      var rest := vals - {v};
      FirstTotal(rest);
      FirstStep(vals, v);
      HistoryAt(rest, [], v, 0);
      hide RefTotal, History;
      RefTotalUpdate(History(rest, []), RecordKey(v, 0), HistoricalRewards(map[], 1));
    }
  }

  lemma FirstStep(vals: set<Addr>, v: Addr)
    requires v in vals
    ensures History(vals, []) == History(vals - {v}, [])[RecordKey(v, 0) := HistoricalRewards(map[], 1)]
  {
    FirstHistory(vals);
    FirstHistory(vals - {v});
    hide History, Periods;
    assert FirstKeys(vals) == FirstKeys(vals - {v}) + {RecordKey(v, 0)};
  }

  lemma NextTotal(h: map<RecordKey, HistoricalRewards>, v: Addr, n: nat)
    requires RecordKey(v, n) in h && h[RecordKey(v, n)].refs == if n == 0 then 1 else 2
    requires RecordKey(v, n + 1) !in h
    ensures RefTotal(Extended(h, v, n)) == RefTotal(h) + 1
  {
    var k, next := RecordKey(v, n), RecordKey(v, n + 1);
    var h1 := if n == 0 then h - {k} else h[k := HistoricalRewards(map[], 1)];
    RefTotalUpdate(h, k, HistoricalRewards(map[], 1));
    assert next !in h1;
    RefTotalUpdate(h1, next, HistoricalRewards(map[], 1));
    RefTotalUpdate(Ended(h, v, n), next, HistoricalRewards(map[], 2));
  }

  /** One reference for every validator and one for every delegation, in any order of the delegations. */
  lemma {:induction false} HistoryTotal(vals: set<Addr>, dels: seq<Delegation>)
    requires forall del | del in dels :: del.validator in vals
    ensures RefTotal(History(vals, dels)) == |vals| + |dels|
  {
    if dels == [] {
      FirstTotal(vals);
    } else {
      var front, last := dels[..|dels| - 1], dels[|dels| - 1];
      assert dels == front + [last] && last in dels;
      HistoryTotal(vals, front);
      HistoryStep(vals, front, last);
      HistoryAt(vals, front, last.validator, Delegated(front, last.validator));
      HistoryAt(vals, front, last.validator, Delegated(front, last.validator) + 1);
      NextTotal(History(vals, front), last.validator, Delegated(front, last.validator));
    }
  }

  lemma SettledTracked(st: Staking, pool: Coins, base: Distr)
    requires DelegationsValid(st)
    ensures Tracked(Vals(st), Keys(st.delegations), Settled(st, pool, base))
  {
    RebuiltTracked(st, st.delegations, base);
    TrackedFrame(Vals(st), Keys(st.delegations), Rebuilt(st, st.delegations, base), Settled(st, pool, base));
  }

  lemma HistoryBounds(vals: set<Addr>, dels: seq<Delegation>)
    ensures forall k | k in History(vals, dels) :: 1 <= History(vals, dels)[k].refs <= 2
  {
    forall k | k in History(vals, dels) ensures 1 <= History(vals, dels)[k].refs <= 2 {
      assert k == RecordKey(k.validator, k.period);
      HistoryAt(vals, dels, k.validator, k.period);
    }
  }

  /** The delegation starts at an existing record that is not after the latest one, which exists too. */
  ghost predicate Anchored(s: Distr, del: Delegation) {
    && KeyOf(del) in s.starting
    && RecordKey(del.validator, s.starting[KeyOf(del)].previousPeriod) in s.historical
    && s.starting[KeyOf(del)].previousPeriod < CurrentOf(s, del.validator).period
    && RecordKey(del.validator, CurrentOf(s, del.validator).period - 1) in s.historical
  }

  lemma TrackedIsAnchored(vals: set<Addr>, keys: set<PairKey>, s: Distr, del: Delegation)
    requires Tracked(vals, keys, s) && KeyOf(del) in keys
    ensures Anchored(s, del)
  {
    HeldRecord(vals, keys, s, KeyOf(del));
    LatestRecord(vals, keys, s, del.validator);
  }

  /**
    The counts after a completed run: they sum to validators plus delegations, every record has one or two
    references, and every delegation starts at height 0 at an existing record.
   */
  lemma SettledCounts(st: Staking, pool: Coins, base: Distr)
    requires DelegationsValid(st)
    ensures var s := Settled(st, pool, base);
            && RefTotal(s.historical) == |st.validators.entries| + |st.delegations|
            && (forall k | k in s.historical :: 1 <= s.historical[k].refs <= 2)
            && (forall del | del in st.delegations :: Anchored(s, del) && s.starting[KeyOf(del)].height == 0)
  {
    var s := Settled(st, pool, base);
    HistoryTotal(Vals(st), st.delegations);
    HistoryBounds(Vals(st), st.delegations);
    SettledTracked(st, pool, base);
    StartsKeys(st, st.delegations);
    forall del | del in st.delegations ensures Anchored(s, del) && s.starting[KeyOf(del)].height == 0 {
      assert KeyOf(del) in Keys(st.delegations);
      StartsHeight(st, st.delegations, KeyOf(del));
      TrackedIsAnchored(Vals(st), Keys(st.delegations), s, del);
    }
  }

  lemma {:induction false} StartsHeight(st: Staking, dels: seq<Delegation>, k: PairKey)
    requires Rooted(st, dels) && k in Starts(st, dels)
    ensures Starts(st, dels)[k].height == 0
  {
    var front, last := dels[..|dels| - 1], dels[|dels| - 1];
    assert dels == front + [last];
    RootedSplit(st, front, [last]);
    assert last in dels;
    if k != KeyOf(last) {
      StartsHeight(st, front, k);
    }
  }

  /** The i-th delegation starts at the record whose number is its rank among the delegations to its validator. */
  lemma {:induction false} StartsAtRank(st: Staking, n: nat, i: nat)
    requires i < n <= |st.delegations|
    requires DelegationsValid(st) && Rooted(st, st.delegations[..n])
    ensures var del := st.delegations[i];
            && del.validator in Vals(st) && 0 < st.validators.entries[del.validator].delegatorShares
            && KeyOf(del) in Starts(st, st.delegations[..n])
            && Starts(st, st.delegations[..n])[KeyOf(del)] ==
               StartingInfo(Delegated(st.delegations[..i + 1], del.validator),
                            StakeOf(st.validators.entries[del.validator], del.shares), 0)
  {
    var front, last := st.delegations[..n - 1], st.delegations[n - 1];
    assert st.delegations[..n] == front + [last];
    RootedSplit(st, front, [last]);
    if i < n - 1 {
      StartsAtRank(st, n - 1, i);
    }
  }

  // ---------------------------------------------------------------------------------------------
  // The settled state is consistent again
  // ---------------------------------------------------------------------------------------------

  lemma SettledConsistent(st: Staking, bank: Bank, pool: Coins, base: Distr)
    requires st.validators.Valid() && DelegationsValid(st) && base.outstanding.Keys <= Vals(st)
    requires Covers(Scale(bank.distrModule), pool)
    ensures Consistent(st, Books(bank, Settled(st, pool, base)))
    ensures pool == Scale(bank.distrModule) ==> Backed(Books(bank, Settled(st, pool, base)))
  {
    hide Tracked, CommissionFunded, Settled, Covers;
    SettledTracked(st, pool, base);
    SettledFunded(st, pool, base);
    SettledSolvent(st, bank, pool, base);
  }

  lemma SettledFunded(st: Staking, pool: Coins, base: Distr)
    requires Rooted(st, st.delegations)
    ensures var s := Settled(st, pool, base);
            forall v | v in Vals(st) :: CommissionFunded(st, s, v)
  {
    hide History, Starts;
    ZeroIsNeutral(map[]);
    forall v | v in Vals(st) ensures CommissionFunded(st, Settled(st, pool, base), v) {
      assert Get(Settled(st, pool, base).commission, v) == map[];
    }
  }

  lemma SettledSolvent(st: Staking, bank: Bank, pool: Coins, base: Distr)
    requires Rooted(st, st.delegations) && base.outstanding.Keys <= Vals(st)
    requires Covers(Scale(bank.distrModule), pool)
    ensures Settled(st, pool, base).outstanding.Keys <= Vals(st)
    ensures Solvent(Books(bank, Settled(st, pool, base)))
    ensures pool == Scale(bank.distrModule) ==> Backed(Books(bank, Settled(st, pool, base)))
  {
    hide History, Starts, Periods;
    forall d
      ensures Gap(Books(bank, Settled(st, pool, base)), d) == ToDec(Amount(bank.distrModule, d)) - Amount(pool, d)
      ensures Amount(pool, d) <= ToDec(Amount(bank.distrModule, d))
    {
      NothingOutstanding(st, base.(communityPool := pool), d);
      assert Amount(pool, d) <= Amount(Scale(bank.distrModule), d);
    }
  }

  // ---------------------------------------------------------------------------------------------
  // Withdrawals from the settled state
  // ---------------------------------------------------------------------------------------------

  /** No validator has anything outstanding or unshared, and no record has accumulated a ratio. */
  ghost predicate Quiet(st: Staking, s: Distr) {
    && (forall v | v in Vals(st) ::
          Get(s.outstanding, v) == map[] && Get(s.commission, v) == map[] && CurrentOf(s, v).rewards == map[])
    && (forall k | k in s.historical :: s.historical[k].ratio == map[])
  }

  lemma SettledQuiet(st: Staking, pool: Coins, base: Distr)
    requires Rooted(st, st.delegations)
    ensures Quiet(st, Settled(st, pool, base))
  {
  }

  /** Reference counting never touches a ratio. */
  lemma QuietDecrement(st: Staking, s: Distr, v: Addr, p: nat)
    requires Quiet(st, s)
    ensures DecrementRefs(s, v, p).Ok? ==> Quiet(st, DecrementRefs(s, v, p).value)
  {
  }

  lemma QuietIncrement(st: Staking, s: Distr, v: Addr, p: nat)
    requires Quiet(st, s)
    ensures IncrementRefs(s, v, p).Ok? ==> Quiet(st, IncrementRefs(s, v, p).value)
  {
  }

  lemma QuietClose(st: Staking, s: Distr, v: Addr, tokens: nat)
    requires Quiet(st, s) && v in Vals(st)
    ensures var r := CloseRewards(s, v, tokens);
            r.Ok? && Quiet(st, r.value.0) && r.value.1 == map[] && r.value.0.communityPool == s.communityPool
  {
    ZeroIsNeutral(map[]);
    ZeroIsNeutral(s.communityPool);
  }

  lemma QuietPeriod(st: Staking, s: Distr, v: Addr, tokens: nat)
    requires Quiet(st, s) && v in Vals(st)
    ensures var r := IncrementPeriod(s, v, tokens);
            r.Ok? ==> Quiet(st, r.value) && r.value.communityPool == s.communityPool
  {
    hide CloseRewards, DecrementRefs, Add, Quiet;
    QuietClose(st, s, v, tokens);
    ZeroIsNeutral(map[]);
    var period, s1 := CurrentOf(s, v).period, CloseRewards(s, v, tokens).value.0;
    if IncrementPeriod(s, v, tokens).Ok? {
      QuietDecrement(st, s1, v, period - 1);
      assert RecordOf(s1, v, period - 1).ratio == map[] by { QuietRecord(st, s1, v, period - 1); }
      QuietPut(st, DecrementRefs(s1, v, period - 1).value, v, period);
    }
  }

  lemma QuietRecord(st: Staking, s: Distr, v: Addr, p: nat)
    requires Quiet(st, s)
    ensures RecordOf(s, v, p).ratio == map[]
  {
  }

  lemma QuietPut(st: Staking, s: Distr, v: Addr, p: nat)
    requires Quiet(st, s)
    ensures Quiet(st, s.(historical := s.historical[RecordKey(v, p) := HistoricalRewards(map[], 1)],
                         current := s.current[v := CurrentRewards(map[], p + 1)]))
  {
  }

  lemma QuietReward(st: Staking, b: Books, del: Delegation, raw: Coins)
    requires Quiet(st, b.distr) && del.validator in Vals(st)
    ensures var r := BookReward(b, del, raw);
            && r.Ok? && r.value.bank == b.bank && Quiet(st, r.value.distr)
            && r.value.distr.communityPool == b.distr.communityPool
  {
    hide Meet, Floor, Fraction, Add, Sub;
    ZeroIsNeutral(map[]);
    ZeroIsNeutral(b.distr.communityPool);
    SameAmounts(Meet(raw, map[]), map[]);
    SameAmounts(Floor(map[]), map[]);
    SameAmounts(Fraction(map[]), map[]);
  }

  lemma QuietRestart(st: Staking, s: Distr, val: Validator, del: Delegation, height: int)
    requires Quiet(st, s)
    ensures var r := RestartDelegation(s, val, del, height);
            r.Ok? ==> Quiet(st, r.value) && r.value.communityPool == s.communityPool
  {
    hide IncrementRefs, DecrementRefs;
    if RestartDelegation(s, val, del, height).Ok? {
      QuietDecrement(st, s, del.validator, s.starting[KeyOf(del)].previousPeriod);
      var s1 := DropStart(s, KeyOf(del)).value;
      QuietIncrement(st, s1, del.validator, CurrentOf(s1, del.validator).period - 1);
    }
  }

  /** Counts are exact and there is nothing to withdraw: what a completed run leaves and withdrawals keep. */
  ghost predicate Calm(st: Staking, s: Distr) {
    Tracked(Vals(st), Keys(st.delegations), s) && Quiet(st, s)
  }

  lemma CalmPeriod(st: Staking, s: Distr, del: Delegation)
    requires Calm(st, s) && DelegationsValid(st) && del in st.delegations
    ensures var v := del.validator; var r := IncrementPeriod(s, v, st.validators.entries[v].tokens);
            && r.Ok? && Calm(st, r.value) && r.value.communityPool == s.communityPool
            && 2 <= CurrentOf(r.value, v).period
            && Refs(r.value, v, CurrentOf(r.value, v).period - 1) == 1
            && KeyOf(del) in r.value.starting
            && r.value.starting[KeyOf(del)].previousPeriod < CurrentOf(r.value, v).period - 1
  {
    hide IncrementPeriod, CountsExact;
    var v, keys, tokens := del.validator, Keys(st.delegations), st.validators.entries[del.validator].tokens;
    assert KeyOf(del) in keys;
    HeldRecord(Vals(st), keys, s, KeyOf(del));
    assert CanClose(s, v, tokens) by { ZeroIsNeutral(Get(s.outstanding, v)); }
    PeriodKeepsCounts(Vals(st), keys, s, v, tokens);
    QuietPeriod(st, s, v, tokens);
  }

  lemma CalmRestart(st: Staking, s: Distr, del: Delegation, height: int)
    requires Calm(st, s) && DelegationsValid(st) && del in st.delegations
    requires 2 <= CurrentOf(s, del.validator).period
    requires Refs(s, del.validator, CurrentOf(s, del.validator).period - 1) == 1
    requires KeyOf(del) in s.starting
    requires s.starting[KeyOf(del)].previousPeriod < CurrentOf(s, del.validator).period - 1
    ensures var r := RestartDelegation(s, st.validators.entries[del.validator], del, height);
            r.Ok? && Calm(st, r.value) && r.value.communityPool == s.communityPool
  {
    hide RestartDelegation, Tracked, Quiet;
    RestartStep(st, s, del, height);
    QuietRestart(st, s, st.validators.entries[del.validator], del, height);
  }

  /** From a calm state a withdrawal at any height fails only if the library refuses, pays nothing and stays calm. */
  lemma CalmWithdrawal(st: Staking, b: Books, del: Delegation, rule: RewardRule, height: int)
    requires Calm(st, b.distr) && DelegationsValid(st) && del in st.delegations
    ensures IncrementPeriod(b.distr, del.validator, st.validators.entries[del.validator].tokens).Ok?
    ensures var r := WithdrawDelegationRewards(st, b, del, rule, height);
            && (r.Ok? <==> Answers(st, b, del, rule))
            && (r.Ok? ==> && Calm(st, r.value.distr) && r.value.bank == b.bank
                          && r.value.distr.communityPool == b.distr.communityPool)
  {
    hide IncrementPeriod, BookReward, RestartDelegation, CountsExact, Quiet;
    assert KeyOf(del) in Keys(st.delegations);
    CalmPeriod(st, b.distr, del);
    var s1 := IncrementPeriod(b.distr, del.validator, st.validators.entries[del.validator].tokens).value;
    if rule(s1, del).Some? {
      var raw := rule(s1, del).value;
      QuietReward(st, Books(b.bank, s1), del, raw);
      var s2 := BookReward(Books(b.bank, s1), del, raw).value.distr;
      TrackedFrame(Vals(st), Keys(st.delegations), s1, s2);
      CalmRestart(st, s2, del, height);
    }
  }

  /** The same for any sequence of withdrawals, in any order, with repetitions, at any heights. */
  lemma {:induction false} CalmWithdrawals(st: Staking, ws: seq<Withdrawal>, b: Books, rule: RewardRule)
    requires Calm(st, b.distr) && DelegationsValid(st) && forall w | w in ws :: w.del in st.delegations
    ensures var r := PayRewards(st, ws, b, rule);
            && (r.Ok? <==> Answered(st, ws, b, rule))
            && (r.Ok? ==> && Calm(st, r.value.distr) && r.value.bank == b.bank
                          && r.value.distr.communityPool == b.distr.communityPool)
  {
    if ws == [] {
    } else {
      hide Calm;
      assert ws[0] in ws;
      CalmWithdrawal(st, b, ws[0].del, rule, ws[0].height);
      var r := WithdrawDelegationRewards(st, b, ws[0].del, rule, ws[0].height);
      if r.Ok? {
        CalmWithdrawals(st, ws[1..], r.value, rule);
      }
    }
  }

  lemma {:induction false} QuietCommissions(st: Staking, vals: seq<Addr>, b: Books)
    requires Quiet(st, b.distr) && forall v | v in vals :: v in Vals(st)
    ensures PayCommissions(vals, b) == Ok(b)
  {
    if vals == [] {
    } else {
      assert vals[0] in Vals(st);
      QuietCommissions(st, vals[1..], b);
    }
  }

  /** The records between which the rewards of a delegation accrue both exist and carry the same ratio. */
  ghost predicate NothingAccrued(s: Distr, del: Delegation) {
    && Anchored(s, del)
    && RecordOf(s, del.validator, s.starting[KeyOf(del)].previousPeriod).ratio
       == RecordOf(s, del.validator, CurrentOf(s, del.validator).period - 1).ratio
  }

  lemma CalmAccrual(st: Staking, s: Distr)
    requires Calm(st, s)
    ensures forall del | del in st.delegations :: NothingAccrued(s, del)
  {
    forall del | del in st.delegations ensures NothingAccrued(s, del) {
      assert KeyOf(del) in Keys(st.delegations);
      TrackedIsAnchored(Vals(st), Keys(st.delegations), s, del);
    }
  }

  lemma SettledCalm(st: Staking, pool: Coins, base: Distr)
    requires DelegationsValid(st)
    ensures Calm(st, Settled(st, pool, base))
  {
    hide Tracked, Quiet, Settled;
    SettledTracked(st, pool, base);
    SettledQuiet(st, pool, base);
  }

  /**
    Everyone can withdraw after any completed run: any sequence of withdrawals, in any order, with repetitions, at
    any heights, fails only if the library refuses a reward; it pays nothing, leaves the pool alone, and no
    delegation has accrued any ratio at any point.
   */
  lemma EveryoneCanWithdraw(st: Staking, b: Books, first: RewardRule, ws: seq<Withdrawal>, rule: RewardRule)
    requires st.validators.Valid() && UniquePairs(st) && SettleDistribution(st, b, first).Ok?
    requires forall w | w in ws :: w.del in st.delegations
    ensures var done := SettleDistribution(st, b, first).value; var r := PayRewards(st, ws, done, rule);
            && (r.Ok? <==> Answered(st, ws, done, rule)) && (AlwaysAnswers(rule) ==> r.Ok?)
            && (r.Ok? ==>
                  && r.value.bank == done.bank
                  && r.value.distr.communityPool == done.distr.communityPool
                  && forall del | del in st.delegations :: NothingAccrued(r.value.distr, del))
  {
    var done := SettleDistribution(st, b, first).value;
    CompletedForm(st, b, first);
    hide Calm, PayRewards, SettleDistribution, Answered, Settled, NothingAccrued, AlwaysAnswers;
    SettledCalm(st, done.distr.communityPool, b.distr);
    CalmWithdrawals(st, ws, done, rule);
    if AlwaysAnswers(rule) {
      TotalRuleAnswers(st, ws, done, rule);
    }
    if PayRewards(st, ws, done, rule).Ok? {
      CalmAccrual(st, PayRewards(st, ws, done, rule).value.distr);
    }
  }

  // ---------------------------------------------------------------------------------------------
  // A second run
  // ---------------------------------------------------------------------------------------------

  lemma OverwriteTwice<K, V>(m: map<K, V>, over: map<K, V>)
    ensures (m + over) + over == m + over
  {
  }

  lemma SettledTwice(st: Staking, pool: Coins, base: Distr)
    requires Rooted(st, st.delegations)
    ensures Settled(st, pool, Settled(st, pool, base)) == Settled(st, pool, base)
  {
    hide Nothing, Periods, Starts, History;
    OverwriteTwice(base.outstanding, Nothing(Vals(st)));
    OverwriteTwice(base.commission, Nothing(Vals(st)));
    OverwriteTwice(base.current, Periods(Vals(st), st.delegations));
    OverwriteTwice(base.starting, Starts(st, st.delegations));
  }

  /** Donating empty scraps leaves the pool as it is. */
  lemma {:induction false} EmptyScraps(vals: seq<Addr>, s: Distr)
    requires forall v | v in vals :: Get(s.outstanding, v) == map[]
    ensures ReinitValidators(vals, s).communityPool == s.communityPool
  {
    if vals == [] {
    } else {
      ZeroIsNeutral(s.communityPool);
      var s1 := ReinitValidator(s, vals[0]);
      assert vals[0] in vals && s1.communityPool == s.communityPool;
      forall v | v in vals[1..] ensures Get(s1.outstanding, v) == map[] {
        assert Get(s.outstanding, v) == map[];
      }
      EmptyScraps(vals[1..], s1);
    }
  }

  lemma CalmScraps(st: Staking, s: Distr)
    requires st.validators.Valid() && Calm(st, s)
    ensures ReinitValidators(st.validators.keys, ClearRecords(s)).communityPool == s.communityPool
  {
    EmptyScraps(st.validators.keys, ClearRecords(s));
  }

  /** A settled state, whatever its pool, is a fixed point of the distribution phases, under any reward rule. */
  lemma SettledIsFixed(st: Staking, bank: Bank, pool: Coins, base: Distr, rule: RewardRule)
    requires st.validators.Valid() && DelegationsValid(st)
    ensures var done := Books(bank, Settled(st, pool, base)); var r := SettleDistribution(st, done, rule);
            && (r.Ok? <==> Answered(st, AtHeight(st.delegations, 0), done, rule))
            && (r.Ok? ==> r.value == done) && (AlwaysAnswers(rule) ==> r == Ok(done))
  {
    var done := Books(bank, Settled(st, pool, base));
    SettledCalm(st, pool, base);
    QuietCommissions(st, st.validators.keys, done);
    CalmWithdrawals(st, AtHeight(st.delegations, 0), done, rule);
    hide Tracked, Quiet, Answered, PayRewards, PayCommissions, Settled, Rebuild, AlwaysAnswers;
    if AlwaysAnswers(rule) {
      TotalRuleAnswers(st, AtHeight(st.delegations, 0), done, rule);
    }
    if PayOut(st, done, rule).Ok? {
      var s := PayOut(st, done, rule).value.distr;
      RebuildResult(st, s);
      CalmScraps(st, s);
      CompletedForm(st, done, rule);
      SettledTwice(st, pool, base);
    }
  }

  /** After any completed run a second one, under any reward rule, changes neither a coin nor a record. */
  lemma SecondRunChangesNothing(st: Staking, b: Books, first: RewardRule, second: RewardRule)
    requires st.validators.Valid() && UniquePairs(st) && SettleDistribution(st, b, first).Ok?
    ensures var done := SettleDistribution(st, b, first).value; var r := SettleDistribution(st, done, second);
            && (r.Ok? <==> Answered(st, AtHeight(st.delegations, 0), done, second))
            && (r.Ok? ==> r.value == done) && (AlwaysAnswers(second) ==> r == Ok(done))
  {
    var done := SettleDistribution(st, b, first).value;
    CompletedForm(st, b, first);
    hide Answered, Settled, SettleDistribution, AlwaysAnswers;
    SettledIsFixed(st, done.bank, done.distr.communityPool, b.distr, second);
  }
}
