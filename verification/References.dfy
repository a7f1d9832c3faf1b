/**
  Reference counting of historical records. A record is referenced by the current period of its validator when
  it is the latest one, by every delegation that started at it, and by every slash event that ended at it.
 */
module References {
  import opened CoinMath
  import opened Stores
  import opened Distribution

  ghost function Holders(keys: set<PairKey>, s: Distr, v: Addr, p: nat): set<PairKey> {
    set k | k in keys && k in s.starting && k.validator == v && s.starting[k].previousPeriod == p
  }

  ghost function SlashHolders(s: Distr, v: Addr, p: nat): set<SlashKey> {
    set e | e in s.slashEvents && e.validator == v && e.period == p
  }

  /** The reference count that the holders of a record justify. */
  ghost function Expected(keys: set<PairKey>, s: Distr, v: Addr, p: nat): nat {
    (if CurrentOf(s, v).period == p + 1 then 1 else 0) + |Holders(keys, s, v, p)| + |SlashHolders(s, v, p)|
  }

  /** Every validator has a period, every count is exact, and no record lies in the future. */
  ghost predicate CountsExact(vals: set<Addr>, keys: set<PairKey>, s: Distr) {
    && (forall v | v in vals :: 1 <= CurrentOf(s, v).period)
    && (forall v, p: nat | v in vals :: Refs(s, v, p) == Expected(keys, s, v, p))
    && (forall v, p: nat | v in vals && CurrentOf(s, v).period <= p :: Refs(s, v, p) == 0)
  }

  /** The delegations in keys each have a starting info, and the counts are exact for them. */
  ghost predicate Tracked(vals: set<Addr>, keys: set<PairKey>, s: Distr) {
    && CountsExact(vals, keys, s)
    && (forall k | k in keys :: k in s.starting && k.validator in vals)
  }

  /** The rewards of a validator without tokens can leave its outstanding rewards. */
  ghost predicate CanClose(s: Distr, v: Addr, tokens: nat) {
    tokens == 0 ==> Covers(Get(s.outstanding, v), CurrentOf(s, v).rewards)
  }

  lemma HeldRecord(vals: set<Addr>, keys: set<PairKey>, s: Distr, k: PairKey)
    requires Tracked(vals, keys, s) && k in keys
    ensures 1 <= Refs(s, k.validator, s.starting[k].previousPeriod)
    ensures s.starting[k].previousPeriod < CurrentOf(s, k.validator).period
  {
    var p := s.starting[k].previousPeriod;
    assert k in Holders(keys, s, k.validator, p);
    assert Refs(s, k.validator, p) == Expected(keys, s, k.validator, p);
  }

  lemma LatestRecord(vals: set<Addr>, keys: set<PairKey>, s: Distr, v: Addr)
    requires CountsExact(vals, keys, s) && v in vals
    ensures 1 <= Refs(s, v, CurrentOf(s, v).period - 1)
  {
    var p: nat := CurrentOf(s, v).period - 1;
    assert Refs(s, v, p) == Expected(keys, s, v, p);
  }

  lemma DecrementOne(s: Distr, v: Addr, p: nat)
    ensures DecrementRefs(s, v, p).Ok? <==> 0 < Refs(s, v, p)
    ensures var r := DecrementRefs(s, v, p);
            r.Ok? ==> && Refs(r.value, v, p) == Refs(s, v, p) - 1
                      && forall w, q: nat | w != v || q != p :: RecordOf(r.value, w, q) == RecordOf(s, w, q)
  {
  }

  lemma IncrementOne(s: Distr, v: Addr, p: nat)
    ensures IncrementRefs(s, v, p).Ok? <==> Refs(s, v, p) <= 2
    ensures var r := IncrementRefs(s, v, p);
            r.Ok? ==> && Refs(r.value, v, p) == Refs(s, v, p) + 1
                      && forall w, q: nat | w != v || q != p :: RecordOf(r.value, w, q) == RecordOf(s, w, q)
  {
  }

  /** What IncrementPeriod does to one store, in terms of reads. */
  lemma PeriodStep(s: Distr, v: Addr, tokens: nat)
    requires 1 <= CurrentOf(s, v).period && CanClose(s, v, tokens)
    requires 0 < Refs(s, v, CurrentOf(s, v).period - 1)
    ensures var period := CurrentOf(s, v).period; var r := IncrementPeriod(s, v, tokens);
            && r.Ok?
            && r.value.starting == s.starting && r.value.slashEvents == s.slashEvents
            && CurrentOf(r.value, v) == CurrentRewards(map[], period + 1)
            && (forall w | w != v :: CurrentOf(r.value, w) == CurrentOf(s, w))
            && Refs(r.value, v, period) == 1
            && Refs(r.value, v, period - 1) == Refs(s, v, period - 1) - 1
            && forall w, q: nat | w != v || (q != period && q != period - 1) ::
              RecordOf(r.value, w, q) == RecordOf(s, w, q)
  {
    var period := CurrentOf(s, v).period;
    assert CloseRewards(s, v, tokens).Ok?;
    hide CloseRewards, DecrementRefs, Add;
    var (s1, ratio) := CloseRewards(s, v, tokens).value;
    DecrementOne(s1, v, period - 1);
    var s2 := DecrementRefs(s1, v, period - 1).value;
    var record := HistoricalRewards(Add(RecordOf(s1, v, period - 1).ratio, ratio), 1);
    PutRecord(s2, v, period, record);
    var s' := IncrementPeriod(s, v, tokens).value;
    assert s'.historical == s2.historical[RecordKey(v, period) := record];
  }

  lemma PutRecord(s: Distr, v: Addr, p: nat, record: HistoricalRewards)
    ensures forall s': Distr | s'.historical == s.historical[RecordKey(v, p) := record] ::
              && RecordOf(s', v, p) == record
              && forall w, q: nat | w != v || q != p :: RecordOf(s', w, q) == RecordOf(s, w, q)
  {
  }

  /** Ending a period never meets a zero count and keeps every count exact. */
  lemma PeriodKeepsCounts(vals: set<Addr>, keys: set<PairKey>, s: Distr, v: Addr, tokens: nat)
    requires Tracked(vals, keys, s) && v in vals && CanClose(s, v, tokens)
    ensures var r := IncrementPeriod(s, v, tokens);
            && r.Ok? && Tracked(vals, keys, r.value)
            && CurrentOf(r.value, v) == CurrentRewards(map[], CurrentOf(s, v).period + 1)
            && Refs(r.value, v, CurrentOf(s, v).period) == 1
  {
    LatestRecord(vals, keys, s, v);
    PeriodStep(s, v, tokens);
    var s' := IncrementPeriod(s, v, tokens).value;
    var period := CurrentOf(s, v).period;
    forall w, p: nat | w in vals ensures Refs(s', w, p) == Expected(keys, s', w, p) {
      assert Refs(s, w, p) == Expected(keys, s, w, p);
      assert Holders(keys, s', w, p) == Holders(keys, s, w, p);
      assert SlashHolders(s', w, p) == SlashHolders(s, w, p);
    }
    forall w, p: nat | w in vals && CurrentOf(s', w).period <= p ensures Refs(s', w, p) == 0 {
      assert RecordOf(s', w, p) == RecordOf(s, w, p);
      assert Refs(s, w, p) == 0;
    }
  }

  /** Dropping a tracked delegation never meets a zero count and leaves the others exact. */
  lemma DropKeepsCounts(vals: set<Addr>, keys: set<PairKey>, s: Distr, k: PairKey)
    requires Tracked(vals, keys, s) && k in keys
    ensures var r := DropStart(s, k);
            && r.Ok? && Tracked(vals, keys - {k}, r.value)
            && forall p: nat | p != s.starting[k].previousPeriod ::
              Refs(r.value, k.validator, p) == Refs(s, k.validator, p)
  {
    HeldRecord(vals, keys, s, k);
    var start := s.starting[k].previousPeriod;
    DecrementOne(s, k.validator, start);
    var s' := DropStart(s, k).value;
    assert forall w, q: nat :: RecordOf(s', w, q) == RecordOf(DecrementRefs(s, k.validator, start).value, w, q);
    forall w, p: nat | w in vals ensures Refs(s', w, p) == Expected(keys - {k}, s', w, p) {
      assert Refs(s, w, p) == Expected(keys, s, w, p);
      assert Holders(keys - {k}, s', w, p) == Holders(keys, s, w, p) - {k};
      assert k in Holders(keys, s, w, p) <==> (w, p) == (k.validator, start);
      assert SlashHolders(s', w, p) == SlashHolders(s, w, p);
    }
    forall w, p: nat | w in vals && CurrentOf(s', w).period <= p ensures Refs(s', w, p) == 0 {
      assert Refs(s, w, p) == 0;
    }
  }

  /** What InitializeDelegation does to one store, in terms of reads. */
  lemma StartStep(s: Distr, val: Validator, del: Delegation, height: int)
    requires 1 <= CurrentOf(s, del.validator).period && 0 < val.delegatorShares
    requires Refs(s, del.validator, CurrentOf(s, del.validator).period - 1) <= 2
    ensures var last := CurrentOf(s, del.validator).period - 1; var r := InitializeDelegation(s, val, del, height);
            && r.Ok?
            && r.value.current == s.current && r.value.slashEvents == s.slashEvents
            && r.value.starting == s.starting[KeyOf(del) := StartingInfo(last, StakeOf(val, del.shares), height)]
            && Refs(r.value, del.validator, last) == Refs(s, del.validator, last) + 1
            && forall w, q: nat | w != del.validator || q != last :: RecordOf(r.value, w, q) == RecordOf(s, w, q)
  {
    var last: nat := CurrentOf(s, del.validator).period - 1;
    IncrementOne(s, del.validator, last);
    var s1 := IncrementRefs(s, del.validator, last).value;
    var s' := InitializeDelegation(s, val, del, height).value;
    forall w, q: nat ensures RecordOf(s', w, q) == RecordOf(s1, w, q) {
      assert s'.historical == s1.historical;
    }
  }

  lemma HoldersAfterStart(keys: set<PairKey>, s: Distr, s': Distr, k: PairKey, info: StartingInfo, w: Addr, p: nat)
    requires k !in keys && s'.starting == s.starting[k := info]
    ensures Holders(keys + {k}, s', w, p) ==
            Holders(keys, s, w, p) + if w == k.validator && p == info.previousPeriod then {k} else {}
  {
    var here := w == k.validator && p == info.previousPeriod;
    forall j ensures j in Holders(keys + {k}, s', w, p) <==> j in Holders(keys, s, w, p) || (here && j == k) {
      if j == k {
        assert s'.starting[j] == info;
      } else {
        assert j in keys + {k} <==> j in keys;
        assert j in s'.starting <==> j in s.starting;
      }
    }
  }

  lemma ExpectedAfterStart(keys: set<PairKey>, s: Distr, s': Distr, k: PairKey, info: StartingInfo, w: Addr, p: nat)
    requires k !in keys && s'.starting == s.starting[k := info]
    requires s'.current == s.current && s'.slashEvents == s.slashEvents
    ensures Expected(keys + {k}, s', w, p) ==
            Expected(keys, s, w, p) + if w == k.validator && p == info.previousPeriod then 1 else 0
  {
    HoldersAfterStart(keys, s, s', k, info, w, p);
    assert k !in Holders(keys, s, w, p);
    assert SlashHolders(s', w, p) == SlashHolders(s, w, p);
    assert CurrentOf(s', w) == CurrentOf(s, w);
  }

  /** Starting a delegation at a fresh latest record keeps every count exact. */
  lemma StartKeepsCounts(vals: set<Addr>, keys: set<PairKey>, s: Distr, val: Validator, del: Delegation, height: int)
    requires Tracked(vals, keys, s) && KeyOf(del) !in keys && del.validator in vals
    requires 0 < val.delegatorShares && Refs(s, del.validator, CurrentOf(s, del.validator).period - 1) <= 2
    ensures var r := InitializeDelegation(s, val, del, height);
            && r.Ok? && Tracked(vals, keys + {KeyOf(del)}, r.value)
  {
    var k := KeyOf(del);
    var last: nat := CurrentOf(s, del.validator).period - 1;
    StartStep(s, val, del, height);
    var s' := InitializeDelegation(s, val, del, height).value;
    forall w, p: nat | w in vals ensures Refs(s', w, p) == Expected(keys + {k}, s', w, p) {
      assert Refs(s, w, p) == Expected(keys, s, w, p);
      ExpectedAfterStart(keys, s, s', k, s'.starting[k], w, p);
    }
    forall w, p: nat | w in vals && CurrentOf(s', w).period <= p ensures Refs(s', w, p) == 0 {
      assert RecordOf(s', w, p) == RecordOf(s, w, p);
      assert Refs(s, w, p) == 0;
    }
  }
}
