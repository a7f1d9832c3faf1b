/** Tables that the application derives from Go maps; they must not depend on the order of iteration. */
module AppTables {
  import opened Stores

  datatype StoreKey = StoreKey(name: string)

  // ---------------------------------------------------------------------------------------------
  // Byte-wise order of names
  // ---------------------------------------------------------------------------------------------

  predicate Less(a: string, b: string) {
    b != [] && (a == [] || a[0] < b[0] || (a[0] == b[0] && Less(a[1..], b[1..])))
  }

  lemma {:induction false} LessIsTotal(a: string, b: string)
    ensures Less(a, b) || a == b || Less(b, a)
    ensures !(Less(a, b) && Less(b, a)) && !Less(a, a)
  {
    if a != [] && b != [] && a[0] == b[0] {
      LessIsTotal(a[1..], b[1..]);
      assert a == [a[0]] + a[1..] && b == [b[0]] + b[1..];
    }
    if a != [] {
      LessIsTotal(a[1..], a[1..]);
    }
  }

  lemma {:induction false} LessIsTransitive(a: string, b: string, c: string)
    requires Less(a, b) && Less(b, c)
    ensures Less(a, c)
  {
    if a != [] && a[0] == b[0] && b[0] == c[0] {
      LessIsTransitive(a[1..], b[1..], c[1..]);
    }
  }

  /** A proper prefix comes first. */
  lemma {:induction false} PrefixIsLess(a: string, b: string)
    requires a < b
    ensures Less(a, b)
  {
    if a == [] {
    } else {
      assert a[0] == b[0];
      PrefixIsLess(a[1..], b[1..]);
    }
  }

  /** The smaller character at the first difference decides. */
  lemma {:induction false} FirstDifferenceDecides(a: string, b: string, i: nat)
    requires i < |a| && i < |b| && a[..i] == b[..i] && a[i] < b[i]
    ensures Less(a, b)
  {
    if 0 < i {
      assert a[..i][0] == a[0] && b[..i][0] == b[0];
      assert a[1..][..i - 1] == a[..i][1..] && b[1..][..i - 1] == b[..i][1..];
      FirstDifferenceDecides(a[1..], b[1..], i - 1);
    }
  }

  /** No later name is before an earlier one: what sorting by name establishes. */
  ghost predicate Sorted(s: seq<StoreKey>) {
    forall i, j | 0 <= i < j < |s| :: !Less(s[j].name, s[i].name)
  }

  lemma HeadIsLeast(s: seq<StoreKey>, t: seq<StoreKey>)
    requires multiset(s) == multiset(t) && Sorted(s) && Sorted(t) && s != []
    ensures t != [] && s[0] == t[0]
  {
    assert s[0] in multiset(t);
    assert t[0] in multiset(s);
    var i :| 0 <= i < |t| && t[i] == s[0];
    var j :| 0 <= j < |s| && s[j] == t[0];
    LessIsTotal(s[0].name, t[0].name);
  }

  /** Sorting by name has one result, whatever the order before. */
  lemma {:induction false} SortedIsUnique(s: seq<StoreKey>, t: seq<StoreKey>)
    requires multiset(s) == multiset(t) && Sorted(s) && Sorted(t)
    ensures s == t
  {
    if s == [] {
      assert |multiset(t)| == 0;
    } else {
      HeadIsLeast(s, t);
      assert s == [s[0]] + s[1..] && t == [t[0]] + t[1..];
      assert multiset(s[1..]) == multiset(s) - multiset{s[0]};
      assert multiset(t[1..]) == multiset(t) - multiset{t[0]};
      SortedIsUnique(s[1..], t[1..]);
    }
  }

  /** Stands for the library sort: some sorted arrangement of the same keys. */
  method SortByName(s: seq<StoreKey>) returns (r: seq<StoreKey>)
    ensures Sorted(r) && multiset(r) == multiset(s)
  {
    r := [];
    for i := 0 to |s|
      invariant Sorted(r) && multiset(r) == multiset(s[..i])
    {
      r := Insert(r, s[i]);
      assert s[..i + 1] == s[..i] + [s[i]];
    }
    assert s[..|s|] == s;
  }

  method Insert(s: seq<StoreKey>, k: StoreKey) returns (r: seq<StoreKey>)
    requires Sorted(s)
    ensures Sorted(r) && multiset(r) == multiset(s) + multiset{k}
  {
    hide Less;
    var n := |s|;
    while 0 < n && Less(k.name, s[n - 1].name)
      invariant 0 <= n <= |s|
      invariant forall i | n <= i < |s| :: Less(k.name, s[i].name)
    {
      n := n - 1;
    }
    r := s[..n] + [k] + s[n..];
    assert s == s[..n] + s[n..];
    if 0 < n {
      NotBeforeAny(s, k, n - 1);
    }
    SortedInsert(s, k, n);
  }

  lemma NotBeforeAny(s: seq<StoreKey>, k: StoreKey, last: nat)
    requires Sorted(s) && last < |s| && !Less(k.name, s[last].name)
    ensures forall i | 0 <= i <= last :: !Less(k.name, s[i].name)
  {
    forall i | 0 <= i <= last ensures !Less(k.name, s[i].name) {
      if i < last && Less(k.name, s[i].name) {
        LessIsTotal(s[i].name, s[last].name);
        if Less(s[i].name, s[last].name) {
          LessIsTransitive(k.name, s[i].name, s[last].name);
        }
      }
    }
  }

  lemma SortedInsert(s: seq<StoreKey>, k: StoreKey, n: nat)
    requires Sorted(s) && n <= |s|
    requires forall i | 0 <= i < n :: !Less(k.name, s[i].name)
    requires forall i | n <= i < |s| :: Less(k.name, s[i].name)
    ensures Sorted(s[..n] + [k] + s[n..])
  {
    var r := s[..n] + [k] + s[n..];
    forall i, j | 0 <= i < j < |r| ensures !Less(r[j].name, r[i].name) {
      if i == n {
        LessIsTotal(k.name, s[j - 1].name);
      }
      hide Less;
      assert r[i] == if i < n then s[i] else if i == n then k else s[i - 1];
      assert r[j] == if j < n then s[j] else if j == n then k else s[j - 1];
    }
  }

  /** Collects the values of the map in any order, then sorts: the sorted arrangement of the keys of the map. */
  method GetStoreKeys(keys: map<string, StoreKey>) returns (r: seq<StoreKey>)
    requires forall n | n in keys :: keys[n].name == n
    ensures Sorted(r)
    ensures multiset(r) == multiset(set n | n in keys :: keys[n])
  {
    r := [];
    var todo := keys.Keys;
    while todo != {}
      invariant todo <= keys.Keys
      invariant multiset(r) == multiset(set n | n in keys && n !in todo :: keys[n])
    {
      var n :| n in todo;
      var done := set m | m in keys && m !in todo :: keys[m];
      assert keys[n] !in done;
      r := r + [keys[n]];
      todo := todo - {n};
      assert (set m | m in keys && m !in todo :: keys[m]) == done + {keys[n]};
    }
    assert (set n | n in keys && n !in todo :: keys[n]) == set n | n in keys :: keys[n];
    r := SortByName(r);
  }

  /** Any two runs over the same map return the same list, and no name occurs twice in it. */
  lemma StoreKeysAreDetermined(keys: map<string, StoreKey>, r: seq<StoreKey>, t: seq<StoreKey>)
    requires Sorted(r) && multiset(r) == multiset(set n | n in keys :: keys[n])
    requires Sorted(t) && multiset(t) == multiset(set n | n in keys :: keys[n])
    ensures r == t
    ensures forall i, j | 0 <= i < j < |r| :: r[i] != r[j]
  {
    SortedIsUnique(r, t);
    forall i, j | 0 <= i < j < |r| ensures r[i] != r[j] {
      assert r == r[..i] + [r[i]] + r[i + 1..j] + [r[j]] + r[j + 1..];
      assert multiset(r) == multiset(r[..i]) + multiset{r[i]} + multiset(r[i + 1..j])
                            + multiset{r[j]} + multiset(r[j + 1..]);
      assert multiset(r)[r[i]] <= 1;
    }
  }

  // ---------------------------------------------------------------------------------------------
  // Module accounts
  // ---------------------------------------------------------------------------------------------

  method GetMaccPerms(maccPerms: map<string, seq<string>>) returns (dup: map<string, seq<string>>)
    ensures dup == maccPerms
  {
    dup := map[];
    var todo := maccPerms.Keys;
    while todo != {}
      invariant todo <= maccPerms.Keys
      invariant dup == map k | k in maccPerms && k !in todo :: maccPerms[k]
    {
      var k :| k in todo;
      dup := dup[k := maccPerms[k]];
      todo := todo - {k};
    }
  }

  /** Every module address is blocked except the one of the governance module, for any order of iteration. */
  method BlockedAddresses(maccPerms: map<string, seq<string>>, addressOf: string -> Addr, gov: string)
    returns (blocked: map<Addr, bool>)
    ensures blocked.Keys == (set acc | acc in maccPerms :: addressOf(acc)) - {addressOf(gov)}
    ensures forall a | a in blocked :: blocked[a]
  {
    blocked := map[];
    var perms := GetMaccPerms(maccPerms);
    var todo := perms.Keys;
    while todo != {}
      invariant todo <= perms.Keys
      invariant blocked.Keys == set acc | acc in perms && acc !in todo :: addressOf(acc)
      invariant forall a | a in blocked :: blocked[a]
    {
      var acc :| acc in todo;
      var before := blocked.Keys;
      blocked := blocked[addressOf(acc) := true];
      todo := todo - {acc};
      assert (set m | m in perms && m !in todo :: addressOf(m)) == before + {addressOf(acc)};
    }
    assert (set acc | acc in perms && acc !in todo :: addressOf(acc)) == set acc | acc in maccPerms :: addressOf(acc);
    blocked := blocked - {addressOf(gov)};
  }
}
