/**
 The pool-deduplicated token totals of open-sse/config/freeModelCatalog.ts, over an
 arbitrary catalogue of non-negative amounts.
 */
module FreeModelTotals {
  datatype FreeType =
    | RecurringDaily | RecurringMonthly | RecurringCredit | RecurringUncapped | OneTimeInitial | Keyless | Discontinued

  /** A catalogue row; an empty pool key is an absent one. */
  datatype Budget = Budget(
    provider: string, monthlyTokens: nat, creditTokens: nat, freeType: FreeType, poolKey: string, avoid: bool)

  /** Which rows a sum counts, and by which amount. */
  datatype Counting = Steady | RecurringCredits | OneTimeCredits

  predicate IsRecurring(t: FreeType) { t.RecurringDaily? || t.RecurringMonthly? || t.Keyless? }

  predicate Counts(c: Counting, m: Budget) {
    match c
    case Steady => IsRecurring(m.freeType)
    case RecurringCredits => m.freeType.RecurringCredit?
    case OneTimeCredits => m.freeType.OneTimeInitial?
  }

  function Amount(c: Counting, m: Budget): nat {
    if c.Steady? then m.monthlyTokens else m.creditTokens
  }

  function Max(a: nat, b: nat): nat { if a < b then b else a }

  // ----- the reference: each pool once, by its maximum -----

  predicate InPool(c: Counting, m: Budget, pool: string) { Counts(c, m) && pool != "" && m.poolKey == pool }

  function Raised(c: Counting, prior: nat, m: Budget, pool: string): nat {
    if InPool(c, m, pool) then Max(prior, Amount(c, m)) else prior
  }

  /** The largest counted amount of the pool. */
  function PoolMax(c: Counting, models: seq<Budget>, pool: string): nat {
    if models == [] then 0
    else
      Raised(c, PoolMax(c, models[..|models| - 1], pool), models[|models| - 1], pool)
  }

  function Pools(c: Counting, models: seq<Budget>): set<string> {
    set m | m in models && InPool(c, m, m.poolKey) :: m.poolKey
  }

  /** The counted amounts of the rows without a pool. */
  function Loose(c: Counting, models: seq<Budget>): nat {
    if models == [] then 0
    else
      var m := models[|models| - 1];
      Loose(c, models[..|models| - 1]) + (if Counts(c, m) && m.poolKey == "" then Amount(c, m) else 0)
  }

  ghost function SumOver(keys: set<string>, value: string -> nat): nat {
    if keys == {} then 0
    else
      var k :| k in keys;
      value(k) + SumOver(keys - {k}, value)
  }

  function MaxOf(c: Counting, models: seq<Budget>): string -> nat {
    (pool: string) => PoolMax(c, models, pool)
  }

  ghost function Total(c: Counting, models: seq<Budget>): nat {
    Loose(c, models) + SumOver(Pools(c, models), MaxOf(c, models))
  }

  /** What one more row changes. */
  lemma RowSnoc(c: Counting, models: seq<Budget>, m: Budget)
    ensures Loose(c, models + [m]) == Loose(c, models) + (if Counts(c, m) && m.poolKey == "" then Amount(c, m) else 0)
    ensures forall pool :: PoolMax(c, models + [m], pool) == Raised(c, PoolMax(c, models, pool), m, pool)
    ensures Pools(c, models + [m]) == Pools(c, models) + (if InPool(c, m, m.poolKey) then {m.poolKey} else {})
  {
  }

  lemma {:induction false} SumRemove(keys: set<string>, value: string -> nat, k: string)
    requires k in keys
    ensures SumOver(keys, value) == value(k) + SumOver(keys - {k}, value)
    decreases |keys|
  {
    var j :| j in keys && SumOver(keys, value) == value(j) + SumOver(keys - {j}, value);
    if j != k {
      SumRemove(keys - {j}, value, k);
      SumRemove(keys - {k}, value, j);
      assert keys - {j} - {k} == keys - {k} - {j};
    }
  }

  /** A smaller set of smaller values has a smaller sum. */
  lemma {:induction false} SumMonotone(keys: set<string>, value: string -> nat, keys': set<string>,
                                       value': string -> nat)
    requires keys <= keys' && forall k :: k in keys ==> value(k) <= value'(k)
    ensures SumOver(keys, value) <= SumOver(keys', value')
    decreases |keys'|
  {
    if keys' != {} {
      var k :| k in keys';
      SumRemove(keys', value', k);
      if k in keys {
        SumRemove(keys, value, k);
        assert keys - {k} <= keys' - {k};
        SumMonotone(keys - {k}, value, keys' - {k}, value');
      } else {
        assert keys <= keys' - {k};
        SumMonotone(keys, value, keys' - {k}, value');
      }
    } else {
      assert keys == {};
    }
  }

  // ----- the code -----

  function MapValue(poolMax: map<string, nat>, pool: string): nat {
    if pool in poolMax then poolMax[pool] else 0
  }

  /** The map and the running sum for the rows read so far. */
  ghost predicate Tracks(c: Counting, models: seq<Budget>, poolMax: map<string, nat>, loose: nat) {
    && poolMax.Keys == Pools(c, models) && loose == Loose(c, models)
    && forall pool :: MapValue(poolMax, pool) == PoolMax(c, models, pool)
  }

  lemma TracksNext(c: Counting, models: seq<Budget>, m: Budget, poolMax: map<string, nat>, loose: nat)
    requires Tracks(c, models, poolMax, loose)
    ensures var raised := Max(MapValue(poolMax, m.poolKey), Amount(c, m));
      if !Counts(c, m) then Tracks(c, models + [m], poolMax, loose)
      else if m.poolKey != "" then Tracks(c, models + [m], poolMax[m.poolKey := raised], loose)
      else Tracks(c, models + [m], poolMax, loose + Amount(c, m))
  {
    RowSnoc(c, models, m);
    if Counts(c, m) && m.poolKey != "" {
      var raised := Max(MapValue(poolMax, m.poolKey), Amount(c, m));
      var next := poolMax[m.poolKey := raised];
      assert next.Keys == poolMax.Keys + {m.poolKey};
      forall pool ensures MapValue(next, pool) == Raised(c, MapValue(poolMax, pool), m, pool) {
      }
    } else {
      forall pool ensures Raised(c, MapValue(poolMax, pool), m, pool) == MapValue(poolMax, pool) {
      }
    }
  }

  method AddValues(start: nat, poolMax: map<string, nat>, ghost value: string -> nat) returns (total: nat)
    requires forall pool :: MapValue(poolMax, pool) == value(pool)
    ensures total == start + SumOver(poolMax.Keys, value)
  {
    total := start;
    var rest := poolMax.Keys;
    while rest != {}
      invariant rest <= poolMax.Keys
      invariant total + SumOver(rest, value) == start + SumOver(poolMax.Keys, value)
      decreases |rest|
    {
      var pool :| pool in rest;
      SumRemove(rest, value, pool);
      assert MapValue(poolMax, pool) == value(pool);
      total := total + poolMax[pool];
      rest := rest - {pool};
    }
  }

  method DedupedSum(c: Counting, models: seq<Budget>) returns (total: nat)
    ensures total == Total(c, models)
  {
    var poolMax: map<string, nat> := map[];
    var loose: nat := 0;
    for i := 0 to |models|
      invariant Tracks(c, models[..i], poolMax, loose)
    {
      var m := models[i];
      TracksNext(c, models[..i], m, poolMax, loose);
      assert models[..i] + [m] == models[..i + 1];
      if !Counts(c, m) { continue; }
      if m.poolKey != "" {
        poolMax := poolMax[m.poolKey := Max(MapValue(poolMax, m.poolKey), Amount(c, m))];
      } else {
        loose := loose + Amount(c, m);
      }
    }
    assert models[..|models|] == models;
    total := AddValues(loose, poolMax, MaxOf(c, models));
  }

  // ----- what the totals are -----

  function Own(c: Counting, m: Budget): nat {
    if Counts(c, m) then Amount(c, m) else 0
  }

  function PlainSum(c: Counting, models: seq<Budget>): nat {
    if models == [] then 0
    else PlainSum(c, models[..|models| - 1]) + Own(c, models[|models| - 1])
  }

  lemma SumSame(keys: set<string>, value: string -> nat, value': string -> nat)
    requires forall k :: k in keys ==> value(k) == value'(k)
    ensures SumOver(keys, value) == SumOver(keys, value')
  {
  }

  lemma {:induction false} EmptyPool(c: Counting, models: seq<Budget>, pool: string)
    requires pool !in Pools(c, models)
    ensures PoolMax(c, models, pool) == 0
  {
    if models == [] {
    } else {
      var init, m := models[..|models| - 1], models[|models| - 1];
      assert models == init + [m];
      RowSnoc(c, init, m);
      EmptyPool(c, init, pool);
    }
  }

  /** A row that joins a pool raises the sum by what it has beyond that pool's maximum. */
  lemma JoiningAPool(c: Counting, models: seq<Budget>, m: Budget)
    requires InPool(c, m, m.poolKey)
    ensures var all, prior := models + [m], PoolMax(c, models, m.poolKey);
      SumOver(Pools(c, all), MaxOf(c, all))
      == SumOver(Pools(c, models), MaxOf(c, models)) + (if Amount(c, m) > prior then Amount(c, m) - prior else 0)
  {
    var all, k := models + [m], m.poolKey;
    var before, after := MaxOf(c, models), MaxOf(c, all);
    var pools, others := Pools(c, models), Pools(c, models) - {k};
    RowSnoc(c, models, m);
    assert Pools(c, all) == pools + {k} && Pools(c, all) - {k} == others;
    SumRemove(Pools(c, all), after, k);
    SumSame(others, before, after);
    if k in pools {
      SumRemove(pools, before, k);
    } else {
      EmptyPool(c, models, k);
      assert others == pools;
    }
  }

  lemma JoiningNoPool(c: Counting, models: seq<Budget>, m: Budget)
    requires !InPool(c, m, m.poolKey)
    ensures SumOver(Pools(c, models + [m]), MaxOf(c, models + [m])) == SumOver(Pools(c, models), MaxOf(c, models))
  {
    RowSnoc(c, models, m);
    assert Pools(c, models + [m]) == Pools(c, models);
    SumSame(Pools(c, models), MaxOf(c, models), MaxOf(c, models + [m]));
  }

  /** The pool maximum is an upper bound of the pool's amounts and one of them. */
  lemma {:induction false} PoolMaxIs(c: Counting, models: seq<Budget>, pool: string)
    ensures forall m :: m in models && InPool(c, m, pool) ==> Amount(c, m) <= PoolMax(c, models, pool)
    ensures PoolMax(c, models, pool) == 0
         || exists m :: m in models && InPool(c, m, pool) && Amount(c, m) == PoolMax(c, models, pool)
  {
    if models == [] {
    } else {
      var init, last := models[..|models| - 1], models[|models| - 1];
      PoolMaxIs(c, init, pool);
      assert forall x :: x in models <==> x in init || x == last;
      if InPool(c, last, pool) && Amount(c, last) >= PoolMax(c, init, pool) {
        assert last in models;
      } else if PoolMax(c, init, pool) != 0 {
        var m :| m in init && InPool(c, m, pool) && Amount(c, m) == PoolMax(c, init, pool);
        assert m in models;
      }
    }
  }

  /** What a sum counts: tokens of the recurring types, or the credits of one type. */
  function Counted(c: Counting, m: Budget): nat {
    match (c, m.freeType)
    case (Steady, RecurringDaily) => m.monthlyTokens
    case (Steady, RecurringMonthly) => m.monthlyTokens
    case (Steady, Keyless) => m.monthlyTokens
    case (RecurringCredits, RecurringCredit) => m.creditTokens
    case (OneTimeCredits, OneTimeInitial) => m.creditTokens
    case _ => 0
  }

  /** The largest counted amount in the pool so far, if any. */
  ghost predicate IsLargest(c: Counting, models: seq<Budget>, pool: string, amount: nat) {
    && (forall m :: m in models && m.poolKey == pool ==> Counted(c, m) <= amount)
    && (amount == 0 || exists m :: m in models && m.poolKey == pool && Counted(c, m) == amount)
  }

  lemma CountedIs(c: Counting, m: Budget)
    ensures Counted(c, m) == if Counts(c, m) then Amount(c, m) else 0
  {
  }

  lemma PoolMaxIsLargest(c: Counting, models: seq<Budget>, pool: string)
    requires pool != ""
    ensures IsLargest(c, models, pool, PoolMax(c, models, pool))
  {
    PoolMaxIs(c, models, pool);
    forall m { CountedIs(c, m); }
  }

  /**
   One more row raises the total by its own amount when it has no pool, and otherwise by what it has beyond
   the largest amount of its pool; no rows make nothing. So the total is determined.
   */
  lemma TotalGrows(c: Counting, models: seq<Budget>, m: Budget) returns (largest: nat)
    ensures m.poolKey != "" ==> IsLargest(c, models, m.poolKey, largest)
    ensures Total(c, models + [m])
         == Total(c, models) + (if m.poolKey == "" then Counted(c, m)
                                else if Counted(c, m) > largest then Counted(c, m) - largest else 0)
    ensures Total(c, []) == 0
  {
    largest := PoolMax(c, models, m.poolKey);
    if m.poolKey != "" { PoolMaxIsLargest(c, models, m.poolKey); }
    CountedIs(c, m);
    assert Loose(c, models + [m])
        == Loose(c, models) + (if Counts(c, m) && m.poolKey == "" then Amount(c, m) else 0) by {
      RowSnoc(c, models, m);
    }
    if InPool(c, m, m.poolKey) {
      JoiningAPool(c, models, m);
    } else {
      JoiningNoPool(c, models, m);
    }
    assert Pools(c, []) == {};
  }

  /** Adding a row raises the total by between nothing and its own counted amount. */
  lemma AddingARow(c: Counting, models: seq<Budget>, m: Budget)
    ensures Total(c, models) <= Total(c, models + [m]) <= Total(c, models) + Own(c, m)
  {
    var _ := TotalGrows(c, models, m);
    CountedIs(c, m);
  }

  lemma {:induction false} TotalAtMostPlainSum(c: Counting, models: seq<Budget>)
    ensures Total(c, models) <= PlainSum(c, models)
  {
    if models != [] {
      var init, m := models[..|models| - 1], models[|models| - 1];
      TotalAtMostPlainSum(c, init);
      AddingARow(c, init, m);
      assert models == init + [m];
    } else {
      assert Pools(c, models) == {};
    }
  }

  // ----- order does not matter -----

  lemma {:induction false} LooseConcat(c: Counting, a: seq<Budget>, b: seq<Budget>)
    ensures Loose(c, a + b) == Loose(c, a) + Loose(c, b)
  {
    if b == [] {
      assert a + b == a;
    } else {
      assert (a + b)[..|a + b| - 1] == a + b[..|b| - 1];
      LooseConcat(c, a, b[..|b| - 1]);
    }
  }

  /** A list without its k-th element. */
  function Without<T>(s: seq<T>, k: nat): seq<T>
    requires k < |s|
  {
    s[..k] + s[k + 1..]
  }

  lemma WithoutMembers<T>(s: seq<T>, k: nat)
    requires k < |s|
    ensures multiset(Without(s, k)) == multiset(s) - multiset{s[k]}
  {
    assert s == s[..k] + [s[k]] + s[k + 1..];
  }

  lemma LooseWithout(c: Counting, models: seq<Budget>, k: nat)
    requires k < |models|
    ensures Loose(c, models) == Loose(c, Without(models, k)) + Loose(c, [models[k]])
  {
    var before, after := models[..k], models[k + 1..];
    assert models == before + ([models[k]] + after);
    LooseConcat(c, before, [models[k]] + after);
    LooseConcat(c, [models[k]], after);
    LooseConcat(c, before, after);
  }

  lemma {:induction false} LooseOfPermutation(c: Counting, a: seq<Budget>, b: seq<Budget>)
    requires multiset(a) == multiset(b)
    ensures Loose(c, a) == Loose(c, b)
    decreases |a|
  {
    if a == [] {
      assert |multiset(b)| == 0;
    } else {
      var n := |a| - 1;
      assert a[n] in multiset(a);
      var k :| 0 <= k < |b| && b[k] == a[n];
      WithoutMembers(a, n);
      WithoutMembers(b, k);
      LooseOfPermutation(c, Without(a, n), Without(b, k));
      LooseWithout(c, a, n);
      LooseWithout(c, b, k);
    }
  }

  /** The order of the catalogue does not matter. */
  lemma TotalOfPermutation(c: Counting, a: seq<Budget>, b: seq<Budget>)
    requires multiset(a) == multiset(b)
    ensures Total(c, a) == Total(c, b)
  {
    assert forall m :: m in a <==> m in b by {
      forall m ensures m in a <==> m in b {
        assert m in a <==> m in multiset(a);
        assert m in b <==> m in multiset(b);
      }
    }
    forall pool ensures PoolMax(c, a, pool) == PoolMax(c, b, pool) {
      PoolMaxIs(c, a, pool);
      PoolMaxIs(c, b, pool);
    }
    LooseOfPermutation(c, a, b);
    assert Pools(c, a) == Pools(c, b);
    SumSame(Pools(c, a), MaxOf(c, a), MaxOf(c, b));
  }

  // ----- the published figures -----

  /** `uncapped` are the providers without a published cap, `boost` what deposits would unlock. */
  datatype Totals = Totals(
    steady: nat, steadyWithCredits: nat, firstMonth: nat, boost: nat, uncapped: set<string>, modelCount: nat,
    poolCount: nat)

  /** The boosts, by pool key, whose pool has a recurring row. */
  function LiveBoosts(boosts: seq<(string, nat)>, live: set<string>): nat {
    if boosts == [] then 0
    else
      var b := boosts[|boosts| - 1];
      LiveBoosts(boosts[..|boosts| - 1], live) + (if b.0 in live then b.1 else 0)
  }

  function Uncapped(models: seq<Budget>): set<string> {
    set m | m in models && m.freeType.RecurringUncapped? :: m.provider
  }

  /** The rows that are not to be avoided. */
  function Allowed(models: seq<Budget>): seq<Budget> {
    if models == [] then []
    else
      var m := models[|models| - 1];
      Allowed(models[..|models| - 1]) + (if m.avoid then [] else [m])
  }

  ghost function TotalsOf(models: seq<Budget>, boosts: seq<(string, nat)>): Totals {
    var steady, live := Total(Steady, models), Pools(Steady, models);
    var withCredits := steady + Total(RecurringCredits, models);
    Totals(steady, withCredits, withCredits + Total(OneTimeCredits, models),
           LiveBoosts(boosts, live), Uncapped(models), |models|, |live|)
  }

  /** The pools with a recurring row. */
  function LivePools(models: seq<Budget>): set<string> {
    set m | m in models && m.freeType in {RecurringDaily, RecurringMonthly, Keyless} && m.poolKey != "" :: m.poolKey
  }

  lemma LivePoolsAre(models: seq<Budget>)
    ensures Pools(Steady, models) == LivePools(models)
  {
  }

  /** `computeFreeModelTotals`, its figures. */
  method ComputeFreeModelTotals(catalogue: seq<Budget>, boosts: seq<(string, nat)>, excludeAvoid: bool)
    returns (t: Totals)
    ensures t == TotalsOf(if excludeAvoid then Allowed(catalogue) else catalogue, boosts)
    ensures var models := if excludeAvoid then Allowed(catalogue) else catalogue;
      && t.steady == Total(Steady, models) && t.steadyWithCredits == t.steady + Total(RecurringCredits, models)
      && t.firstMonth == t.steadyWithCredits + Total(OneTimeCredits, models) && t.modelCount == |models|
      && t.poolCount == |LivePools(models)| && t.boost == LiveBoosts(boosts, LivePools(models))
      && t.uncapped == set m | m in models && m.freeType == RecurringUncapped :: m.provider
  {
    LivePoolsAre(if excludeAvoid then Allowed(catalogue) else catalogue);
    var models := if excludeAvoid then Allowed(catalogue) else catalogue;
    var steady := DedupedSum(Steady, models);
    var recurringCredits := DedupedSum(RecurringCredits, models);
    var oneTimeCredits := DedupedSum(OneTimeCredits, models);
    var withCredits := steady + recurringCredits;
    var live := Pools(Steady, models);
    t := Totals(steady, withCredits, withCredits + oneTimeCredits,
                LiveBoosts(boosts, live), Uncapped(models), |models|, |live|);
  }

  lemma {:induction false} AllowedAreRows(models: seq<Budget>)
    ensures forall m :: m in Allowed(models) ==> m in models
  {
    if models == [] {
    } else {
      AllowedAreRows(models[..|models| - 1]);
      assert models == models[..|models| - 1] + [models[|models| - 1]];
    }
  }

  /** The rows at the places. */
  ghost predicate Picks(kept: seq<Budget>, models: seq<Budget>, places: seq<nat>) {
    && |kept| == |places| && (forall p, q :: 0 <= p < q < |places| ==> places[p] < places[q])
    && forall p :: 0 <= p < |places| ==> places[p] < |models| && kept[p] == models[places[p]]
  }

  lemma PicksNext(kept: seq<Budget>, all: seq<Budget>, places: seq<nat>, n: nat)
    requires Picks(kept, all, places) && n < |all| && forall i :: i in places ==> i < n
    ensures Picks(kept + [all[n]], all, places + [n])
    ensures forall i :: i in places + [n] <==> i in places || i == n
  {
    forall p | 0 <= p < |places| ensures places[p] < n {
      assert places[p] in places;
    }
  }

  lemma AllowedNext(models: seq<Budget>, n: nat)
    requires n < |models|
    ensures Allowed(models[..n + 1])
         == if models[n].avoid then Allowed(models[..n]) else Allowed(models[..n]) + [models[n]]
  {
    assert models[..n + 1][..n] == models[..n];
  }

  lemma AllowedNextAt(models: seq<Budget>, n: nat, places: seq<nat>) returns (next: seq<nat>)
    requires n < |models| && Picks(Allowed(models[..n]), models, places)
    requires forall i :: i in places <==> 0 <= i < n && !models[i].avoid
    ensures Picks(Allowed(models[..n + 1]), models, next)
    ensures forall i :: i in next <==> 0 <= i < n + 1 && !models[i].avoid
  {
    AllowedNext(models, n);
    next := places;
    if !models[n].avoid {
      PicksNext(Allowed(models[..n]), models, places, n);
      next := places + [n];
    }
  }

  /** Exactly the rows to avoid are left out; the others stay in order. */
  lemma AllowedAt(models: seq<Budget>) returns (places: seq<nat>)
    ensures Picks(Allowed(models), models, places)
    ensures forall i :: i in places <==> 0 <= i < |models| && !models[i].avoid
  {
    places := [];
    for n := 0 to |models|
      invariant Picks(Allowed(models[..n]), models, places)
      invariant forall i :: i in places <==> 0 <= i < n && !models[i].avoid
    {
      places := AllowedNextAt(models, n, places);
    }
    assert models[..|models|] == models;
  }

  /** One more boost counts when its pool is live. */
  lemma BoostsGrow(boosts: seq<(string, nat)>, pool: string, tokens: nat, live: set<string>)
    ensures LiveBoosts(boosts + [(pool, tokens)], live)
         == LiveBoosts(boosts, live) + (if pool in live then tokens else 0)
    ensures LiveBoosts([], live) == 0
  {
    assert (boosts + [(pool, tokens)])[..|boosts|] == boosts;
  }

  /** Dropping rows lowers the loose amounts, or leaves them. */
  lemma {:induction false} ExcludingLowersLoose(c: Counting, models: seq<Budget>)
    ensures Loose(c, Allowed(models)) <= Loose(c, models)
  {
    if models == [] {
    } else {
      var init, m := models[..|models| - 1], models[|models| - 1];
      ExcludingLowersLoose(c, init);
      LooseConcat(c, Allowed(init), if m.avoid then [] else [m]);
      LooseConcat(c, init, [m]);
      assert models == init + [m];
    }
  }

  lemma ExcludingLowersTotal(c: Counting, models: seq<Budget>)
    ensures Total(c, Allowed(models)) <= Total(c, models)
  {
    var kept := Allowed(models);
    AllowedAreRows(models);
    forall pool ensures PoolMax(c, kept, pool) <= PoolMax(c, models, pool) {
      PoolMaxIs(c, kept, pool);
      PoolMaxIs(c, models, pool);
    }
    ExcludingLowersLoose(c, models);
    SumMonotone(Pools(c, kept), MaxOf(c, kept), Pools(c, models), MaxOf(c, models));
  }

  lemma {:induction false} LiveBoostsMonotone(boosts: seq<(string, nat)>, live: set<string>, live': set<string>)
    requires live <= live'
    ensures LiveBoosts(boosts, live) <= LiveBoosts(boosts, live')
  {
    if boosts == [] {
    } else {
      LiveBoostsMonotone(boosts[..|boosts| - 1], live, live');
    }
  }

  lemma SubsetIsSmaller<T>(a: set<T>, b: set<T>)
    requires a <= b
    ensures |a| <= |b|
  {
    assert b == a + (b - a);
  }

  lemma {:induction false} AllowedIsShorter(models: seq<Budget>)
    ensures |Allowed(models)| <= |models|
  {
    if models == [] {
    } else {
      AllowedIsShorter(models[..|models| - 1]);
    }
  }

  /** Leaving out the rows to avoid raises none of the figures, and the figures only grow from one to the next. */
  lemma ExcludingRaisesNothing(models: seq<Budget>, boosts: seq<(string, nat)>)
    ensures var all, kept := TotalsOf(models, boosts), TotalsOf(Allowed(models), boosts);
      && kept.steady <= all.steady && kept.steadyWithCredits <= all.steadyWithCredits
          && kept.firstMonth <= all.firstMonth
      && kept.boost <= all.boost && kept.uncapped <= all.uncapped
      && kept.modelCount <= all.modelCount && kept.poolCount <= all.poolCount
      && all.steady <= all.steadyWithCredits <= all.firstMonth
  {
    ExcludingLowersTotal(Steady, models);
    ExcludingLowersTotal(RecurringCredits, models);
    ExcludingLowersTotal(OneTimeCredits, models);
    AllowedAreRows(models);
    AllowedIsShorter(models);
    assert Pools(Steady, Allowed(models)) <= Pools(Steady, models);
    LiveBoostsMonotone(boosts, Pools(Steady, Allowed(models)), Pools(Steady, models));
    SubsetIsSmaller(Pools(Steady, Allowed(models)), Pools(Steady, models));
  }
}
