/** Global concordance: the weighted share of criteria on which one entity is
    at least as good as another, for both orientations of every item × profile pair. */
module GlobalConcordance {
  import opened ElectreData
  import opened PairTables
  import opened PartialConcordance

  /** entity -> other entity -> global concordance index */
  type GlobalTable = Table<real>

  /** w[0] + … + w[n-1], accumulated from the left as Python's `sum` does. */
  function WeightSum(w: seq<real>, n: nat): real
    requires n <= |w|
  {
    if n == 0 then 0.0 else WeightSum(w, n - 1) + w[n - 1]
  }

  /** The sum of all the weights: the divisor of every global index. */
  function Total(w: seq<real>): real
  {
    WeightSum(w, |w|)
  }

  /** Criteria 0 … n-1 all have a partial value for the ordered pair (x, y). */
  ghost predicate HasEntries(c: PartialTable, n: nat, x: Name, y: Name)
  {
    forall j: nat :: j < n ==> j in c && x in c[j] && y in c[j][x]
  }

  /** Every item × profile pair has its partial values, in both orientations. */
  ghost predicate Covers(c: PartialTable, n: nat, items: Entities, profiles: Entities)
  {
    forall h, b :: h in items.vectors && b in profiles.vectors ==> HasEntries(c, n, h, b) && HasEntries(c, n, b, h)
  }

  /** w[0]·c[0][x][y] + … + w[n-1]·c[n-1][x][y], accumulated from the left. */
  function WeightedConcordance(w: seq<real>, c: PartialTable, n: nat, x: Name, y: Name): real
    requires n <= |w| && HasEntries(c, n, x, y)
  {
    if n == 0 then 0.0 else WeightedConcordance(w, c, n - 1, x, y) + w[n - 1] * (c[n - 1][x][y] as real)
  }

  ghost predicate NonNegative(w: seq<real>)
  {
    forall i :: 0 <= i < |w| ==> w[i] >= 0.0
  }

  /** Every partial value of the ordered pair (x, y) is 0 or 1. */
  ghost predicate Binary(c: PartialTable, n: nat, x: Name, y: Name)
    requires HasEntries(c, n, x, y)
  {
    forall j: nat :: j < n ==> c[j][x][y] == 0 || c[j][x][y] == 1
  }

  lemma {:induction false} WeightSumNonNegative(w: seq<real>, n: nat)
    requires n <= |w| && NonNegative(w)
    ensures WeightSum(w, n) >= 0.0
  {
    if n > 0 {
      WeightSumNonNegative(w, n - 1);
    }
  }

  /** With non-negative weights, a longer prefix never weighs less. */
  lemma {:induction false} WeightSumMonotone(w: seq<real>, n: nat, m: nat)
    requires n <= m <= |w| && NonNegative(w)
    ensures WeightSum(w, n) <= WeightSum(w, m)
  {
    if n < m {
      WeightSumMonotone(w, n, m - 1);
    }
  }

  /** A weighted count of 0/1 values lies between nothing and the sum of the weights. */
  lemma {:induction false} WeightedConcordanceBounds(w: seq<real>, c: PartialTable, n: nat, x: Name, y: Name)
    requires n <= |w| && HasEntries(c, n, x, y)
    requires NonNegative(w) && Binary(c, n, x, y)
    ensures 0.0 <= WeightedConcordance(w, c, n, x, y) <= WeightSum(w, n)
  {
    if n > 0 {
      WeightedConcordanceBounds(w, c, n - 1, x, y);
      assert c[n - 1][x][y] == 0 || c[n - 1][x][y] == 1;
    }
  }

  /** With non-negative weights and a non-zero total, a global index lies in [0, 1]. */
  lemma GlobalIndexInUnitInterval(w: seq<real>, c: PartialTable, n: nat, x: Name, y: Name)
    requires n <= |w| && HasEntries(c, n, x, y)
    requires NonNegative(w) && Total(w) != 0.0 && Binary(c, n, x, y)
    ensures 0.0 <= GlobalIndex(w, c, n, x, y) <= 1.0
  {
    WeightedConcordanceBounds(w, c, n, x, y);
    WeightSumMonotone(w, n, |w|);
    WeightSumNonNegative(w, n);
    var a, t := WeightedConcordance(w, c, n, x, y), Total(w);
    assert 0.0 <= a <= t && t > 0.0;
    var q := a / t;
    assert q * t == a;
    assert q > 1.0 ==> (q - 1.0) * t > 0.0;
    assert q < 0.0 ==> (0.0 - q) * t > 0.0;
  }

  /** When x concords with y on every criterion, the weighted count is the sum of the weights. */
  lemma {:induction false} AllConcordant(w: seq<real>, c: PartialTable, n: nat, x: Name, y: Name)
    requires n <= |w| && HasEntries(c, n, x, y)
    requires forall j: nat :: j < n ==> c[j][x][y] == 1
    ensures WeightedConcordance(w, c, n, x, y) == WeightSum(w, n)
  {
    if n > 0 {
      AllConcordant(w, c, n - 1, x, y);
    }
  }

  /** …so with every criterion counted the global index is 1. */
  lemma AllConcordantIndexIsOne(w: seq<real>, c: PartialTable, x: Name, y: Name)
    requires HasEntries(c, |w|, x, y) && Total(w) != 0.0
    requires forall j: nat :: j < |w| ==> c[j][x][y] == 1
    ensures GlobalIndex(w, c, |w|, x, y) == 1.0
  {
    AllConcordant(w, c, |w|, x, y);
    assert GlobalIndex(w, c, |w|, x, y) == Total(w) / Total(w);
  }

  /** When x concords with y on no criterion, the weighted count is 0. */
  lemma {:induction false} NoneConcordant(w: seq<real>, c: PartialTable, n: nat, x: Name, y: Name)
    requires n <= |w| && HasEntries(c, n, x, y)
    requires forall j: nat :: j < n ==> c[j][x][y] == 0
    ensures WeightedConcordance(w, c, n, x, y) == 0.0
  {
    if n > 0 {
      NoneConcordant(w, c, n - 1, x, y);
    }
  }

  /** …so the global index is 0 too. */
  lemma NoneConcordantIndexIsZero(w: seq<real>, c: PartialTable, n: nat, x: Name, y: Name)
    requires n <= |w| && HasEntries(c, n, x, y) && Total(w) != 0.0
    requires forall j: nat :: j < n ==> c[j][x][y] == 0
    ensures GlobalIndex(w, c, n, x, y) == 0.0
  {
    NoneConcordant(w, c, n, x, y);
  }

  /** The global concordance index of the ordered pair (x, y). */
  function GlobalIndex(w: seq<real>, c: PartialTable, n: nat, x: Name, y: Name): real
    requires n <= |w| && HasEntries(c, n, x, y) && Total(w) != 0.0
  {
    WeightedConcordance(w, c, n, x, y) / Total(w)
  }

  /** Both orientations of the pair (h, b) hold their global index in `t`. */
  ghost predicate IndexStored(t: GlobalTable, w: seq<real>, c: PartialTable, n: nat, h: Name, b: Name)
    requires n <= |w| && HasEntries(c, n, h, b) && HasEntries(c, n, b, h)
  {
    h in t && b in t[h] && b in t && h in t[b] && Total(w) != 0.0 &&
    t[h][b] == GlobalIndex(w, c, n, h, b) && t[b][h] == GlobalIndex(w, c, n, b, h)
  }

  /** The global table as the program builds it: the rows of a pair table, and
      for every item × profile pair both orientations of its global index. */
  ghost predicate IsGlobalTable(t: GlobalTable, w: seq<real>, c: PartialTable, n: nat, items: Entities, profiles: Entities)
    requires n <= |w| && Covers(c, n, items, profiles)
  {
    PairShaped(t, items, profiles) &&
    forall h, b :: h in items.vectors && b in profiles.vectors ==> IndexStored(t, w, c, n, h, b)
  }

  /** The indices stored once the first `i` items have been paired with every
      profile and item `i` (when `i` is an item's position) with the first `p`. */
  ghost predicate IndicesStored(t: GlobalTable, w: seq<real>, c: PartialTable, n: nat, items: Entities, profiles: Entities, i: nat, p: nat)
    requires Valid(items) && Valid(profiles) && i <= |items.keys| && p <= |profiles.keys|
    requires i == |items.keys| ==> p == 0
    requires n <= |w| && Covers(c, n, items, profiles)
  {
    var hs, bs := items.keys, profiles.keys;
    ((p > 0 || i > 0) && |bs| > 0 ==> Total(w) != 0.0) &&
    (forall q, p' :: 0 <= q < i && 0 <= p' < |bs| ==> IndexStored(t, w, c, n, hs[q], bs[p'])) &&
    (forall p' :: 0 <= p' < p ==> IndexStored(t, w, c, n, hs[i], bs[p']))
  }

  lemma StepIndices(t: GlobalTable, w: seq<real>, c: PartialTable, n: nat, items: Entities, profiles: Entities, i: nat, p: nat,
                    forward: real, backward: real)
    requires Valid(items) && Valid(profiles) && Disjoint(items, profiles)
    requires i < |items.keys| && p < |profiles.keys|
    requires n <= |w| && Covers(c, n, items, profiles) && Total(w) != 0.0
    requires IndicesStored(t, w, c, n, items, profiles, i, p)
    requires forward == GlobalIndex(w, c, n, items.keys[i], profiles.keys[p])
    requires backward == GlobalIndex(w, c, n, profiles.keys[p], items.keys[i])
    ensures IndicesStored(StorePair(t, items.keys[i], profiles.keys[p], forward, backward), w, c, n, items, profiles, i, p + 1)
  {
  }

  /** Pairs item `i` with every profile, in the profiles' order. */
  method FillGlobalRow(t: GlobalTable, w: seq<real>, sumK: real, c: PartialTable, n: nat, items: Entities, profiles: Entities, i: nat)
    returns (res: Result<GlobalTable>)
    requires Valid(items) && Valid(profiles) && Disjoint(items, profiles)
    requires n <= |w| && Covers(c, n, items, profiles) && sumK == Total(w)
    requires i < |items.keys|
    requires RowsKeys(t, items, profiles, i) && IndicesStored(t, w, c, n, items, profiles, i, 0)
    ensures res.Err? <==> |profiles.keys| > 0 && Total(w) == 0.0
    ensures res.Err? ==> res.error == ZeroDivision
    ensures res.Ok? ==> RowsKeys(res.value, items, profiles, i + 1)
    ensures res.Ok? ==> IndicesStored(res.value, w, c, n, items, profiles, i + 1, 0)
  {
    var hs, bs := items.keys, profiles.keys;
    var h := hs[i];
    var acc := t;
    RowKeysStart(t, items, profiles, i);
    for p := 0 to |bs|
      invariant RowPrefixKeys(acc, items, profiles, i, p)
      invariant IndicesStored(acc, w, c, n, items, profiles, i, p)
    {
      var b := bs[p];
      if sumK == 0.0 {
        return Err(ZeroDivision);
      }
      assert h in items.vectors && b in profiles.vectors;
      var forward := WeightedConcordance(w, c, n, h, b) / sumK;
      var backward := WeightedConcordance(w, c, n, b, h) / sumK;
      FreshPairHolds(items, profiles, i, p);
      StepKeys(acc, items, profiles, i, p, forward, backward);
      StepIndices(acc, w, c, n, items, profiles, i, p, forward, backward);
      acc := StorePair(acc, h, b, forward, backward);
    }
    RowKeysEnd(acc, items, profiles, i);
    return Ok(acc);
  }

  /** The global concordance table: for every item × profile pair, in both
      orientations, sum(w[j]·c[j][x][y] for j < n) / sum(w). The items and
      profiles are parameters here. */
  method BuildGlobalTable(n: nat, c: PartialTable, w: seq<real>, items: Entities, profiles: Entities)
    returns (res: Result<GlobalTable>)
    requires Valid(items) && Valid(profiles) && Disjoint(items, profiles)
    requires n <= |w| && Covers(c, n, items, profiles)
    ensures res.Err? <==> HasPairs(items, profiles) && Total(w) == 0.0
    ensures res.Err? ==> res.error == ZeroDivision
    ensures res.Ok? ==> IsGlobalTable(res.value, w, c, n, items, profiles)
  {
    var sumK := Total(w);
    var t: GlobalTable := map[];
    for i := 0 to |items.keys|
      invariant RowsKeys(t, items, profiles, i)
      invariant IndicesStored(t, w, c, n, items, profiles, i, 0)
    {
      var r := FillGlobalRow(t, w, sumK, c, n, items, profiles, i);
      if r.Err? {
        return r;
      }
      t := r.value;
    }
    RowKeysDone(t, items, profiles);
    return Ok(t);
  }

  /** Built from binary partial values and non-negative weights, every entry of
      the global table lies in [0, 1]. */
  lemma GlobalTableInUnitInterval(t: GlobalTable, w: seq<real>, c: PartialTable, n: nat, items: Entities, profiles: Entities)
    requires n <= |w| && Covers(c, n, items, profiles) && IsGlobalTable(t, w, c, n, items, profiles)
    requires NonNegative(w)
    requires forall h, b :: h in items.vectors && b in profiles.vectors ==> Binary(c, n, h, b) && Binary(c, n, b, h)
    ensures forall x, y :: x in t && y in t[x] ==> 0.0 <= t[x][y] <= 1.0
  {
    forall x, y | x in t && y in t[x]
      ensures 0.0 <= t[x][y] <= 1.0
    {
      if x in items.vectors {
        assert y in profiles.vectors && IndexStored(t, w, c, n, x, y);
      } else {
        assert x in profiles.vectors && y in items.vectors && IndexStored(t, w, c, n, y, x);
      }
      GlobalIndexInUnitInterval(w, c, n, x, y);
    }
  }
}
