/** The pessimistic and optimistic majority sorting procedures: each item is
    assigned a category by scanning the ordered boundary profiles. */
module MajoritySorting {
  import opened ElectreData
  import opened GlobalConcordance
  import opened Outranking

  /** Item `h` has been compared with every profile `b[q]`, lo <= q < hi. */
  ghost predicate ComparedWith(t: GlobalTable, h: Name, b: seq<Name>, lo: nat, hi: nat)
  {
    forall q :: lo <= q < hi && q < |b| ==> Compared(t, h, b[q])
  }

  /** The pessimistic scan over b[k-1], b[k-2], …, b[0]: the position of the
      first profile that `h` outranks, or 0 when there is none. */
  function PessimisticIndex(s: real, h: Name, b: seq<Name>, t: GlobalTable, k: nat): (i: nat)
    requires k <= |b| && ComparedWith(t, h, b, 0, k)
    ensures i < k || i == 0
    ensures forall q :: i < q < k ==> !Surclass(s, h, b[q], t).0
    ensures (k > 0 && Surclass(s, h, b[i], t).0) || (i == 0 && forall q :: 0 <= q < k ==> !Surclass(s, h, b[q], t).0)
  {
    if k == 0 then 0
    else if Surclass(s, h, b[k - 1], t).0 then k - 1
    else PessimisticIndex(s, h, b, t, k - 1)
  }

  /** The inner loop of the pessimistic procedure for item `h`: profiles
      b[r-1] down to b[0] are tried in turn until `h` outranks one. Reading a
      profile past the end of `b` fails. */
  method PessimisticPosition(s: real, h: Name, b: seq<Name>, t: GlobalTable, r: nat) returns (res: Result<nat>)
    requires ComparedWith(t, h, b, 0, r)
    ensures res.Err? <==> r > |b|
    ensures res.Err? ==> res.error == IndexOutOfRange
    ensures res.Ok? ==> res.value == PessimisticIndex(s, h, b, t, r)
  {
    for k := r downto 0
      invariant k < r ==> r <= |b|
      invariant forall q :: k <= q < r ==> !Surclass(s, h, b[q], t).0
    {
      if k >= |b| {
        return Err(IndexOutOfRange);
      }
      var (hSb, _) := Surclass(s, h, b[k], t);
      if hSb {
        return Ok(k);
      }
    }
    return Ok(0);
  }

  /** Entry `h` of `result` holds the pessimistic category of `h`. */
  ghost predicate PessimisticEntry(result: map<Name, Category>, categories: seq<Category>, s: real, h: Name, b: seq<Name>, t: GlobalTable)
  {
    h in result && |categories| <= |b| && ComparedWith(t, h, b, 0, |categories|) &&
    PessimisticIndex(s, h, b, t, |categories|) < |categories| &&
    result[h] == categories[PessimisticIndex(s, h, b, t, |categories|)]
  }

  /** `result` maps the first `i` items, each to its pessimistic category. */
  ghost predicate PessimisticPrefix(result: map<Name, Category>, categories: seq<Category>, keys: seq<Name>, s: real, b: seq<Name>, t: GlobalTable, i: nat)
    requires i <= |keys|
  {
    result.Keys == KeysBefore(keys, i) &&
    forall h :: h in result ==> PessimisticEntry(result, categories, s, h, b, t)
  }

  lemma PessimisticPrefixStep(result: map<Name, Category>, categories: seq<Category>, keys: seq<Name>, s: real, b: seq<Name>, t: GlobalTable, i: nat)
    requires i < |keys| && PessimisticPrefix(result, categories, keys, s, b, t, i)
    requires 0 < |categories| <= |b| && ComparedWith(t, keys[i], b, 0, |categories|)
    ensures PessimisticPrefix(result[keys[i] := categories[PessimisticIndex(s, keys[i], b, t, |categories|)]], categories, keys, s, b, t, i + 1)
  {
  }

  /** Pessimistic assignment: with r categories, item `h` gets categories[k]
      for the largest k < r such that h outranks b[k], and categories[0] when
      it outranks none of b[0..r-1]. Reading b[r-1] past the profiles, or
      categories[0] of no categories, fails. */
  method PessimisticSort(categories: seq<Category>, items: Entities, profiles: Entities, t: GlobalTable, s: real)
    returns (res: Result<map<Name, Category>>)
    requires Valid(items)
    requires forall h :: h in items.vectors ==> ComparedWith(t, h, profiles.keys, 0, |categories|)
    ensures res.Err? <==> |items.keys| > 0 && (|categories| == 0 || |categories| > |profiles.keys|)
    ensures res.Err? ==> res.error == IndexOutOfRange
    ensures res.Ok? ==> res.value.Keys == items.vectors.Keys
    ensures res.Ok? ==> forall h :: h in items.vectors ==> res.value[h] in categories
    ensures res.Ok? ==> forall h :: h in items.vectors ==>
              res.value[h] == categories[PessimisticIndex(s, h, profiles.keys, t, |categories|)]
  {
    var result: map<Name, Category> := map[];
    var r := |categories|;
    var b := profiles.keys;
    for i := 0 to |items.keys|
      invariant PessimisticPrefix(result, categories, items.keys, s, b, t, i)
      invariant i > 0 ==> 1 <= r <= |b|
    {
      var h := items.keys[i];
      var position := PessimisticPosition(s, h, b, t, r);
      if position.Err? {
        return Err(position.error);
      }
      if r == 0 {
        return Err(IndexOutOfRange);
      }
      PessimisticPrefixStep(result, categories, items.keys, s, b, t, i);
      result := result[h := categories[position.value]];
    }
    AllKeysBefore(items);
    return Ok(result);
  }

  /** Lowering the majority threshold never lowers the pessimistic position. */
  lemma PessimisticThresholdMonotone(lower: real, higher: real, h: Name, b: seq<Name>, t: GlobalTable, r: nat)
    requires r <= |b| && ComparedWith(t, h, b, 0, r) && lower <= higher
    ensures PessimisticIndex(higher, h, b, t, r) <= PessimisticIndex(lower, h, b, t, r)
  {
    var i := PessimisticIndex(higher, h, b, t, r);
    if r > 0 && Surclass(higher, h, b[i], t).0 {
      SurclassAntitone(lower, higher, h, b[i], t);
    }
  }

  /** Only b[0..r-1] are consulted by the pessimistic scan. */
  lemma {:induction false} PessimisticConsultsPrefix(s: real, h: Name, b: seq<Name>, b': seq<Name>, t: GlobalTable, r: nat)
    requires r <= |b| && r <= |b'| && b[..r] == b'[..r]
    requires ComparedWith(t, h, b, 0, r)
    ensures ComparedWith(t, h, b', 0, r)
    ensures PessimisticIndex(s, h, b, t, r) == PessimisticIndex(s, h, b', t, r)
  {
    assert forall q :: 0 <= q < r ==> b[q] == b[..r][q] == b'[..r][q] == b'[q];
    if r > 0 {
      assert b[..r - 1] == b[..r][..r - 1] == b'[..r][..r - 1] == b'[..r - 1];
      PessimisticConsultsPrefix(s, h, b, b', t, r - 1);
    }
  }

  /** h is strictly outranked by x: x S h and not h S x. */
  predicate StrictlyOutranked(s: real, h: Name, x: Name, t: GlobalTable)
    requires Compared(t, h, x)
  {
    var (hSx, xSh) := Surclass(s, h, x, t);
    xSh && !hSx
  }

  /** How the optimistic scan of one item ends: it stops at a profile
      (the category index is recorded), runs out of boundaries and takes the
      default, or reads a boundary past the end of the profiles. */
  datatype Scan = Hit(index: nat) | Default | OutOfRange

  /** The optimistic scan over b[k], b[k+1], …, b[r]. */
  function OptimisticScan(s: real, h: Name, b: seq<Name>, t: GlobalTable, r: nat, k: nat): (o: Scan)
    requires 1 <= k <= r + 1 && ComparedWith(t, h, b, k, r + 1)
    ensures o.Hit? ==> k <= o.index + 1 <= r && o.index + 1 < |b| && StrictlyOutranked(s, h, b[o.index + 1], t)
    ensures o.Hit? ==> forall q :: k <= q <= o.index ==> !StrictlyOutranked(s, h, b[q], t)
    ensures o.Default? ==> (k <= r ==> r < |b|) && forall q :: k <= q <= r ==> !StrictlyOutranked(s, h, b[q], t)
    ensures o.OutOfRange? ==> |b| <= r && forall q :: k <= q < |b| ==> !StrictlyOutranked(s, h, b[q], t)
    decreases r + 1 - k
  {
    if k > r then Default
    else if k >= |b| then OutOfRange
    else if StrictlyOutranked(s, h, b[k], t) then Hit(k - 1)
    else OptimisticScan(s, h, b, t, r, k + 1)
  }

  /** The category an optimistic scan that stayed in range assigns. */
  function OptimisticCategory(categories: seq<Category>, o: Scan): (c: Category)
    requires |categories| > 0 && !o.OutOfRange? && (o.Hit? ==> o.index < |categories|)
    ensures c in categories
  {
    match o
    case Hit(i) => categories[i]
    case Default => categories[|categories| - 1]
  }

  /** The inner loop of the optimistic procedure for item `h`: profiles
      b[1] up to b[r] are tried in turn until one strictly outranks `h`. */
  method OptimisticPosition(s: real, h: Name, b: seq<Name>, t: GlobalTable, r: nat) returns (o: Scan)
    requires ComparedWith(t, h, b, 1, r + 1)
    ensures o == OptimisticScan(s, h, b, t, r, 1)
  {
    for k := 1 to r + 1
      invariant k == 1 || k - 1 < |b|
      invariant forall q :: 1 <= q < k ==> q < |b| && !StrictlyOutranked(s, h, b[q], t)
    {
      if k >= |b| {
        return OutOfRange;
      }
      var (hSb, bSh) := Surclass(s, h, b[k], t);
      if bSh && !hSb {
        return Hit(k - 1);
      }
    }
    return Default;
  }

  /** Entry `h` of `result` holds the optimistic category of `h`. */
  ghost predicate OptimisticEntry(result: map<Name, Category>, categories: seq<Category>, s: real, h: Name, b: seq<Name>, t: GlobalTable)
  {
    h in result && |categories| > 0 && ComparedWith(t, h, b, 1, |categories| + 1) &&
    !OptimisticScan(s, h, b, t, |categories|, 1).OutOfRange? &&
    result[h] == OptimisticCategory(categories, OptimisticScan(s, h, b, t, |categories|, 1))
  }

  /** `result` maps the first `i` items, each to its optimistic category. */
  ghost predicate OptimisticPrefix(result: map<Name, Category>, categories: seq<Category>, keys: seq<Name>, s: real, b: seq<Name>, t: GlobalTable, i: nat)
    requires i <= |keys|
  {
    result.Keys == KeysBefore(keys, i) &&
    forall h :: h in result ==> OptimisticEntry(result, categories, s, h, b, t)
  }

  lemma OptimisticPrefixStep(result: map<Name, Category>, categories: seq<Category>, keys: seq<Name>, s: real, b: seq<Name>, t: GlobalTable, i: nat)
    requires i < |keys| && OptimisticPrefix(result, categories, keys, s, b, t, i)
    requires 0 < |categories| && ComparedWith(t, keys[i], b, 1, |categories| + 1)
    requires !OptimisticScan(s, keys[i], b, t, |categories|, 1).OutOfRange?
    ensures OptimisticPrefix(result[keys[i] := OptimisticCategory(categories, OptimisticScan(s, keys[i], b, t, |categories|, 1))],
                             categories, keys, s, b, t, i + 1)
  {
  }

  /** Optimistic assignment: with r categories, item `h` gets categories[k-1]
      for the smallest k in 1..r such that b[k] strictly outranks h, and
      categories[r-1] when there is none. Reading b[k] past the profiles, or
      categories[r-1] of no categories, fails; r+1 profiles rule it out. */
  method OptimisticSort(categories: seq<Category>, items: Entities, profiles: Entities, t: GlobalTable, s: real)
    returns (res: Result<map<Name, Category>>)
    requires Valid(items)
    requires forall h :: h in items.vectors ==> ComparedWith(t, h, profiles.keys, 1, |categories| + 1)
    ensures res.Err? <==> exists h :: h in items.vectors &&
                                      (|categories| == 0 || OptimisticScan(s, h, profiles.keys, t, |categories|, 1).OutOfRange?)
    ensures res.Err? ==> res.error == IndexOutOfRange
    ensures |categories| > 0 && |profiles.keys| > |categories| ==> res.Ok?
    ensures res.Ok? ==> res.value.Keys == items.vectors.Keys
    ensures res.Ok? ==> forall h :: h in items.vectors ==> res.value[h] in categories
    ensures res.Ok? ==> forall h :: h in items.vectors ==>
              res.value[h] == OptimisticCategory(categories, OptimisticScan(s, h, profiles.keys, t, |categories|, 1))
  {
    var result: map<Name, Category> := map[];
    var r := |categories|;
    var b := profiles.keys;
    for i := 0 to |items.keys|
      invariant OptimisticPrefix(result, categories, items.keys, s, b, t, i)
      invariant i > 0 ==> r > 0
      invariant forall h :: h in result ==> h in items.vectors
    {
      var h := items.keys[i];
      KeysBeforeAreKeys(items, i);
      var o := OptimisticPosition(s, h, b, t, r);
      if o.OutOfRange? {
        return Err(IndexOutOfRange);
      }
      if r == 0 {
        return Err(IndexOutOfRange);
      }
      OptimisticPrefixStep(result, categories, items.keys, s, b, t, i);
      result := result[h := OptimisticCategory(categories, o)];
    }
    AllKeysBefore(items);
    return Ok(result);
  }

  /** b[0] is never consulted by the optimistic scan, nor any profile before b[k]. */
  lemma {:induction false} OptimisticIgnoresEarlierProfiles(s: real, h: Name, b: seq<Name>, b': seq<Name>, t: GlobalTable, r: nat, k: nat)
    requires 1 <= k <= r + 1 && |b| == |b'|
    requires forall q :: k <= q < |b| ==> b[q] == b'[q]
    requires ComparedWith(t, h, b, k, r + 1)
    ensures ComparedWith(t, h, b', k, r + 1)
    ensures OptimisticScan(s, h, b, t, r, k) == OptimisticScan(s, h, b', t, r, k)
    decreases r + 1 - k
  {
    if k <= r && k < |b| {
      OptimisticIgnoresEarlierProfiles(s, h, b, b', t, r, k + 1);
    }
  }

  /** An item incomparable with every consulted profile (neither outranks the
      other) receives categories[0] from the pessimistic procedure and
      categories[r-1] from the optimistic one: the two procedures as written
      put it at opposite ends of the category list. */
  lemma IncomparableGetsOppositeEnds(s: real, h: Name, b: seq<Name>, t: GlobalTable, r: nat)
    requires 0 < r < |b| && ComparedWith(t, h, b, 0, r + 1)
    requires forall q :: 0 <= q <= r ==> Surclass(s, h, b[q], t) == (false, false)
    ensures PessimisticIndex(s, h, b, t, r) == 0
    ensures OptimisticScan(s, h, b, t, r, 1) == Default
  {
  }
}
