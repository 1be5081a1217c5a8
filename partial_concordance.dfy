/** Partial concordance: per criterion, whether one entity is at least as good
    as another, and the table of these values for every item × profile pair. */
module PartialConcordance {
  import opened ElectreData
  import opened PairTables

  /** One layer of the partial table: entity -> other entity -> 0 or 1. */
  type Layer = Table<int>

  /** The partial table: criterion index -> layer. */
  type PartialTable = map<nat, Layer>

  predicate ValidDirection(direction: string)
  {
    direction == "max" || direction == "min"
  }

  /** The pair (c_j(h, b), c_j(b, h)) for criterion `j`: on a "max" criterion an
      entity concords with another when its value is at least as large, on a
      "min" criterion when it is at most as large. Any other tag fails. */
  function CriterionConcordance(h: Vector, b: Vector, j: nat, direction: string): (r: Result<(int, int)>)
    requires j < |h| && j < |b|
    ensures r.Err? <==> !ValidDirection(direction)
    ensures r.Err? ==> r.error == InvalidDirection
    ensures r.Ok? ==> (r.value.0 == 0 || r.value.0 == 1) && (r.value.1 == 0 || r.value.1 == 1)
    ensures r.Ok? ==> (r.value.0 == 1 && r.value.1 == 1 <==> h[j] == b[j])
    ensures r.Ok? ==> r.value.0 == 1 || r.value.1 == 1
  {
    if direction == "max" then
      Ok((if h[j] >= b[j] then 1 else 0, if b[j] >= h[j] then 1 else 0))
    else if direction == "min" then
      Ok((if b[j] >= h[j] then 1 else 0, if h[j] >= b[j] then 1 else 0))
    else
      Err(InvalidDirection)
  }

  /** A "min" criterion is a "max" criterion with the two entities swapped. */
  lemma MinIsSwappedMax(h: Vector, b: Vector, j: nat)
    requires j < |h| && j < |b|
    ensures CriterionConcordance(h, b, j, "min") == CriterionConcordance(b, h, j, "max")
  {
  }

  function Negated(v: Vector): (r: Vector)
    ensures |r| == |v| && forall i :: 0 <= i < |v| ==> r[i] == -v[i]
  {
    seq(|v|, i requires 0 <= i < |v| => -v[i])
  }

  /** Negating both vectors turns a "min" criterion into a "max" one with the same values. */
  lemma MinIsMaxOfNegated(h: Vector, b: Vector, j: nat)
    requires j < |h| && j < |b|
    ensures CriterionConcordance(h, b, j, "min") == CriterionConcordance(Negated(h), Negated(b), j, "max")
  {
  }

  /** On a "max" criterion, raising h's value can only make h concord with b,
      and can only stop b concording with h. */
  lemma MaxFavoursLarger(h: Vector, h': Vector, b: Vector, j: nat)
    requires j < |h| && j < |h'| && j < |b| && h[j] <= h'[j]
    ensures CriterionConcordance(h, b, j, "max").value.0 <= CriterionConcordance(h', b, j, "max").value.0
    ensures CriterionConcordance(h, b, j, "max").value.1 >= CriterionConcordance(h', b, j, "max").value.1
  {
  }

  /** On a "min" criterion, raising h's value can only stop h concording with b,
      and can only make b concord with h. */
  lemma MinFavoursSmaller(h: Vector, h': Vector, b: Vector, j: nat)
    requires j < |h| && j < |h'| && j < |b| && h[j] <= h'[j]
    ensures CriterionConcordance(h, b, j, "min").value.0 >= CriterionConcordance(h', b, j, "min").value.0
    ensures CriterionConcordance(h, b, j, "min").value.1 <= CriterionConcordance(h', b, j, "min").value.1
  {
  }

  /** Only the `j`-th value of either vector is consulted. */
  lemma ConcordanceReadsOnlyIndex(h: Vector, b: Vector, h': Vector, b': Vector, j: nat, direction: string)
    requires j < |h| && j < |b| && j < |h'| && j < |b'|
    requires h[j] == h'[j] && b[j] == b'[j]
    ensures CriterionConcordance(h, b, j, direction) == CriterionConcordance(h', b', j, direction)
  {
  }

  /** Both orientations of the pair (h, b) are stored in `layer` with the values of criterion `j`. */
  ghost predicate PairStored(layer: Layer, items: Entities, profiles: Entities, j: nat, direction: string, h: Name, b: Name)
    requires h in items.vectors && b in profiles.vectors
    requires Dimensioned(items, j + 1) && Dimensioned(profiles, j + 1)
  {
    h in layer && b in layer[h] && b in layer && h in layer[b] &&
    CriterionConcordance(items.vectors[h], profiles.vectors[b], j, direction) == Ok((layer[h][b], layer[b][h]))
  }

  /** The layer of criterion `j` as the program builds it: when some pair exists,
      one row per item (indexed by every profile) and one row per profile
      (indexed by every item), each entry the partial concordance of the pair. */
  ghost predicate IsPartialLayer(layer: Layer, items: Entities, profiles: Entities, j: nat, direction: string)
    requires Dimensioned(items, j + 1) && Dimensioned(profiles, j + 1)
  {
    PairShaped(layer, items, profiles) &&
    forall h, b :: h in items.vectors && b in profiles.vectors ==> PairStored(layer, items, profiles, j, direction, h, b)
  }

  /** The values stored once the first `i` items have been paired with every
      profile and item `i` (when `i` is an item's position) with the first `p`. */
  ghost predicate ValuesStored(layer: Layer, items: Entities, profiles: Entities, j: nat, direction: string, i: nat, p: nat)
    requires Valid(items) && Valid(profiles) && i <= |items.keys| && p <= |profiles.keys|
    requires i == |items.keys| ==> p == 0
    requires Dimensioned(items, j + 1) && Dimensioned(profiles, j + 1)
  {
    var hs, bs := items.keys, profiles.keys;
    ((p > 0 || i > 0) && |bs| > 0 ==> ValidDirection(direction)) &&
    (forall q, p' :: 0 <= q < i && 0 <= p' < |bs| ==> PairStored(layer, items, profiles, j, direction, hs[q], bs[p'])) &&
    (forall p' :: 0 <= p' < p ==> PairStored(layer, items, profiles, j, direction, hs[i], bs[p']))
  }

  lemma StepValues(layer: Layer, items: Entities, profiles: Entities, j: nat, direction: string, i: nat, p: nat, x: int, y: int)
    requires Valid(items) && Valid(profiles) && Disjoint(items, profiles)
    requires i < |items.keys| && p < |profiles.keys|
    requires Dimensioned(items, j + 1) && Dimensioned(profiles, j + 1)
    requires ValuesStored(layer, items, profiles, j, direction, i, p)
    requires CriterionConcordance(items.vectors[items.keys[i]], profiles.vectors[profiles.keys[p]], j, direction) == Ok((x, y))
    ensures ValuesStored(StorePair(layer, items.keys[i], profiles.keys[p], x, y), items, profiles, j, direction, i, p + 1)
  {
  }

  /** Pairs item `i` with every profile, in the profiles' order. */
  method FillRow(layer: Layer, items: Entities, profiles: Entities, j: nat, direction: string, i: nat)
    returns (res: Result<Layer>)
    requires Valid(items) && Valid(profiles) && Disjoint(items, profiles)
    requires Dimensioned(items, j + 1) && Dimensioned(profiles, j + 1)
    requires i < |items.keys|
    requires RowsKeys(layer, items, profiles, i) && ValuesStored(layer, items, profiles, j, direction, i, 0)
    ensures res.Err? <==> |profiles.keys| > 0 && !ValidDirection(direction)
    ensures res.Err? ==> res.error == InvalidDirection
    ensures res.Ok? ==> RowsKeys(res.value, items, profiles, i + 1)
    ensures res.Ok? ==> ValuesStored(res.value, items, profiles, j, direction, i + 1, 0)
  {
    var hs, bs := items.keys, profiles.keys;
    var h := hs[i];
    var acc := layer;
    RowKeysStart(layer, items, profiles, i);
    for p := 0 to |bs|
      invariant RowPrefixKeys(acc, items, profiles, i, p)
      invariant ValuesStored(acc, items, profiles, j, direction, i, p)
    {
      var b := bs[p];
      var r := CriterionConcordance(items.vectors[h], profiles.vectors[b], j, direction);
      if r.Err? {
        return Err(r.error);
      }
      FreshPairHolds(items, profiles, i, p);
      StepKeys(acc, items, profiles, i, p, r.value.0, r.value.1);
      StepValues(acc, items, profiles, j, direction, i, p, r.value.0, r.value.1);
      acc := StorePair(acc, h, b, r.value.0, r.value.1);
    }
    RowKeysEnd(acc, items, profiles, i);
    return Ok(acc);
  }

  /** The body of the criterion loop: visit every item × profile pair, items
      outermost, and store both orientations of the pair's concordance. */
  method BuildLayer(items: Entities, profiles: Entities, j: nat, direction: string) returns (res: Result<Layer>)
    requires Valid(items) && Valid(profiles) && Disjoint(items, profiles)
    requires Dimensioned(items, j + 1) && Dimensioned(profiles, j + 1)
    ensures res.Err? <==> HasPairs(items, profiles) && !ValidDirection(direction)
    ensures res.Err? ==> res.error == InvalidDirection
    ensures res.Ok? ==> IsPartialLayer(res.value, items, profiles, j, direction)
  {
    var layer: Layer := map[];
    for i := 0 to |items.keys|
      invariant RowsKeys(layer, items, profiles, i)
      invariant ValuesStored(layer, items, profiles, j, direction, i, 0)
    {
      var r := FillRow(layer, items, profiles, j, direction, i);
      if r.Err? {
        return r;
      }
      layer := r.value;
    }
    RowKeysDone(layer, items, profiles);
    return Ok(layer);
  }

  /** The partial concordance table: layer `j` for each criterion index `j`. */
  method BuildPartialTable(criteria: seq<Criterion>, items: Entities, profiles: Entities) returns (res: Result<PartialTable>)
    requires Valid(items) && Valid(profiles) && Disjoint(items, profiles)
    requires Dimensioned(items, |criteria|) && Dimensioned(profiles, |criteria|)
    ensures res.Err? <==> HasPairs(items, profiles) && exists j :: 0 <= j < |criteria| && !ValidDirection(criteria[j].direction)
    ensures res.Err? ==> res.error == InvalidDirection
    ensures res.Ok? ==> forall j: nat :: j in res.value <==> j < |criteria|
    ensures res.Ok? ==> forall j :: 0 <= j < |criteria| ==>
              IsPartialLayer(res.value[j], items, profiles, j, criteria[j].direction)
  {
    var c: PartialTable := map[];
    for j := 0 to |criteria|
      invariant forall k: nat :: k in c <==> k < j
      invariant forall k :: 0 <= k < j ==> IsPartialLayer(c[k], items, profiles, k, criteria[k].direction)
      invariant HasPairs(items, profiles) ==> forall k :: 0 <= k < j ==> ValidDirection(criteria[k].direction)
    {
      var layer := BuildLayer(items, profiles, j, criteria[j].direction);
      if layer.Err? {
        return Err(layer.error);
      }
      c := c[j := layer.value];
    }
    return Ok(c);
  }
}
