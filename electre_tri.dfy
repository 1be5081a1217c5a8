/** The ELECTRE TRI run: partial concordance, global concordance, then both
    majority sorting procedures on the same global table. */
module ElectreTri {
  import opened ElectreData
  import opened PairTables
  import opened PartialConcordance
  import opened GlobalConcordance
  import opened Outranking
  import opened MajoritySorting

  /** Everything a run computes. */
  datatype Run = Run(partial: PartialTable, global: GlobalTable,
                     pessimistic: map<Name, Category>, optimistic: map<Name, Category>)

  /** A finished partial table covers every item × profile pair with binary values. */
  lemma PartialTableCovers(criteria: seq<Criterion>, items: Entities, profiles: Entities, c: PartialTable)
    requires Dimensioned(items, |criteria|) && Dimensioned(profiles, |criteria|)
    requires forall j: nat :: j in c <==> j < |criteria|
    requires forall j :: 0 <= j < |criteria| ==> IsPartialLayer(c[j], items, profiles, j, criteria[j].direction)
    ensures Covers(c, |criteria|, items, profiles)
    ensures forall h, b :: h in items.vectors && b in profiles.vectors ==>
              Binary(c, |criteria|, h, b) && Binary(c, |criteria|, b, h)
  {
    forall h, b | h in items.vectors && b in profiles.vectors
      ensures HasEntries(c, |criteria|, h, b) && HasEntries(c, |criteria|, b, h)
      ensures Binary(c, |criteria|, h, b) && Binary(c, |criteria|, b, h)
    {
      forall j: nat | j < |criteria|
        ensures j in c && h in c[j] && b in c[j][h] && b in c[j] && h in c[j][b]
        ensures (c[j][h][b] == 0 || c[j][h][b] == 1) && (c[j][b][h] == 0 || c[j][b][h] == 1)
      {
        assert PairStored(c[j], items, profiles, j, criteria[j].direction, h, b);
      }
    }
  }

  /** A finished global table has compared every item with every profile. */
  lemma GlobalTableCompares(t: GlobalTable, w: seq<real>, c: PartialTable, n: nat, items: Entities, profiles: Entities)
    requires Valid(profiles) && n <= |w| && Covers(c, n, items, profiles)
    requires IsGlobalTable(t, w, c, n, items, profiles)
    ensures forall h, lo: nat, hi: nat :: h in items.vectors ==> ComparedWith(t, h, profiles.keys, lo, hi)
  {
    forall h, q | h in items.vectors && 0 <= q < |profiles.keys|
      ensures Compared(t, h, profiles.keys[q])
    {
      assert IndexStored(t, w, c, n, h, profiles.keys[q]);
    }
  }

  /** The whole run, in the order of the program's main block. Valid direction
      tags, a non-zero weight total and more profiles than categories are
      enough for it to succeed; each failing stage reports its own error. */
  method Classify(criteria: seq<Criterion>, weights: seq<real>, items: Entities, profiles: Entities,
                  categories: seq<Category>, s: real) returns (res: Result<Run>)
    requires Valid(items) && Valid(profiles) && Disjoint(items, profiles)
    requires Dimensioned(items, |criteria|) && Dimensioned(profiles, |criteria|)
    requires |criteria| <= |weights|
    ensures ((forall j :: 0 <= j < |criteria| ==> ValidDirection(criteria[j].direction)) &&
             Total(weights) != 0.0 && 0 < |categories| < |profiles.keys|) ==> res.Ok?
    ensures HasPairs(items, profiles) && (exists j :: 0 <= j < |criteria| && !ValidDirection(criteria[j].direction)) ==>
              res == Err(InvalidDirection)
    ensures (HasPairs(items, profiles) && (forall j :: 0 <= j < |criteria| ==> ValidDirection(criteria[j].direction)) &&
             Total(weights) == 0.0) ==> res == Err(ZeroDivision)
    ensures res.Ok? ==> Covers(res.value.partial, |criteria|, items, profiles) &&
                        IsGlobalTable(res.value.global, weights, res.value.partial, |criteria|, items, profiles)
    ensures res.Ok? && NonNegative(weights) ==>
              forall x, y :: x in res.value.global && y in res.value.global[x] ==> 0.0 <= res.value.global[x][y] <= 1.0
    ensures res.Ok? ==> (forall j: nat :: j in res.value.partial <==> j < |criteria|) &&
                        forall j :: 0 <= j < |criteria| ==>
                          IsPartialLayer(res.value.partial[j], items, profiles, j, criteria[j].direction)
    ensures res.Ok? ==> forall h, lo: nat, hi: nat :: h in items.vectors ==> ComparedWith(res.value.global, h, profiles.keys, lo, hi)
    ensures res.Ok? ==> res.value.pessimistic.Keys == items.vectors.Keys && res.value.optimistic.Keys == items.vectors.Keys
    ensures res.Ok? ==> forall h :: h in items.vectors ==>
              0 < |categories| <= |profiles.keys| &&
              res.value.pessimistic[h] == categories[PessimisticIndex(s, h, profiles.keys, res.value.global, |categories|)]
    ensures res.Ok? ==> forall h :: h in items.vectors ==>
              0 < |categories| && !OptimisticScan(s, h, profiles.keys, res.value.global, |categories|, 1).OutOfRange? &&
              res.value.optimistic[h] == OptimisticCategory(categories, OptimisticScan(s, h, profiles.keys, res.value.global, |categories|, 1))
    ensures res.Ok? ==> forall h :: h in items.vectors ==>
              res.value.pessimistic[h] in categories && res.value.optimistic[h] in categories
  {
    var c := BuildPartialTable(criteria, items, profiles);
    if c.Err? {
      return Err(c.error);
    }
    PartialTableCovers(criteria, items, profiles, c.value);
    var t := BuildGlobalTable(|criteria|, c.value, weights, items, profiles);
    if t.Err? {
      return Err(t.error);
    }
    GlobalTableCompares(t.value, weights, c.value, |criteria|, items, profiles);
    if NonNegative(weights) {
      GlobalTableInUnitInterval(t.value, weights, c.value, |criteria|, items, profiles);
    }
    var pessimistic := PessimisticSort(categories, items, profiles, t.value, s);
    if pessimistic.Err? {
      return Err(pessimistic.error);
    }
    var optimistic := OptimisticSort(categories, items, profiles, t.value, s);
    if optimistic.Err? {
      return Err(optimistic.error);
    }
    return Ok(Run(c.value, t.value, pessimistic.value, optimistic.value));
  }
}
