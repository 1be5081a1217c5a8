/** The outranking relation: an entity outranks another when its global
    concordance index over the other reaches the majority threshold. */
module Outranking {
  import opened ElectreData
  import opened GlobalConcordance

  /** Both orientations of the pair (h, b) are in the global table. */
  ghost predicate Compared(t: GlobalTable, h: Name, b: Name)
  {
    h in t && b in t[h] && b in t && h in t[b]
  }

  /** (h S b, b S h) for the majority threshold `threshold`. */
  function Surclass(threshold: real, h: Name, b: Name, t: GlobalTable): (r: (bool, bool))
    requires Compared(t, h, b)
    ensures r.0 <==> t[h][b] >= threshold
    ensures r.1 <==> t[b][h] >= threshold
  {
    (t[h][b] >= threshold, t[b][h] >= threshold)
  }

  /** Raising the threshold can turn an outranking off, never on. */
  lemma SurclassAntitone(lower: real, higher: real, h: Name, b: Name, t: GlobalTable)
    requires Compared(t, h, b) && lower <= higher
    ensures Surclass(higher, h, b, t).0 ==> Surclass(lower, h, b, t).0
    ensures Surclass(higher, h, b, t).1 ==> Surclass(lower, h, b, t).1
  {
  }

  /** On indices in [0, 1], a threshold of at most 0 makes both orientations
      outrank, and a threshold above 1 makes neither outrank. */
  lemma SurclassExtremes(threshold: real, h: Name, b: Name, t: GlobalTable)
    requires Compared(t, h, b)
    requires 0.0 <= t[h][b] <= 1.0 && 0.0 <= t[b][h] <= 1.0
    ensures threshold <= 0.0 ==> Surclass(threshold, h, b, t) == (true, true)
    ensures threshold > 1.0 ==> Surclass(threshold, h, b, t) == (false, false)
  {
  }
}
