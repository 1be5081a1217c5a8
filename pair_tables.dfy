/** The two-level dictionaries that both concordance stages fill: for every
    item × profile pair, visited items outermost, the loop makes sure a row
    exists for the item and for the profile (`t.get(x, {})`) and stores one
    value in each orientation. This module describes which rows and which
    entries exist at each point of that loop. */
module PairTables {
  import opened ElectreData

  /** entity -> other entity -> value */
  type Table<V> = map<Name, map<Name, V>>

  /** `t` after `t[h] = t.get(h, {})`, `t[b] = t.get(b, {})` and
      `t[h][b], t[b][h] = x, y`, for distinct `h` and `b`. */
  function StorePair<V>(t: Table<V>, h: Name, b: Name, x: V, y: V): (r: Table<V>)
    requires h != b
    ensures forall z :: z in r <==> z in t || z == h || z == b
    ensures forall z :: z in t && z != h && z != b ==> r[z] == t[z]
    ensures forall w :: w in r[h] <==> (h in t && w in t[h]) || w == b
    ensures forall w :: w in r[b] <==> (b in t && w in t[b]) || w == h
    ensures r[h][b] == x && r[b][h] == y
    ensures forall w :: h in t && w in t[h] && w != b ==> r[h][w] == t[h][w]
    ensures forall w :: b in t && w in t[b] && w != h ==> r[b][w] == t[b][w]
  {
    var withRow := t[h := if h in t then t[h] else map[]];
    var withRows := withRow[b := if b in withRow then withRow[b] else map[]];
    var stored := withRows[h := withRows[h][b := x]];
    stored[b := stored[b][h := y]]
  }

  /** The rows of a finished table: when some pair exists, one row per item
      indexed by every profile and one row per profile indexed by every item;
      when none exists, no row at all. */
  ghost predicate PairShaped<V>(t: Table<V>, items: Entities, profiles: Entities)
  {
    (forall x :: x in t <==> HasPairs(items, profiles) && (x in items.vectors || x in profiles.vectors)) &&
    (forall x, y :: x in t && x in items.vectors ==> (y in t[x] <==> y in profiles.vectors)) &&
    (forall x, y :: x in t && x in profiles.vectors ==> (y in t[x] <==> y in items.vectors))
  }

  /** The rows once the first `i` items have been paired with every profile. */
  ghost predicate RowsKeys<V>(t: Table<V>, items: Entities, profiles: Entities, i: nat)
    requires i <= |items.keys|
  {
    (forall x :: x in t <==> |profiles.keys| > 0 && (x in KeysBefore(items.keys, i) || (i > 0 && x in profiles.vectors))) &&
    (forall x, y :: x in t && x in items.vectors ==> (y in t[x] <==> y in profiles.vectors)) &&
    (forall x, y :: x in t && x in profiles.vectors ==> (y in t[x] <==> y in KeysBefore(items.keys, i)))
  }

  /** The rows once, in addition, item `i` has been paired with the first `p` profiles. */
  ghost predicate RowPrefixKeys<V>(t: Table<V>, items: Entities, profiles: Entities, i: nat, p: nat)
    requires i < |items.keys| && p <= |profiles.keys|
  {
    RowsPresent(t, items, profiles, i, p) &&
    EarlierItemRows(t, items, profiles, i) &&
    CurrentItemRow(t, items, profiles, i, p) &&
    ProfileRows(t, items, profiles, i, p)
  }

  ghost predicate RowsPresent<V>(t: Table<V>, items: Entities, profiles: Entities, i: nat, p: nat)
    requires i < |items.keys| && p <= |profiles.keys|
  {
    forall x :: x in t <==> (|profiles.keys| > 0 && x in KeysBefore(items.keys, i)) || (p > 0 && x == items.keys[i]) ||
                            (x in profiles.vectors && (i > 0 || x in KeysBefore(profiles.keys, p)))
  }

  ghost predicate EarlierItemRows<V>(t: Table<V>, items: Entities, profiles: Entities, i: nat)
    requires i < |items.keys|
  {
    forall x, y :: x in t && x in items.vectors && x != items.keys[i] ==> (y in t[x] <==> y in profiles.vectors)
  }

  ghost predicate CurrentItemRow<V>(t: Table<V>, items: Entities, profiles: Entities, i: nat, p: nat)
    requires i < |items.keys| && p <= |profiles.keys|
  {
    items.keys[i] in t ==> forall y :: y in t[items.keys[i]] <==> y in KeysBefore(profiles.keys, p)
  }

  ghost predicate ProfileRows<V>(t: Table<V>, items: Entities, profiles: Entities, i: nat, p: nat)
    requires i < |items.keys| && p <= |profiles.keys|
  {
    forall x, y :: x in t && x in profiles.vectors ==>
      (y in t[x] <==> y in KeysBefore(items.keys, i) || (y == items.keys[i] && x in KeysBefore(profiles.keys, p)))
  }

  /** What the step lemmas need to know about the pair (item `i`, profile `p`). */
  ghost predicate FreshPair(items: Entities, profiles: Entities, i: nat, p: nat)
    requires i < |items.keys| && p < |profiles.keys|
  {
    items.keys[i] in items.vectors && items.keys[i] !in profiles.vectors &&
    profiles.keys[p] in profiles.vectors && profiles.keys[p] !in items.vectors &&
    items.keys[i] !in KeysBefore(items.keys, i) &&
    (forall z :: z in KeysBefore(items.keys, i) ==> z in items.vectors)
  }

  lemma FreshPairHolds(items: Entities, profiles: Entities, i: nat, p: nat)
    requires Valid(items) && Valid(profiles) && Disjoint(items, profiles)
    requires i < |items.keys| && p < |profiles.keys|
    ensures FreshPair(items, profiles, i, p)
  {
    KeysBeforeExcludes(items, i, i);
    KeysBeforeAreKeys(items, i);
  }

  /** Storing the pair (item `i`, profile `p`) advances the rows by one pair. */
  lemma StepKeys<V>(t: Table<V>, items: Entities, profiles: Entities, i: nat, p: nat, x: V, y: V)
    requires i < |items.keys| && p < |profiles.keys| && FreshPair(items, profiles, i, p)
    requires RowPrefixKeys(t, items, profiles, i, p)
    ensures RowPrefixKeys(StorePair(t, items.keys[i], profiles.keys[p], x, y), items, profiles, i, p + 1)
  {
    StepRowsPresent(t, items, profiles, i, p, x, y);
    StepEarlierItemRows(t, items, profiles, i, p, x, y);
    StepCurrentItemRow(t, items, profiles, i, p, x, y);
    StepProfileRows(t, items, profiles, i, p, x, y);
  }

  lemma StepRowsPresent<V>(t: Table<V>, items: Entities, profiles: Entities, i: nat, p: nat, x: V, y: V)
    requires i < |items.keys| && p < |profiles.keys| && FreshPair(items, profiles, i, p)
    requires RowsPresent(t, items, profiles, i, p)
    ensures RowsPresent(StorePair(t, items.keys[i], profiles.keys[p], x, y), items, profiles, i, p + 1)
  {
  }

  lemma StepEarlierItemRows<V>(t: Table<V>, items: Entities, profiles: Entities, i: nat, p: nat, x: V, y: V)
    requires i < |items.keys| && p < |profiles.keys| && FreshPair(items, profiles, i, p)
    requires EarlierItemRows(t, items, profiles, i)
    ensures EarlierItemRows(StorePair(t, items.keys[i], profiles.keys[p], x, y), items, profiles, i)
  {
  }

  lemma StepCurrentItemRow<V>(t: Table<V>, items: Entities, profiles: Entities, i: nat, p: nat, x: V, y: V)
    requires i < |items.keys| && p < |profiles.keys| && FreshPair(items, profiles, i, p)
    requires RowsPresent(t, items, profiles, i, p)
    requires CurrentItemRow(t, items, profiles, i, p)
    ensures CurrentItemRow(StorePair(t, items.keys[i], profiles.keys[p], x, y), items, profiles, i, p + 1)
  {
    assert KeysBefore(profiles.keys, p + 1) == KeysBefore(profiles.keys, p) + {profiles.keys[p]};
  }

  lemma StepProfileRows<V>(t: Table<V>, items: Entities, profiles: Entities, i: nat, p: nat, x: V, y: V)
    requires i < |items.keys| && p < |profiles.keys| && FreshPair(items, profiles, i, p)
    requires RowsPresent(t, items, profiles, i, p)
    requires ProfileRows(t, items, profiles, i, p)
    ensures ProfileRows(StorePair(t, items.keys[i], profiles.keys[p], x, y), items, profiles, i, p + 1)
  {
  }

  /** Before item `i` is paired with any profile. */
  lemma RowKeysStart<V>(t: Table<V>, items: Entities, profiles: Entities, i: nat)
    requires Valid(items) && Valid(profiles) && Disjoint(items, profiles)
    requires i < |items.keys| && RowsKeys(t, items, profiles, i)
    ensures RowPrefixKeys(t, items, profiles, i, 0)
  {
    KeysBeforeExcludes(items, i, i);
  }

  /** Once item `i` has been paired with every profile. */
  lemma RowKeysEnd<V>(t: Table<V>, items: Entities, profiles: Entities, i: nat)
    requires Valid(items) && Valid(profiles) && Disjoint(items, profiles)
    requires i < |items.keys| && RowPrefixKeys(t, items, profiles, i, |profiles.keys|)
    ensures RowsKeys(t, items, profiles, i + 1)
  {
    AllKeysBefore(profiles);
  }

  /** Once every item has been paired with every profile. */
  lemma RowKeysDone<V>(t: Table<V>, items: Entities, profiles: Entities)
    requires Valid(items) && Valid(profiles)
    requires RowsKeys(t, items, profiles, |items.keys|)
    ensures PairShaped(t, items, profiles)
  {
    AllKeysBefore(items);
  }
}
