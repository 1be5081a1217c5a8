/** Entities shared by every stage of the ELECTRE TRI majority-concordance sorting. */
module ElectreData {

  /** Names of items (alternatives to classify) and of boundary profiles. */
  type Name = string

  /** An evaluation vector: one value per criterion, in the order of the criteria. */
  type Vector = seq<real>

  /** A category label, such as "A" … "E". */
  type Category = string

  /** One row of the criteria list: the criterion's name and its direction tag,
      which the program expects to be "max" or "min". */
  datatype Criterion = Criterion(name: string, direction: string)

  /** A dictionary from entity names to evaluation vectors, kept together with
      the order in which its keys are iterated. */
  datatype Entities = Entities(keys: seq<Name>, vectors: map<Name, Vector>)

  /** The ways a run stops without a result: a failed direction assertion,
      a division by a zero weight total, and a list read past its end. */
  datatype Error = InvalidDirection | ZeroDivision | IndexOutOfRange

  datatype Result<T> = Ok(value: T) | Err(error: Error)

  /** A dictionary: its key order lists every key exactly once. */
  ghost predicate Valid(d: Entities)
  {
    (forall p, q :: 0 <= p < q < |d.keys| ==> d.keys[p] != d.keys[q]) &&
    (forall k :: 0 <= k < |d.keys| ==> d.keys[k] in d.vectors) &&
    (forall x :: x in d.vectors <==> x in d.keys)
  }

  /** Item names and profile names never coincide (they share one level of the tables). */
  ghost predicate Disjoint(items: Entities, profiles: Entities)
  {
    forall x :: x in items.vectors ==> x !in profiles.vectors
  }

  /** Every vector of `d` has a value for each of the first `n` criteria. */
  ghost predicate Dimensioned(d: Entities, n: nat)
  {
    forall x :: x in d.vectors ==> |d.vectors[x]| >= n
  }

  /** True when the item × profile product is not empty, i.e. some pair is visited. */
  predicate HasPairs(items: Entities, profiles: Entities)
  {
    |items.keys| > 0 && |profiles.keys| > 0
  }

  /** The set of the first `i` keys of a key order. */
  function KeysBefore(keys: seq<Name>, i: nat): set<Name>
    requires i <= |keys|
  {
    if i == 0 then {} else KeysBefore(keys, i - 1) + {keys[i - 1]}
  }

  lemma {:induction false} KeysBeforeMembers(keys: seq<Name>, i: nat)
    requires i <= |keys|
    ensures forall x :: x in KeysBefore(keys, i) <==> x in keys[..i]
  {
    if i > 0 {
      KeysBeforeMembers(keys, i - 1);
      assert keys[..i] == keys[..i - 1] + [keys[i - 1]];
    }
  }

  /** In a dictionary's key order, a key does not occur before its own position. */
  lemma {:induction false} KeysBeforeExcludes(d: Entities, i: nat, k: nat)
    requires Valid(d) && i <= k < |d.keys|
    ensures d.keys[k] !in KeysBefore(d.keys, i)
  {
    if i > 0 {
      KeysBeforeExcludes(d, i - 1, k);
    }
  }

  lemma {:induction false} KeysBeforeAreKeys(d: Entities, i: nat)
    requires Valid(d) && i <= |d.keys|
    ensures forall x :: x in KeysBefore(d.keys, i) ==> x in d.vectors
  {
    if i > 0 {
      KeysBeforeAreKeys(d, i - 1);
    }
  }

  /** All keys of a dictionary, as the full prefix of its key order. */
  lemma AllKeysBefore(d: Entities)
    requires Valid(d)
    ensures forall x :: x in KeysBefore(d.keys, |d.keys|) <==> x in d.vectors
  {
    KeysBeforeMembers(d.keys, |d.keys|);
    assert d.keys[..|d.keys|] == d.keys;
  }
}
