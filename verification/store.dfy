/**
 Repositories as finite maps from ids to records. A Spring Data query that
 finds a record by some other column is modelled by `FindWhere`, which
 picks the matching record with the least id (the only one whenever the
 column is unique).
 */
module Store {
  import opened Wrappers

  /* A java.util.UUID, modelled by a natural number. */
  type Uuid = nat

  /* The least element, found by removing an arbitrary one and comparing it with the least of the rest. */
  ghost function MinOf(s: set<nat>): (m: nat)
    requires s != {}
    ensures m in s && forall y :: y in s ==> m <= y
    decreases |s|
  {
    var x :| x in s;
    var rest := s - {x};
    assert forall y :: y in s ==> y == x || y in rest;
    if rest == {} then x
    else
      var m := MinOf(rest);
      if x < m then x else m
  }

  function Least(s: set<nat>): (m: nat)
    requires s != {}
    ensures m in s && forall y :: y in s ==> m <= y
  {
    assert MinOf(s) in s;
    var m :| m in s && forall y :: y in s ==> m <= y;
    m
  }

  /* A subset is no larger than the set containing it. */
  lemma SubsetCardinality<T>(a: set<T>, b: set<T>)
    requires a <= b
    ensures |a| <= |b|
  {
    assert b == a + (b - a);
  }

  /* The least id whose record satisfies `matches`, if any. */
  function FindWhere<T>(table: map<Uuid, T>, matches: T -> bool): (r: Option<Uuid>)
    ensures r.Some? ==> r.value in table && matches(table[r.value])
    ensures r.Some? ==> forall id :: id in table && matches(table[id]) ==> r.value <= id
    ensures r.None? ==> forall id :: id in table ==> !matches(table[id])
  {
    var ids := set id | id in table && matches(table[id]);
    assert forall id :: id in table && matches(table[id]) ==> id in ids;
    if ids == {} then None else Some(Least(ids))
  }

  /* Saving one record: the table keeps its ids and only `id` may differ. */
  predicate OnlyRecordChanged<T(==)>(before: map<Uuid, T>, after: map<Uuid, T>, id: Uuid) {
    && after.Keys == before.Keys
    && forall k :: k in before && k != id ==> after[k] == before[k]
  }
}
