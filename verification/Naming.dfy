/** Tuples by name and by id: what a dictionary's ids stand for. */
module Naming {
  import opened Refs
  import opened Dictionaries
  import Names
  import Tuples

  function KeyOf(ids: NameIds, t: Tuples.Tuple): Key { Key(ids.Object(t.resourceType, t.resourceID), Find(ids.relations, t.relation)) }
  function SubjectOf(ids: NameIds, t: Tuples.Tuple): SubjectRef { ids.Subject(t.subjectType, t.subjectID, t.subjectRelation) }
  function TupleOf(ids: NameIds, t: Tuples.Tuple): Tuple { Tuple(KeyOf(ids, t).obj, KeyOf(ids, t).relation, SubjectOf(ids, t)) }

  /** Every name of t has an id. */
  predicate Known(ids: NameIds, t: Tuples.Tuple) {
    && t.resourceType in ids.types && t.resourceID in ids.objects && t.relation in ids.relations
    && t.subjectType in ids.types
    && (t.subjectID == Names.WILDCARD_MARKER || t.subjectID in ids.objects)
    && (t.subjectRelation == "" || t.subjectRelation in ids.relations)
  }

  lemma KnownIsValid(ids: NameIds, t: Tuples.Tuple)
    requires ids.Ok() && t.Valid() && Known(ids, t)
    ensures KeyOf(ids, t).obj.Valid() && KeyOf(ids, t).relation != NO_RELATION && SubjectOf(ids, t).Valid()
  {
  }

  /** A valid tuple's names are known exactly where each part looks up to something. */
  lemma ResolvesKnown(ids: NameIds, t: Tuples.Tuple)
    requires ids.Ok() && t.Valid()
    ensures Known(ids, t) <==>
      && KeyOf(ids, t).obj.Valid() && KeyOf(ids, t).relation != NO_RELATION && SubjectOf(ids, t).Valid()
      && (t.subjectRelation != "" ==> SubjectOf(ids, t).relation != NO_RELATION)
  {
  }

  /** Tuples with the same ids are the same tuple. */
  lemma TupleInjective(ids: NameIds, t: Tuples.Tuple, u: Tuples.Tuple)
    requires ids.Ok() && t.Valid() && u.Valid() && Known(ids, t) && Known(ids, u)
    ensures KeyOf(ids, t) == KeyOf(ids, u) && SubjectOf(ids, t) == SubjectOf(ids, u) ==> t == u
  {
  }

  // ---- Sets of tuples ----

  /** Some tuple of held stands on k with subject s. */
  ghost predicate HeldAs(ids: NameIds, held: set<Tuples.Tuple>, k: Key, s: SubjectRef) {
    exists t :: t in held && KeyOf(ids, t) == k && SubjectOf(ids, t) == s
  }

  ghost predicate AllKnown(ids: NameIds, held: set<Tuples.Tuple>) { forall t :: t in held ==> t.Valid() && Known(ids, t) }

  function IdTuples(ids: NameIds, held: set<Tuples.Tuple>): set<Tuple> { set t | t in held :: TupleOf(ids, t) }

  lemma HeldGrows(ids: NameIds, later: NameIds, held: set<Tuples.Tuple>)
    requires Grew(ids, later) && AllKnown(ids, held)
    ensures AllKnown(later, held) && IdTuples(later, held) == IdTuples(ids, held)
    ensures forall k, s :: HeldAs(later, held, k, s) <==> HeldAs(ids, held, k, s)
  {
  }

  lemma HeldIsTuple(ids: NameIds, held: set<Tuples.Tuple>, k: Key, s: SubjectRef)
    ensures HeldAs(ids, held, k, s) <==> Tuple(k.obj, k.relation, s) in IdTuples(ids, held)
  {
  }
}
