/** The interned identifiers the engine works on: ids are numbers, and zero is never a valid one. */
module Refs {
  type TypeId = nat
  type ObjectId = nat
  type RelationId = nat

  /** The relation of a subject that is an object and not a userset. */
  const NO_RELATION: RelationId := 0

  datatype ObjectRef = ObjectRef(typ: TypeId, id: ObjectId) {
    predicate Valid() { typ != 0 && id != 0 }
  }

  datatype SubjectRef = SubjectRef(typ: TypeId, id: ObjectId, relation: RelationId, wildcard: bool) {
    predicate Valid() {
      typ != 0 && if wildcard then id == 0 && relation == NO_RELATION else id != 0
    }

    function Object(): ObjectRef { ObjectRef(typ, id) }

    /** The key that says who is in a userset. */
    function UsersetKey(): Key { Key(Object(), relation) }
  }

  function WildcardSubject(typ: TypeId): SubjectRef { SubjectRef(typ, 0, NO_RELATION, true) }

  /** A fact the store holds, in ids. */
  datatype Tuple = Tuple(obj: ObjectRef, relation: RelationId, subject: SubjectRef)

  /** Where a definition is found. */
  datatype RelationRef = RelationRef(typ: TypeId, relation: RelationId)

  /** The unit of evaluation: a relation at an object. */
  datatype Key = Key(obj: ObjectRef, relation: RelationId) {
    function Ref(): RelationRef { RelationRef(obj.typ, relation) }
  }

  /** A kind of subject: plain objects of a type, its wildcard, or its usersets of one relation. */
  datatype SubjectType = SubjectType(typ: TypeId, relation: RelationId, wildcard: bool) {
    function Target(): RelationRef { RelationRef(typ, relation) }
  }

  function DirectType(typ: TypeId): SubjectType { SubjectType(typ, NO_RELATION, false) }
  function WildcardType(typ: TypeId): SubjectType { SubjectType(typ, NO_RELATION, true) }
  function UsersetType(typ: TypeId, rel: RelationId): SubjectType { SubjectType(typ, rel, false) }

  datatype Option<+T> = None | Some(value: T)
}
