/** Replicas that hold the same tuples under the same source give the same decisions. */
module Agreement {
  import opened Refs
  import opened Schema
  import opened Model
  import opened Graph
  import opened Builder
  import opened Engine
  import opened Dictionaries
  import opened Naming
  import opened Renaming
  import opened Requests
  import Grammar
  import Compile
  import Names
  import Tuples

  /** What one replica brings to a question: its dictionary, its built schema, and the request in its ids. */
  datatype Side = Side(ids: NameIds, d: Defs, subjects: set<SubjectType>, request: CheckRequest)

  ghost predicate SideOk(s: Side, defs: seq<Grammar.Definition>, held: set<Tuples.Tuple>, q: NamedRequest) {
    && s.ids.Ok() && AllKnown(s.ids, held)
    && Compile.Means(defs, s.ids, s.d) && Accepts(s.d)
    && Resolve(s.ids, s.subjects, q) == Asks(s.request) && s.request.WellFormed()
  }

  // ---- The correspondence between two sides ----

  ghost predicate SameName(x: Ids, y: Ids, i: nat, j: nat) { exists n :: n in x && n in y && x[n] == i && y[n] == j }

  /** typ:id is the resource or the subject of a tuple held. */
  ghost predicate Mentions(held: set<Tuples.Tuple>, typ: string, id: string) {
    exists t :: t in held && ((t.resourceType == typ && t.resourceID == id)
                              || (t.subjectType == typ && t.subjectID == id && id != Names.WILDCARD_MARKER))
  }

  ghost predicate SameMention(x: NameIds, y: NameIds, held: set<Tuples.Tuple>, o: ObjectRef, p: ObjectRef) {
    exists typ, id :: Mentions(held, typ, id) && x.Object(typ, id) == o && y.Object(typ, id) == p
  }

  ghost function Between(x: Side, y: Side, held: set<Tuples.Tuple>): Corr {
    Corr((i: TypeId, j: TypeId) => SameName(x.ids.types, y.ids.types, i, j),
         (i: RelationId, j: RelationId) => (i == j == NO_RELATION) || SameName(x.ids.relations, y.ids.relations, i, j),
         (o: ObjectRef, p: ObjectRef) => (o == x.request.obj && p == y.request.obj) || SameMention(x.ids, y.ids, held, o, p))
  }

  lemma NamesOneToOne(x: Ids, y: Ids, i: nat, j: nat, i': nat, j': nat)
    requires IdsOk(x) && IdsOk(y) && SameName(x, y, i, j) && SameName(x, y, i', j')
    ensures (i == i' <==> j == j') && i != 0 && j != 0
  {
  }

  lemma MentionKnown(ids: NameIds, held: set<Tuples.Tuple>, typ: string, id: string)
    requires AllKnown(ids, held) && Mentions(held, typ, id)
    ensures typ in ids.types && id in ids.objects
  {
  }

  lemma MentionsOneToOne(x: NameIds, y: NameIds, held: set<Tuples.Tuple>, o: ObjectRef, p: ObjectRef, o': ObjectRef, p': ObjectRef)
    requires x.Ok() && y.Ok() && AllKnown(x, held) && AllKnown(y, held)
    requires SameMention(x, y, held, o, p) && SameMention(x, y, held, o', p')
    ensures o == o' <==> p == p'
  {
  }

  /** The request's object is a known object exactly where the request names it. */
  lemma AskedObject(s: Side, q: NamedRequest, typ: string, id: string)
    requires s.ids.Ok() && Resolve(s.ids, s.subjects, q) == Asks(s.request) && typ in s.ids.types && id in s.ids.objects
    ensures q.resourceType in s.ids.types
    ensures s.request.obj == s.ids.Object(typ, id) <==> q.resourceType == typ && q.resourceID == id
  {
  }

  lemma AskedOneToOne(x: Side, y: Side, defs: seq<Grammar.Definition>, held: set<Tuples.Tuple>, q: NamedRequest, o: ObjectRef, p: ObjectRef)
    requires SideOk(x, defs, held, q) && SideOk(y, defs, held, q) && SameMention(x.ids, y.ids, held, o, p)
    ensures o == x.request.obj <==> p == y.request.obj
  {
    hide AllKnown, Mentions, NameIds.Ok, NameIds.Object, Compile.Means, Accepts, Resolve;
    var typ, id :| Mentions(held, typ, id) && x.ids.Object(typ, id) == o && y.ids.Object(typ, id) == p;
    MentionKnown(x.ids, held, typ, id);
    MentionKnown(y.ids, held, typ, id);
    AskedObject(x, q, typ, id);
    AskedObject(y, q, typ, id);
  }

  lemma MentionTypes(x: NameIds, y: NameIds, held: set<Tuples.Tuple>, o: ObjectRef, p: ObjectRef)
    requires AllKnown(x, held) && AllKnown(y, held) && SameMention(x, y, held, o, p)
    ensures SameName(x.types, y.types, o.typ, p.typ)
  {
  }

  lemma AskedTypes(x: Side, y: Side, q: NamedRequest)
    requires Resolve(x.ids, x.subjects, q) == Asks(x.request) && Resolve(y.ids, y.subjects, q) == Asks(y.request)
    ensures SameName(x.ids.types, y.ids.types, x.request.obj.typ, y.request.obj.typ)
    ensures SameName(x.ids.relations, y.ids.relations, x.request.relation, y.request.relation)
  {
  }

  lemma BetweenLinks(x: Side, y: Side, defs: seq<Grammar.Definition>, held: set<Tuples.Tuple>, q: NamedRequest)
    requires SideOk(x, defs, held, q) && SideOk(y, defs, held, q)
    ensures Links(Between(x, y, held), x.ids, y.ids)
  {
    hide AllKnown, Mentions, NameIds.Object, Compile.Means, Accepts, Resolve, SameName, SameMention, IdsOk,
         CheckRequest.WellFormed;
    var c := Between(x, y, held);
    forall i, j, i', j' | SameType(c, i, j) && SameType(c, i', j') ensures i == i' <==> j == j' {
      NamesOneToOne(x.ids.types, y.ids.types, i, j, i', j');
    }
    forall i, j, i', j' | SameRelation(c, i, j) && SameRelation(c, i', j') ensures i == i' <==> j == j' {
      RelationsOneToOne(x.ids.relations, y.ids.relations, i, j, i', j');
    }
    forall o, p, o', p' | SameObject(c, o, p) && SameObject(c, o', p') ensures o == o' <==> p == p' {
      if SameMention(x.ids, y.ids, held, o, p) {
        AskedOneToOne(x, y, defs, held, q, o, p);
        if SameMention(x.ids, y.ids, held, o', p') { MentionsOneToOne(x.ids, y.ids, held, o, p, o', p'); }
      } else if SameMention(x.ids, y.ids, held, o', p') {
        AskedOneToOne(x, y, defs, held, q, o', p');
      }
    }
    forall o, p | SameObject(c, o, p) ensures SameType(c, o.typ, p.typ) {
      if SameMention(x.ids, y.ids, held, o, p) { MentionTypes(x.ids, y.ids, held, o, p); } else { AskedTypes(x, y, q); }
    }
    forall n | n in x.ids.types && n in y.ids.types ensures SameType(c, x.ids.types[n], y.ids.types[n]) {
      BothName(x.ids.types, y.ids.types, n);
    }
    forall n | n in x.ids.relations && n in y.ids.relations ensures SameRelation(c, x.ids.relations[n], y.ids.relations[n]) {
      BothName(x.ids.relations, y.ids.relations, n);
    }
  }

  lemma BothName(x: Ids, y: Ids, n: string)
    requires n in x && n in y
    ensures SameName(x, y, x[n], y[n])
  {
  }

  lemma RelationsOneToOne(x: Ids, y: Ids, i: nat, j: nat, i': nat, j': nat)
    requires IdsOk(x) && IdsOk(y)
    requires (i == j == 0) || SameName(x, y, i, j)
    requires (i' == j' == 0) || SameName(x, y, i', j')
    ensures i == i' <==> j == j'
  {
  }

  // ---- The same world ----

  /** A tuple held is the same tuple on both sides. */
  lemma TupleSame(c: Corr, x: Side, y: Side, held: set<Tuples.Tuple>, t: Tuples.Tuple)
    requires c == Between(x, y, held) && Links(c, x.ids, y.ids) && AllKnown(x.ids, held) && AllKnown(y.ids, held) && t in held
    ensures SameTuple(c, TupleOf(x.ids, t), TupleOf(y.ids, t))
  {
    hide CorrOk, Tuples.Tuple.Valid;
    assert Naming.Known(x.ids, t) && Naming.Known(y.ids, t) && t.Valid();
    assert Mentions(held, t.resourceType, t.resourceID);
    assert SameMention(x.ids, y.ids, held, x.ids.Object(t.resourceType, t.resourceID), y.ids.Object(t.resourceType, t.resourceID));
    if t.subjectID != Names.WILDCARD_MARKER {
      assert Mentions(held, t.subjectType, t.subjectID);
      assert SameMention(x.ids, y.ids, held, x.ids.Object(t.subjectType, t.subjectID), y.ids.Object(t.subjectType, t.subjectID));
    }
    assert SameRelation(c, NO_RELATION, NO_RELATION);
  }

  lemma SubjectUnique(c: Corr, s: SubjectRef, u: SubjectRef, u': SubjectRef)
    requires CorrOk(c) && SameSubject(c, s, u) && SameSubject(c, s, u')
    ensures u == u'
  {
  }

  /** A tuple's subject is the one asked about exactly where the request names it. */
  lemma AskedSubject(s: Side, q: NamedRequest, t: Tuples.Tuple)
    requires s.ids.Ok() && Resolve(s.ids, s.subjects, q) == Asks(s.request) && s.request.WellFormed() && t.Valid() && Naming.Known(s.ids, t)
    ensures SubjectOf(s.ids, t) == s.request.subject <==>
              t.subjectType == q.subjectType && t.subjectID == q.subjectID && t.subjectRelation == q.subjectRelation
  {
  }

  lemma SubjectTypesSame(x: Side, y: Side, q: NamedRequest)
    requires Resolve(x.ids, x.subjects, q) == Asks(x.request) && Resolve(y.ids, y.subjects, q) == Asks(y.request)
    requires x.request.WellFormed() && y.request.WellFormed()
    ensures SameName(x.ids.types, y.ids.types, x.request.subject.typ, y.request.subject.typ)
    ensures (x.request.subject.relation == y.request.subject.relation == NO_RELATION)
            || SameName(x.ids.relations, y.ids.relations, x.request.subject.relation, y.request.subject.relation)
  {
  }

  ghost function WorldOfSide(s: Side, held: set<Tuples.Tuple>): World { WorldOf(s.d, IdTuples(s.ids, held), s.request) }

  lemma AskersSame(c: Corr, x: Side, y: Side, defs: seq<Grammar.Definition>, held: set<Tuples.Tuple>, q: NamedRequest)
    requires SideOk(x, defs, held, q) && SideOk(y, defs, held, q) && c == Between(x, y, held) && Links(c, x.ids, y.ids)
    ensures SameAsker(c, WorldOfSide(x, held), WorldOfSide(y, held))
  {
    hide AllKnown, Compile.Means, Accepts, Resolve, SameName, CorrOk, NameIds.Ok, SameSubject, SameMention;
    SubjectTypesSame(x, y, q);
    var w, v := WorldOfSide(x, held), WorldOfSide(y, held);
    forall t, u | t in w.tuples && u in v.tuples && SameTuple(c, t, u) ensures t.subject == w.subject <==> u.subject == v.subject {
      var a :| a in held && t == TupleOf(x.ids, a);
      TupleSame(c, x, y, held, a);
      SubjectUnique(c, t.subject, u.subject, SubjectOf(y.ids, a));
      HeldIsKnown(x.ids, held, a);
      HeldIsKnown(y.ids, held, a);
      AskedSubject(x, q, a);
      AskedSubject(y, q, a);
    }
  }

  lemma HeldIsKnown(ids: NameIds, held: set<Tuples.Tuple>, t: Tuples.Tuple)
    requires AllKnown(ids, held) && t in held
    ensures t.Valid() && Naming.Known(ids, t)
  {
  }

  lemma TuplesSame(c: Corr, x: Side, y: Side, held: set<Tuples.Tuple>)
    requires c == Between(x, y, held) && Links(c, x.ids, y.ids) && AllKnown(x.ids, held) && AllKnown(y.ids, held)
    ensures SameTuples(c, WorldOfSide(x, held), WorldOfSide(y, held))
  {
    hide AllKnown, CorrOk, SameTuple, Between;
    var w, v := WorldOfSide(x, held), WorldOfSide(y, held);
    forall t | t in w.tuples ensures TupleAmong(c, t, v) {
      var a :| a in held && t == TupleOf(x.ids, a);
      TupleSame(c, x, y, held, a);
      assert TupleOf(y.ids, a) in v.tuples;
    }
    forall u | u in v.tuples ensures TupleBack(c, w, u) {
      var a :| a in held && u == TupleOf(y.ids, a);
      TupleSame(c, x, y, held, a);
      assert TupleOf(x.ids, a) in w.tuples;
    }
  }

  lemma ObjectsSame(c: Corr, x: Side, y: Side, held: set<Tuples.Tuple>)
    requires c == Between(x, y, held) && Links(c, x.ids, y.ids) && AllKnown(x.ids, held) && AllKnown(y.ids, held)
    ensures SameObjects(c, WorldOfSide(x, held), WorldOfSide(y, held))
  {
    hide AllKnown, CorrOk;
    var w, v := WorldOfSide(x, held), WorldOfSide(y, held);
    assert SameObject(c, x.request.obj, y.request.obj);
    hide Between, SameObject;
    forall o | o in w.objs ensures ObjectAmong(c, o, v) {
      if o != x.request.obj {
        var t :| t in w.tuples && !t.subject.wildcard && o == t.subject.Object();
        var a :| a in held && t == TupleOf(x.ids, a);
        TupleSame(c, x, y, held, a);
        assert TupleOf(y.ids, a) in v.tuples && TupleOf(y.ids, a).subject.Object() in v.objs;
      } else {
        assert y.request.obj in v.objs;
      }
    }
    forall p | p in v.objs ensures ObjectBack(c, w, p) {
      if p != y.request.obj {
        var u :| u in v.tuples && !u.subject.wildcard && p == u.subject.Object();
        var a :| a in held && u == TupleOf(y.ids, a);
        TupleSame(c, x, y, held, a);
        assert TupleOf(x.ids, a) in w.tuples && TupleOf(x.ids, a).subject.Object() in w.objs;
      } else {
        assert x.request.obj in w.objs;
      }
    }
  }

  /** Both sides ask the same question of the same world. */
  lemma WorldsSame(c: Corr, x: Side, y: Side, defs: seq<Grammar.Definition>, held: set<Tuples.Tuple>, q: NamedRequest)
    requires SideOk(x, defs, held, q) && SideOk(y, defs, held, q) && c == Between(x, y, held)
    ensures SameWorld(c, WorldOfSide(x, held), WorldOfSide(y, held))
    ensures SameKey(c, x.request.Key(), y.request.Key())
  {
    BetweenLinks(x, y, defs, held, q);
    AskedTypes(x, y, q);
    assert SameKey(c, x.request.Key(), y.request.Key());
    hide AllKnown, CorrOk, Compile.Checked, Accepts, Resolve, NameIds.Ok, Between, SameDefs, SameTuples, SameObjects,
         SameAsker, CheckRequest.WellFormed;
    AskersSame(c, x, y, defs, held, q);
    TuplesSame(c, x, y, held);
    ObjectsSame(c, x, y, held);
    Compile.CheckedIsKnown(defs, x.ids);
    Compile.CheckedIsKnown(defs, y.ids);
    DefinitionsSame(c, x.ids, y.ids, defs);
  }

  /** Two replicas with the same source in force and the same tuples held decide every request alike, whatever
      histories brought them there and whatever ids they gave: if both answer, the answers agree. */
  lemma SameDecisions(x: Side, y: Side, defs: seq<Grammar.Definition>, held: set<Tuples.Tuple>, q: NamedRequest, a: bool, b: bool)
    requires SideOk(x, defs, held, q) && SideOk(y, defs, held, q)
    requires Answers(x.ids, x.d, held, x.request, a) && Answers(y.ids, y.d, held, y.request, b)
    ensures a == b
  {
    var c := Between(x, y, held);
    WorldsSame(c, x, y, defs, held, q);
    assert Accepts(x.d) && Accepts(y.d);
    hide SideOk, Accepts, SameWorld, Leveled, SoundDefs, FixedPoint, Between, SameKey;
    AcceptedHasLevels(x.d);
    AcceptedHasLevels(y.d);
    var lv :| Leveled(AllEdges(x.d), lv) && SoundDefs(x.d, lv);
    var lv' :| Leveled(AllEdges(y.d), lv') && SoundDefs(y.d, lv');
    FixedPointRenamed(c, WorldOfSide(x, held), WorldOfSide(y, held), lv, lv', x.request.Key(), y.request.Key());
  }
}
