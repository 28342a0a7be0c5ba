/** The fixed point does not depend on which ids stand for which names. */
module Renaming {
  import opened Refs
  import opened Schema
  import opened Model

  /** Which ids of one world stand for the same names as which ids of another. */
  datatype Corr = Corr(types: (TypeId, TypeId) -> bool, relations: (RelationId, RelationId) -> bool,
                       objects: (ObjectRef, ObjectRef) -> bool)

  ghost predicate SameType(c: Corr, a: TypeId, b: TypeId) { c.types(a, b) }
  ghost predicate SameRelation(c: Corr, a: RelationId, b: RelationId) { c.relations(a, b) }
  ghost predicate SameObject(c: Corr, a: ObjectRef, b: ObjectRef) { c.objects(a, b) }

  /** Each side determines the other. */
  ghost predicate CorrOk(c: Corr) {
    && (forall a, b, a', b' :: SameType(c, a, b) && SameType(c, a', b') ==> (a == a' <==> b == b'))
    && (forall a, b, a', b' :: SameRelation(c, a, b) && SameRelation(c, a', b') ==> (a == a' <==> b == b'))
    && (forall a, b, a', b' :: SameObject(c, a, b) && SameObject(c, a', b') ==> (a == a' <==> b == b'))
    && SameRelation(c, NO_RELATION, NO_RELATION)
    && forall a, b :: SameObject(c, a, b) ==> SameType(c, a.typ, b.typ)
  }

  ghost predicate SameRef(c: Corr, a: RelationRef, b: RelationRef) { SameType(c, a.typ, b.typ) && SameRelation(c, a.relation, b.relation) }
  ghost predicate SameKey(c: Corr, a: Key, b: Key) { SameObject(c, a.obj, b.obj) && SameRelation(c, a.relation, b.relation) }

  ghost predicate SameKind(c: Corr, a: SubjectType, b: SubjectType) {
    SameType(c, a.typ, b.typ) && SameRelation(c, a.relation, b.relation) && a.wildcard == b.wildcard
  }

  ghost predicate SameKinds(c: Corr, a: seq<SubjectType>, b: seq<SubjectType>) {
    |a| == |b| && forall i :: 0 <= i < |a| ==> SameKind(c, a[i], b[i])
  }

  ghost predicate SameSubject(c: Corr, a: SubjectRef, b: SubjectRef) {
    && SameType(c, a.typ, b.typ) && SameRelation(c, a.relation, b.relation) && a.wildcard == b.wildcard
    && if a.wildcard then a.id == b.id == 0 else SameObject(c, a.Object(), b.Object())
  }

  ghost predicate SameTuple(c: Corr, a: Tuple, b: Tuple) {
    SameObject(c, a.obj, b.obj) && SameRelation(c, a.relation, b.relation) && SameSubject(c, a.subject, b.subject)
  }

  ghost predicate SameRewrite(c: Corr, a: Rewrite, b: Rewrite) {
    && a.op == b.op && SameRelation(c, a.relation, b.relation) && SameRelation(c, a.tupleset, b.tupleset)
    && |a.children| == |b.children|
    && forall i :: 0 <= i < |a.children| ==> SameRewrite(c, a.children[i], b.children[i])
  }

  // Partners, named so that looking for one is a step of its own.
  ghost predicate RefAmong(c: Corr, a: RelationRef, e: Defs) { exists b :: b in e.rewrites && SameRef(c, a, b) }
  ghost predicate RefBack(c: Corr, d: Defs, b: RelationRef) { exists a :: a in d.rewrites && SameRef(c, a, b) }
  ghost predicate TupleAmong(c: Corr, t: Tuple, v: World) { exists u :: u in v.tuples && SameTuple(c, t, u) }
  ghost predicate TupleBack(c: Corr, w: World, u: Tuple) { exists t :: t in w.tuples && SameTuple(c, t, u) }
  ghost predicate ObjectAmong(c: Corr, o: ObjectRef, v: World) { exists p :: p in v.objs && SameObject(c, o, p) }
  ghost predicate ObjectBack(c: Corr, w: World, p: ObjectRef) { exists o :: o in w.objs && SameObject(c, o, p) }

  ghost predicate SameDefinition(c: Corr, d: Defs, e: Defs, a: RelationRef, b: RelationRef)
    requires a in d.rewrites && b in e.rewrites
  {
    SameRewrite(c, d.rewrites[a], e.rewrites[b]) && SameKinds(c, d.Accepted(a), e.Accepted(b))
  }

  /** The same definitions, told in different ids. */
  ghost predicate SameDefs(c: Corr, d: Defs, e: Defs) {
    && (forall a {:trigger RefAmong(c, a, e)} :: a in d.rewrites ==> RefAmong(c, a, e))
    && (forall b {:trigger RefBack(c, d, b)} :: b in e.rewrites ==> RefBack(c, d, b))
    && (forall a, b :: a in d.rewrites && b in e.rewrites && SameRef(c, a, b) ==> SameDefinition(c, d, e, a, b))
    && d.allowed.Keys <= d.rewrites.Keys && e.allowed.Keys <= e.rewrites.Keys
  }

  ghost predicate SameTuples(c: Corr, w: World, v: World) {
    && (forall t {:trigger TupleAmong(c, t, v)} :: t in w.tuples ==> TupleAmong(c, t, v))
    && (forall u {:trigger TupleBack(c, w, u)} :: u in v.tuples ==> TupleBack(c, w, u))
  }

  ghost predicate SameObjects(c: Corr, w: World, v: World) {
    && (forall o {:trigger ObjectAmong(c, o, v)} :: o in w.objs ==> ObjectAmong(c, o, v))
    && (forall p {:trigger ObjectBack(c, w, p)} :: p in v.objs ==> ObjectBack(c, w, p))
  }

  ghost predicate SameAsker(c: Corr, w: World, v: World) {
    && SameType(c, w.subject.typ, v.subject.typ) && SameRelation(c, w.subject.relation, v.subject.relation)
    && !w.subject.wildcard && !v.subject.wildcard
    && (forall t, u :: t in w.tuples && u in v.tuples && SameTuple(c, t, u) ==> (t.subject == w.subject <==> u.subject == v.subject))
  }

  /** The same question of the same tuples, told in different ids. */
  ghost predicate SameWorld(c: Corr, w: World, v: World) {
    CorrOk(c) && SameDefs(c, w.d, v.d) && SameTuples(c, w, v) && SameObjects(c, w, v) && SameAsker(c, w, v)
  }

  // ---- The other way round ----

  ghost function Flip(c: Corr): Corr {
    Corr((a: TypeId, b: TypeId) => c.types(b, a), (a: RelationId, b: RelationId) => c.relations(b, a),
         (a: ObjectRef, b: ObjectRef) => c.objects(b, a))
  }

  lemma FlipIs(c: Corr)
    ensures forall a: TypeId, b: TypeId :: SameType(Flip(c), b, a) <==> SameType(c, a, b)
    ensures forall a: RelationId, b: RelationId :: SameRelation(Flip(c), b, a) <==> SameRelation(c, a, b)
    ensures forall a: ObjectRef, b: ObjectRef :: SameObject(Flip(c), b, a) <==> SameObject(c, a, b)
  {
  }

  lemma {:induction false} RewriteFlips(c: Corr, a: Rewrite, b: Rewrite)
    requires SameRewrite(c, a, b)
    ensures SameRewrite(Flip(c), b, a)
  {
    FlipIs(c);
    hide Flip, SameType, SameRelation, SameObject;
    forall i | 0 <= i < |a.children| ensures SameRewrite(Flip(c), b.children[i], a.children[i]) {
      RewriteFlips(c, a.children[i], b.children[i]);
    }
  }

  lemma CorrFlips(c: Corr)
    requires CorrOk(c)
    ensures CorrOk(Flip(c))
  {
    FlipIs(c);
    hide Flip, SameType, SameRelation, SameObject;
  }

  lemma RefsFlip(c: Corr, d: Defs, e: Defs)
    requires SameDefs(c, d, e)
    ensures forall b :: b in e.rewrites ==> RefAmong(Flip(c), b, d)
    ensures forall a :: a in d.rewrites ==> RefBack(Flip(c), e, a)
  {
    FlipIs(c);
    hide Flip, SameType, SameRelation, SameObject, SameDefinition;
    forall b | b in e.rewrites ensures RefAmong(Flip(c), b, d) {
      assert RefBack(c, d, b);
      var a :| a in d.rewrites && SameRef(c, a, b);
      assert SameRef(Flip(c), b, a);
    }
    forall a | a in d.rewrites ensures RefBack(Flip(c), e, a) {
      assert RefAmong(c, a, e);
      var b :| b in e.rewrites && SameRef(c, a, b);
      assert SameRef(Flip(c), b, a);
    }
  }

  lemma DefinitionFlips(c: Corr, d: Defs, e: Defs, a: RelationRef, b: RelationRef)
    requires SameDefs(c, d, e) && a in d.rewrites && b in e.rewrites && SameRef(Flip(c), b, a)
    ensures SameDefinition(Flip(c), e, d, b, a)
  {
    FlipIs(c);
    hide Flip, SameRewrite, SameKinds, SameType, SameRelation, RefAmong, RefBack;
    assert SameRef(c, a, b) && SameDefinition(c, d, e, a, b);
    RewriteFlips(c, d.rewrites[a], e.rewrites[b]);
    KindsFlip(c, d.Accepted(a), e.Accepted(b));
  }

  lemma DefsFlip(c: Corr, d: Defs, e: Defs)
    requires SameDefs(c, d, e)
    ensures SameDefs(Flip(c), e, d)
  {
    hide Flip, SameDefinition, SameRef, RefAmong, RefBack;
    RefsFlip(c, d, e);
    forall a, b | a in d.rewrites && b in e.rewrites && SameRef(Flip(c), b, a) ensures SameDefinition(Flip(c), e, d, b, a) {
      DefinitionFlips(c, d, e, a, b);
    }
  }

  lemma KindsFlip(c: Corr, a: seq<SubjectType>, b: seq<SubjectType>)
    requires SameKinds(c, a, b)
    ensures SameKinds(Flip(c), b, a)
  {
  }

  lemma TuplesFlip(c: Corr, w: World, v: World)
    requires SameTuples(c, w, v) && SameAsker(c, w, v)
    ensures SameTuples(Flip(c), v, w) && SameAsker(Flip(c), v, w)
  {
    FlipIs(c);
    hide Flip, SameType, SameRelation, SameObject;
    forall t, u ensures SameTuple(Flip(c), u, t) <==> SameTuple(c, t, u) {}
    hide SameTuple;
    forall u | u in v.tuples ensures TupleAmong(Flip(c), u, w) {
      assert TupleBack(c, w, u);
      var t :| t in w.tuples && SameTuple(c, t, u);
      assert SameTuple(Flip(c), u, t);
    }
    forall t | t in w.tuples ensures TupleBack(Flip(c), v, t) {
      assert TupleAmong(c, t, v);
      var u :| u in v.tuples && SameTuple(c, t, u);
      assert SameTuple(Flip(c), u, t);
    }
  }

  lemma ObjectsFlip(c: Corr, w: World, v: World)
    requires SameObjects(c, w, v)
    ensures SameObjects(Flip(c), v, w)
  {
    FlipIs(c);
    hide Flip, SameType, SameRelation, SameObject;
    forall p | p in v.objs ensures ObjectAmong(Flip(c), p, w) {
      assert ObjectBack(c, w, p);
      var o :| o in w.objs && SameObject(c, o, p);
      assert SameObject(Flip(c), p, o);
    }
    forall o | o in w.objs ensures ObjectBack(Flip(c), v, o) {
      assert ObjectAmong(c, o, v);
      var p :| p in v.objs && SameObject(c, o, p);
      assert SameObject(Flip(c), p, o);
    }
  }

  lemma WorldFlips(c: Corr, w: World, v: World)
    requires SameWorld(c, w, v)
    ensures SameWorld(Flip(c), v, w)
    ensures forall a, b :: SameKey(Flip(c), b, a) <==> SameKey(c, a, b)
  {
    FlipIs(c);
    CorrFlips(c);
    DefsFlip(c, w.d, v.d);
    TuplesFlip(c, w, v);
    ObjectsFlip(c, w, v);
    hide Flip, SameDefs, CorrOk, SameTuples, SameObjects, SameAsker, SameType, SameRelation, SameObject;
  }

  // ---- Entailment ----

  /** held and holds have the same keys. */
  ghost predicate SameHeld(c: Corr, held: set<Key>, holds: set<Key>) {
    forall a, b :: SameKey(c, a, b) ==> (a in held <==> b in holds)
  }

  lemma HeldFlips(c: Corr, held: set<Key>, holds: set<Key>)
    requires SameHeld(c, held, holds)
    ensures SameHeld(Flip(c), holds, held)
  {
  }

  lemma SameDefined(c: Corr, d: Defs, e: Defs, a: RelationRef, b: RelationRef)
    requires CorrOk(c) && SameDefs(c, d, e) && SameRef(c, a, b)
    ensures a in d.rewrites <==> b in e.rewrites
  {
    hide SameType, SameRelation;
    if a in d.rewrites {
      assert RefAmong(c, a, e);
      var b' :| b' in e.rewrites && SameRef(c, a, b');
      assert b' == b;
    }
    if b in e.rewrites {
      assert RefBack(c, d, b);
      var a' :| a' in d.rewrites && SameRef(c, a', b);
      assert a' == a;
    }
  }

  lemma SameAllows(c: Corr, d: Defs, e: Defs, a: RelationRef, b: RelationRef, st: SubjectType, su: SubjectType)
    requires CorrOk(c) && SameDefs(c, d, e) && SameRef(c, a, b) && SameKind(c, st, su)
    ensures d.Allows(a, st) <==> e.Allows(b, su)
  {
    SameDefined(c, d, e, a, b);
    hide SameType, SameRelation, SameRewrite;
    var xs, ys := d.Accepted(a), e.Accepted(b);
    if a in d.rewrites {
      assert SameDefinition(c, d, e, a, b);
      if d.Allows(a, st) { var i :| 0 <= i < |xs| && xs[i] == st; assert SameKind(c, xs[i], ys[i]); assert ys[i] == su; }
      if e.Allows(b, su) { var i :| 0 <= i < |ys| && ys[i] == su; assert SameKind(c, xs[i], ys[i]); assert xs[i] == st; }
    }
  }

  lemma GrantsSame(c: Corr, w: World, v: World, k: Key, j: Key, t: Tuple, u: Tuple, held: set<Key>, holds: set<Key>)
    requires SameWorld(c, w, v) && SameKey(c, k, j) && SameHeld(c, held, holds)
    requires t in w.tuples && u in v.tuples && SameTuple(c, t, u) && Grants(w, k, t, held)
    ensures Grants(v, j, u, holds)
  {
    hide SameDefs, SameTuples, SameObjects, SameType, SameRelation, SameObject;
    var s, r := t.subject, u.subject;
    assert u.obj == j.obj && u.relation == j.relation;
    assert SameRef(c, k.Ref(), j.Ref());
    SameAllows(c, w.d, v.d, k.Ref(), j.Ref(), SubjectType(s.typ, s.relation, s.wildcard), SubjectType(r.typ, r.relation, r.wildcard));
    if s == WildcardSubject(w.subject.typ) && w.subject.relation == NO_RELATION && w.d.Allows(k.Ref(), WildcardType(s.typ)) {
      assert r == WildcardSubject(v.subject.typ) && v.subject.relation == NO_RELATION;
    } else if s == w.subject && w.d.Allows(k.Ref(), SubjectType(s.typ, s.relation, false)) {
      assert r == v.subject;
    } else {
      assert SameKey(c, s.UsersetKey(), r.UsersetKey());
      assert r.relation != NO_RELATION;
    }
  }

  lemma LeadsSame(c: Corr, w: World, v: World, k: Key, j: Key, tupleset: RelationId, tupleset': RelationId, rel: RelationId, rel': RelationId,
                  t: Tuple, u: Tuple, held: set<Key>, holds: set<Key>)
    requires SameWorld(c, w, v) && SameKey(c, k, j) && SameHeld(c, held, holds)
    requires SameRelation(c, tupleset, tupleset') && SameRelation(c, rel, rel')
    requires t in w.tuples && u in v.tuples && SameTuple(c, t, u) && Leads(w, k, tupleset, rel, t, held)
    ensures Leads(v, j, tupleset', rel', u, holds)
  {
    hide SameDefs, SameTuples, SameObjects, SameAsker, SameType, SameRelation, SameObject;
    var s, r := t.subject, u.subject;
    assert u.obj == j.obj && u.relation == tupleset' && r.relation == NO_RELATION;
    SameAllows(c, w.d, v.d, RelationRef(k.obj.typ, tupleset), RelationRef(j.obj.typ, tupleset'), DirectType(s.typ), DirectType(r.typ));
    SameDefined(c, w.d, v.d, RelationRef(s.typ, rel), RelationRef(r.typ, rel'));
    assert SameKey(c, Key(s.Object(), rel), Key(r.Object(), rel'));
  }

  lemma ThisSame(c: Corr, w: World, v: World, k: Key, j: Key, held: set<Key>, holds: set<Key>)
    requires SameWorld(c, w, v) && SameKey(c, k, j) && SameHeld(c, held, holds)
    requires exists t :: t in w.tuples && Grants(w, k, t, held)
    ensures exists u :: u in v.tuples && Grants(v, j, u, holds)
  {
    hide SameTuple, SameHeld, SameKey, CorrOk, SameDefs, SameObjects, SameAsker, Grants;
    var t :| t in w.tuples && Grants(w, k, t, held);
    assert TupleAmong(c, t, v);
    var u :| u in v.tuples && SameTuple(c, t, u);
    GrantsSame(c, w, v, k, j, t, u, held, holds);
  }

  lemma ArrowSame(c: Corr, w: World, v: World, rw: Rewrite, rv: Rewrite, k: Key, j: Key, held: set<Key>, holds: set<Key>)
    requires SameWorld(c, w, v) && SameKey(c, k, j) && SameHeld(c, held, holds) && SameRewrite(c, rw, rv)
    requires exists t :: t in w.tuples && Leads(w, k, rw.tupleset, rw.relation, t, held)
    ensures exists u :: u in v.tuples && Leads(v, j, rv.tupleset, rv.relation, u, holds)
  {
    hide SameTuple, SameHeld, SameKey, CorrOk, SameDefs, SameObjects, SameAsker, Leads, SameRelation;
    var t :| t in w.tuples && Leads(w, k, rw.tupleset, rw.relation, t, held);
    assert TupleAmong(c, t, v);
    var u :| u in v.tuples && SameTuple(c, t, u);
    LeadsSame(c, w, v, k, j, rw.tupleset, rv.tupleset, rw.relation, rv.relation, t, u, held, holds);
  }

  /** Corresponding rewrites entail the same of corresponding keys. */
  lemma {:induction false} EntailsSame(c: Corr, w: World, v: World, rw: Rewrite, rv: Rewrite, k: Key, j: Key,
                                       held: set<Key>, holds: set<Key>, settled: set<Key>, settles: set<Key>)
    requires SameWorld(c, w, v) && SameRewrite(c, rw, rv) && SameKey(c, k, j)
    requires SameHeld(c, held, holds) && SameHeld(c, settled, settles)
    ensures Entails(w, rw, k, held, settled) <==> Entails(v, rv, j, holds, settles)
    decreases rw
  {
    hide SameWorld, SameHeld, SameKey, Grants, Leads, SameRelation;
    match rw.op {
      case This =>
        FlipAll(c, w, v, rw, rv, held, holds);
        if exists t :: t in w.tuples && Grants(w, k, t, held) { ThisSame(c, w, v, k, j, held, holds); }
        if exists u :: u in v.tuples && Grants(v, j, u, holds) { ThisSame(Flip(c), v, w, j, k, holds, held); }
      case ComputedUserset => ComputedSame(c, rw, rv, k, j, held, holds);
      case TupleToUserset =>
        FlipAll(c, w, v, rw, rv, held, holds);
        if exists t :: t in w.tuples && Leads(w, k, rw.tupleset, rw.relation, t, held) { ArrowSame(c, w, v, rw, rv, k, j, held, holds); }
        if exists u :: u in v.tuples && Leads(v, j, rv.tupleset, rv.relation, u, holds) { ArrowSame(Flip(c), v, w, rv, rw, j, k, holds, held); }
      case Other(_) =>
      case _ =>
        forall i | 0 <= i < |rw.children|
          ensures Entails(w, rw.children[i], k, held, settled) <==> Entails(v, rv.children[i], j, holds, settles)
          ensures Entails(w, rw.children[i], k, settled, settled) <==> Entails(v, rv.children[i], j, settles, settles) {
          EntailsSame(c, w, v, rw.children[i], rv.children[i], k, j, held, holds, settled, settles);
          EntailsSame(c, w, v, rw.children[i], rv.children[i], k, j, settled, settles, settled, settles);
        }
    }
  }

  lemma FlipAll(c: Corr, w: World, v: World, rw: Rewrite, rv: Rewrite, held: set<Key>, holds: set<Key>)
    requires SameWorld(c, w, v) && SameRewrite(c, rw, rv) && SameHeld(c, held, holds)
    ensures SameWorld(Flip(c), v, w) && SameRewrite(Flip(c), rv, rw) && SameHeld(Flip(c), holds, held)
    ensures forall a, b :: SameKey(Flip(c), b, a) <==> SameKey(c, a, b)
  {
    WorldFlips(c, w, v);
    RewriteFlips(c, rw, rv);
    HeldFlips(c, held, holds);
  }

  lemma ComputedSame(c: Corr, rw: Rewrite, rv: Rewrite, k: Key, j: Key, held: set<Key>, holds: set<Key>)
    requires SameKey(c, k, j) && SameHeld(c, held, holds) && SameRelation(c, rw.relation, rv.relation)
    ensures Key(k.obj, rw.relation) in held <==> Key(j.obj, rv.relation) in holds
  {
  }

  lemma EntailsKeySame(c: Corr, w: World, v: World, k: Key, j: Key, held: set<Key>, holds: set<Key>, settled: set<Key>, settles: set<Key>)
    requires SameWorld(c, w, v) && SameKey(c, k, j) && SameHeld(c, held, holds) && SameHeld(c, settled, settles)
    requires EntailsKey(w, k, held, settled)
    ensures EntailsKey(v, j, holds, settles)
  {
    hide Entails, SameHeld, SameRewrite, SameTuples, SameObjects, SameAsker, SameType, SameRelation, SameObject;
    assert SameRef(c, k.Ref(), j.Ref());
    SameDefined(c, w.d, v.d, k.Ref(), j.Ref());
    assert SameDefinition(c, w.d, v.d, k.Ref(), j.Ref());
    EntailsSame(c, w, v, w.d.rewrites[k.Ref()], v.d.rewrites[j.Ref()], k, j, held, holds, settled, settles);
  }

  // ---- Models ----

  /** The keys of v that stand for keys of m. */
  ghost function Image(c: Corr, v: World, m: set<Key>): set<Key> {
    set j | j in v.Keys() && HasPartner(c, m, j)
  }

  ghost predicate HasPartner(c: Corr, m: set<Key>, j: Key) { exists k :: k in m && SameKey(c, k, j) }

  /** Every key of one world has its partner among the other's. */
  lemma Partner(c: Corr, w: World, v: World, k: Key) returns (j: Key)
    requires SameWorld(c, w, v) && k in w.Keys()
    ensures j in v.Keys() && SameKey(c, k, j)
  {
    hide SameTuples, SameAsker, SameType, SameRelation, SameObject, SameDefinition;
    assert ObjectAmong(c, k.obj, v) && RefAmong(c, k.Ref(), v.d);
    var p :| p in v.objs && SameObject(c, k.obj, p);
    var b :| b in v.d.rewrites && SameRef(c, k.Ref(), b);
    j := Key(p, b.relation);
    assert j.Ref() == b;
  }

  lemma PartnerUnique(c: Corr, k: Key, k': Key, j: Key, j': Key)
    requires CorrOk(c) && SameKey(c, k, j) && SameKey(c, k', j')
    ensures k == k' <==> j == j'
  {
  }

  lemma ImageSame(c: Corr, w: World, v: World, m: set<Key>)
    requires SameWorld(c, w, v) && m <= w.Keys()
    ensures SameHeld(c, m, Image(c, v, m))
  {
    hide SameDefs, SameTuples, SameObjects, SameAsker, SameKey;
    forall a, b | SameKey(c, a, b) ensures a in m <==> b in Image(c, v, m) {
      if a in m {
        var j := Partner(c, w, v, a);
        PartnerUnique(c, a, a, b, j);
      }
      if b in Image(c, v, m) {
        var k :| k in m && SameKey(c, k, b);
        PartnerUnique(c, a, k, b, b);
      }
    }
  }

  /** A model of one world, told in the other's ids, is a model of the other. */
  lemma ModelRenamed(c: Corr, w: World, v: World, m: set<Key>)
    requires SameWorld(c, w, v) && IsModel(w, m)
    ensures IsModel(v, Image(c, v, m))
  {
    hide SameWorld, EntailsKey;
    var m' := Image(c, v, m);
    ImageSame(c, w, v, m);
    WorldFlips(c, w, v);
    HeldFlips(c, m, m');
    forall j | j in v.Keys() && EntailsKey(v, j, m', m') ensures j in m' {
      var k := Partner(Flip(c), v, w, j);
      assert SameKey(c, k, j);
      EntailsKeySame(Flip(c), v, w, j, k, m', m, m', m);
    }
    forall x: set<Key> | ClosedOn(v, v.Keys(), x, m') ensures m' <= x {
      LeastRenamed(c, w, v, m, x);
    }
  }

  /** Whatever is closed in the other world covers the image. */
  lemma LeastRenamed(c: Corr, w: World, v: World, m: set<Key>, x: set<Key>)
    requires SameWorld(c, w, v) && IsModel(w, m) && ClosedOn(v, v.Keys(), x, Image(c, v, m))
    ensures Image(c, v, m) <= x
  {
    hide SameWorld, EntailsKey;
    WorldFlips(c, w, v);
    ImageSame(c, w, v, m);
    var inside := x * v.Keys();
    var back := Image(Flip(c), w, inside);
    ImageSame(Flip(c), v, w, inside);
    FlipBack(c, back, inside);
    forall k | k in w.Keys() && EntailsKey(w, k, back, m) ensures k in back {
      var j := Partner(c, w, v, k);
      EntailsKeySame(c, w, v, k, j, back, inside, m, Image(c, v, m));
      MoreHeld(v, j, inside, x, Image(c, v, m));
    }
    assert m <= back;
  }

  lemma FlipBack(c: Corr, back: set<Key>, inside: set<Key>)
    requires SameHeld(Flip(c), inside, back)
    ensures SameHeld(c, back, inside)
  {
  }

  lemma MoreHeld(v: World, j: Key, less: set<Key>, more: set<Key>, settled: set<Key>)
    requires less <= more && EntailsKey(v, j, less, settled)
    ensures EntailsKey(v, j, more, settled)
  {
    Monotone(v, v.d.rewrites[j.Ref()], j, less, more, settled);
  }

  /** The same question told in different ids has the same answer. */
  lemma FixedPointRenamed(c: Corr, w: World, v: World, lv: Levels, lv': Levels, k: Key, j: Key)
    requires SameWorld(c, w, v) && SameKey(c, k, j)
    requires w.Closed() && SoundDefs(w.d, lv) && v.Closed() && SoundDefs(v.d, lv')
    ensures k in FixedPoint(w, lv) <==> j in FixedPoint(v, lv')
  {
    hide SameWorld, FixedPoint, SoundDefs, World.Closed;
    FixedPointIsModel(w, lv);
    var m := FixedPoint(w, lv);
    ModelRenamed(c, w, v, m);
    ModelUnique(v, lv', Image(c, v, m));
    ImageSame(c, w, v, m);
  }
}
