/** What answers mean, told of the answers to other requests: which of them a relation or a permission comes to. */
module Laws {
  import opened Refs
  import opened Schema
  import opened Model
  import opened Graph
  import opened Builder
  import opened Engine

  function Reference(name: RelationId): Rewrite { Rewrite(ComputedUserset, name, NO_RELATION, []) }
  function Arrow(tupleset: RelationId, target: RelationId): Rewrite { Rewrite(TupleToUserset, target, tupleset, []) }

  /** operand refers to name, or is written out where name is defined as the same on its own. */
  predicate StandsFor(d: Defs, typ: TypeId, operand: Rewrite, name: RelationId) {
    || operand == Reference(name)
    || (d.Defined(RelationRef(typ, name)) && d.rewrites[RelationRef(typ, name)] == operand)
  }

  /** ref is defined as op over operands that stand for names. */
  predicate Combines(d: Defs, ref: RelationRef, op: Op, names: seq<RelationId>) {
    && d.Defined(ref) && d.rewrites[ref].op == op && |d.rewrites[ref].children| == |names|
    && forall i | 0 <= i < |names| :: StandsFor(d, ref.typ, d.rewrites[ref].children[i], names[i])
  }

  // ---- One key of a model ----

  /** A model holds exactly the keys whose definitions it entails. */
  lemma ModelHolds(w: World, m: set<Key>, k: Key)
    requires IsModel(w, m) && k in w.Keys()
    ensures k in m <==> Entails(w, w.d.rewrites[k.Ref()], k, m, m)
  {
    hide Entails;
    if k in m { ModelSupported(w, m, k); }
  }

  /** No operand reads the relation it stands in, so it comes to the same in every permission of its type. */
  lemma {:induction false} SameElsewhere(w: World, m: set<Key>, rw: Rewrite, j: Key, k: Key)
    requires ShapeOk(w.d, k.Ref(), rw, false) && j.obj == k.obj
    ensures Entails(w, rw, j, m, m) <==> Entails(w, rw, k, m, m)
    decreases rw
  {
    forall i | 0 <= i < |rw.children| ensures Entails(w, rw.children[i], j, m, m) <==> Entails(w, rw.children[i], k, m, m) {
      SameElsewhere(w, m, rw.children[i], j, k);
    }
    if rw.op.TupleToUserset? { hide ArrowOk; }
  }

  lemma OperandHolds(w: World, m: set<Key>, k: Key, operand: Rewrite, name: RelationId)
    requires IsModel(w, m) && k in w.Keys() && StandsFor(w.d, k.obj.typ, operand, name) && ShapeOk(w.d, k.Ref(), operand, false)
    ensures Entails(w, operand, k, m, m) <==> Key(k.obj, name) in m
  {
    if operand != Reference(name) {
      hide IsModel, Entails, ShapeOk;
      var j := Key(k.obj, name);
      assert j in w.Keys();
      ModelHolds(w, m, j);
      SameElsewhere(w, m, operand, j, k);
    }
  }

  /** What a combination's operands come to. */
  lemma OperandsHold(w: World, m: set<Key>, k: Key, op: Op, names: seq<RelationId>)
    requires IsModel(w, m) && k in w.Keys() && Accepts(w.d) && Combines(w.d, k.Ref(), op, names)
    ensures forall i :: 0 <= i < |names| ==>
              (Entails(w, w.d.rewrites[k.Ref()].children[i], k, m, m) <==> Key(k.obj, names[i]) in m)
  {
    hide IsModel, Entails;
    assert DefinitionOk(w.d, k.Ref());
    forall i | 0 <= i < |names|
      ensures Entails(w, w.d.rewrites[k.Ref()].children[i], k, m, m) <==> Key(k.obj, names[i]) in m {
      OperandHolds(w, m, k, w.d.rewrites[k.Ref()].children[i], names[i]);
    }
  }

  // ---- One request ----

  /** The model every request on req's object is answered by. */
  lemma Answering(d: Defs, tuples: set<Tuple>, req: CheckRequest) returns (lv: Levels, m: set<Key>)
    requires Accepts(d)
    ensures Leveled(AllEdges(d), lv) && SoundDefs(d, lv)
    ensures m == FixedPoint(WorldOf(d, tuples, req), lv) && IsModel(WorldOf(d, tuples, req), m)
    ensures forall n :: Granted(d, tuples, req.(relation := n)) <==> Key(req.obj, n) in m
  {
    hide Accepts, FixedPoint, SoundDefs, IsModel, Leveled, Granted;
    AcceptedHasLevels(d);
    lv :| Leveled(AllEdges(d), lv) && SoundDefs(d, lv);
    var w := WorldOf(d, tuples, req);
    m := FixedPoint(w, lv);
    FixedPointIsModel(w, lv);
    forall n ensures Granted(d, tuples, req.(relation := n)) <==> Key(req.obj, n) in m {
      assert WorldOf(d, tuples, req.(relation := n)) == w;
      GrantedIs(d, tuples, req.(relation := n), lv);
    }
  }

  /** And every request on an object some tuple leads to. */
  lemma AnsweringAt(d: Defs, tuples: set<Tuple>, req: CheckRequest, lv: Levels, t: Tuple, n: RelationId)
    requires Accepts(d) && Leveled(AllEdges(d), lv) && SoundDefs(d, lv) && t in tuples && !t.subject.wildcard
    ensures Granted(d, tuples, req.(obj := t.subject.Object(), relation := n)) <==>
            Key(t.subject.Object(), n) in FixedPoint(WorldOf(d, tuples, req), lv)
  {
    hide Accepts, FixedPoint, SoundDefs, Leveled, Granted;
    var there := req.(obj := t.subject.Object(), relation := n);
    var w, v, k := WorldOf(d, tuples, there), WorldOf(d, tuples, req), there.Key();
    GrantedIs(d, tuples, there, lv);
    assert t.subject.Object() in v.objs;
    assert w.objs <= v.objs;
    assert k in w.Keys() <==> k in v.Keys();
    if k in w.Keys() { ObjectsIrrelevant(w, v, lv, k); }
  }

  // ---- Permissions ----

  /** A permission that names another is granted exactly where that one is. */
  lemma ReferenceGranted(d: Defs, tuples: set<Tuple>, req: CheckRequest, name: RelationId)
    requires Accepts(d) && d.Defined(req.Key().Ref()) && d.rewrites[req.Key().Ref()] == Reference(name)
    ensures Granted(d, tuples, req) <==> Granted(d, tuples, req.(relation := name))
  {
    PermissionGranted(d, tuples, req);
    hide Accepts, Granted;
  }

  /** A union is granted exactly where one of its operands is. */
  lemma UnionGranted(d: Defs, tuples: set<Tuple>, req: CheckRequest, names: seq<RelationId>)
    requires Accepts(d) && Combines(d, req.Key().Ref(), Union, names)
    ensures Granted(d, tuples, req) <==> exists i :: 0 <= i < |names| && Granted(d, tuples, req.(relation := names[i]))
  {
    hide Accepts, IsModel, SoundDefs, Leveled, Granted, FixedPoint, StandsFor;
    var lv, m := Answering(d, tuples, req);
    var w, k := WorldOf(d, tuples, req), req.Key();
    ModelHolds(w, m, k);
    OperandsHold(w, m, k, Union, names);
    assert req.(relation := req.relation) == req;
    if i :| 0 <= i < |names| && Key(req.obj, names[i]) in m { assert Granted(d, tuples, req.(relation := names[i])); }
  }

  /** An intersection is granted exactly where all its operands are. */
  lemma IntersectionGranted(d: Defs, tuples: set<Tuple>, req: CheckRequest, names: seq<RelationId>)
    requires Accepts(d) && Combines(d, req.Key().Ref(), Intersection, names)
    ensures Granted(d, tuples, req) <==> forall i :: 0 <= i < |names| ==> Granted(d, tuples, req.(relation := names[i]))
  {
    hide Accepts, IsModel, SoundDefs, Leveled, Granted, FixedPoint, StandsFor;
    var lv, m := Answering(d, tuples, req);
    var w, k := WorldOf(d, tuples, req), req.Key();
    ModelHolds(w, m, k);
    OperandsHold(w, m, k, Intersection, names);
    assert req.(relation := req.relation) == req;
  }

  /** An exclusion is granted exactly where its first operand is and its second is not. */
  lemma ExclusionGranted(d: Defs, tuples: set<Tuple>, req: CheckRequest, base: RelationId, sub: RelationId)
    requires Accepts(d) && Combines(d, req.Key().Ref(), Exclusion, [base, sub])
    ensures Granted(d, tuples, req) <==>
            Granted(d, tuples, req.(relation := base)) && !Granted(d, tuples, req.(relation := sub))
  {
    hide Accepts, IsModel, SoundDefs, Leveled, Granted, FixedPoint, StandsFor;
    var lv, m := Answering(d, tuples, req);
    var w, k := WorldOf(d, tuples, req), req.Key();
    ModelHolds(w, m, k);
    OperandsHold(w, m, k, Exclusion, [base, sub]);
    assert req.(relation := req.relation) == req;
    assert [base, sub][0] == base && [base, sub][1] == sub;
  }

  /** t puts an object the tupleset accepts on req's own, and the target is granted there. */
  ghost predicate LedBy(d: Defs, tuples: set<Tuple>, req: CheckRequest, tupleset: RelationId, target: RelationId, t: Tuple) {
    && t.obj == req.obj && t.relation == tupleset && !t.subject.wildcard && t.subject.relation == NO_RELATION
    && d.Allows(RelationRef(req.obj.typ, tupleset), DirectType(t.subject.typ))
    && Granted(d, tuples, req.(obj := t.subject.Object(), relation := target))
  }

  /** An arrow is granted exactly where some stored object leads to one that grants the target. */
  lemma ArrowGranted(d: Defs, tuples: set<Tuple>, req: CheckRequest, tupleset: RelationId, target: RelationId)
    requires Accepts(d) && d.Defined(req.Key().Ref()) && d.rewrites[req.Key().Ref()] == Arrow(tupleset, target)
    ensures Granted(d, tuples, req) <==> exists t :: t in tuples && LedBy(d, tuples, req, tupleset, target, t)
  {
    PermissionGranted(d, tuples, req);
    hide Accepts, Granted, LedBy;
  }

  /** A permission's expression, answer by answer. */
  ghost predicate Says(d: Defs, tuples: set<Tuple>, req: CheckRequest, rw: Rewrite)
    decreases rw
  {
    match rw.op
    case ComputedUserset => Granted(d, tuples, req.(relation := rw.relation))
    case TupleToUserset => exists t :: t in tuples && LedBy(d, tuples, req, rw.tupleset, rw.relation, t)
    case Union => exists i :: 0 <= i < |rw.children| && Says(d, tuples, req, rw.children[i])
    case Intersection => forall i :: 0 <= i < |rw.children| ==> Says(d, tuples, req, rw.children[i])
    case Exclusion => |rw.children| == 2 && Says(d, tuples, req, rw.children[0]) && !Says(d, tuples, req, rw.children[1])
    case _ => false
  }

  lemma {:induction false} EntailsSays(d: Defs, tuples: set<Tuple>, req: CheckRequest, lv: Levels, m: set<Key>, rw: Rewrite)
    requires Accepts(d) && Leveled(AllEdges(d), lv) && SoundDefs(d, lv) && ShapeOk(d, req.Key().Ref(), rw, false)
    requires m == FixedPoint(WorldOf(d, tuples, req), lv)
    requires forall n :: Granted(d, tuples, req.(relation := n)) <==> Key(req.obj, n) in m
    ensures Entails(WorldOf(d, tuples, req), rw, req.Key(), m, m) <==> Says(d, tuples, req, rw)
    decreases rw
  {
    hide Accepts, Leveled, SoundDefs, Granted, FixedPoint, ArrowOk, Model.Leads, LedBy;
    var w := WorldOf(d, tuples, req);
    if rw.op.TupleToUserset? {
      forall t | t in tuples
        ensures Leads(w, req.Key(), rw.tupleset, rw.relation, t, m) <==> LedBy(d, tuples, req, rw.tupleset, rw.relation, t) {
        LeadsIs(d, tuples, req, lv, m, rw.tupleset, rw.relation, t);
      }
    }
    forall i | 0 <= i < |rw.children|
      ensures Entails(w, rw.children[i], req.Key(), m, m) <==> Says(d, tuples, req, rw.children[i]) {
      EntailsSays(d, tuples, req, lv, m, rw.children[i]);
    }
  }

  lemma LeadsIs(d: Defs, tuples: set<Tuple>, req: CheckRequest, lv: Levels, m: set<Key>, tupleset: RelationId, target: RelationId,
                t: Tuple)
    requires Accepts(d) && Leveled(AllEdges(d), lv) && SoundDefs(d, lv) && t in tuples
    requires m == FixedPoint(WorldOf(d, tuples, req), lv)
    ensures Leads(WorldOf(d, tuples, req), req.Key(), tupleset, target, t, m) <==> LedBy(d, tuples, req, tupleset, target, t)
  {
    hide Accepts, Leveled, SoundDefs, Granted, FixedPoint;
    if !t.subject.wildcard { AnsweringAt(d, tuples, req, lv, t, target); }
    assert m <= WorldOf(d, tuples, req).Keys();
  }

  /** A permission is granted exactly where its expression, however nested, comes out so. */
  lemma PermissionGranted(d: Defs, tuples: set<Tuple>, req: CheckRequest)
    requires Accepts(d) && d.Defined(req.Key().Ref()) && d.rewrites[req.Key().Ref()].op != This
    ensures Granted(d, tuples, req) <==> Says(d, tuples, req, d.rewrites[req.Key().Ref()])
  {
    assert ShapeOk(d, req.Key().Ref(), d.rewrites[req.Key().Ref()], false) by { assert DefinitionOk(d, req.Key().Ref()); }
    hide Accepts, IsModel, SoundDefs, Leveled, Granted, FixedPoint, Says, Entails, ShapeOk;
    var lv, m := Answering(d, tuples, req);
    ModelHolds(WorldOf(d, tuples, req), m, req.Key());
    EntailsSays(d, tuples, req, lv, m, d.rewrites[req.Key().Ref()]);
    assert req.(relation := req.relation) == req;
  }

  // ---- Relations ----

  /** t is stored on the relation and grants it: it names the subject, or its whole type, or a userset that has it. */
  ghost predicate GrantedBy(d: Defs, tuples: set<Tuple>, req: CheckRequest, t: Tuple) {
    var s, ref := t.subject, req.Key().Ref();
    && t.obj == req.obj && t.relation == req.relation
    && (|| (s == req.subject && d.Allows(ref, SubjectType(s.typ, s.relation, false)))
        || (s == WildcardSubject(req.subject.typ) && req.subject.relation == NO_RELATION && d.Allows(ref, WildcardType(s.typ)))
        || (!s.wildcard && s.relation != NO_RELATION && d.Allows(ref, UsersetType(s.typ, s.relation))
            && Granted(d, tuples, req.(obj := s.Object(), relation := s.relation))))
  }

  /** A relation is granted exactly by its tuples, each of a kind it accepts. */
  lemma RelationGranted(d: Defs, tuples: set<Tuple>, req: CheckRequest)
    requires Accepts(d) && d.Defined(req.Key().Ref()) && d.rewrites[req.Key().Ref()].op == This
    ensures Granted(d, tuples, req) <==> exists t :: t in tuples && GrantedBy(d, tuples, req, t)
  {
    hide Accepts, IsModel, SoundDefs, Leveled, Granted, FixedPoint;
    var lv, m := Answering(d, tuples, req);
    var w, k := WorldOf(d, tuples, req), req.Key();
    ModelHolds(w, m, k);
    assert req.(relation := req.relation) == req;
    forall t | t in tuples ensures Model.Grants(w, k, t, m) <==> GrantedBy(d, tuples, req, t) {
      if !t.subject.wildcard { AnsweringAt(d, tuples, req, lv, t, t.subject.relation); }
    }
  }

  // ---- Grounding ----

  lemma {:induction false} NothingFromNothing(w: World, rw: Rewrite, k: Key, top: bool, m: set<Key>)
    requires w.tuples == {} && ShapeOk(w.d, k.Ref(), rw, top)
    ensures !Entails(w, rw, k, {}, m)
    decreases rw
  {
    hide ArrowOk;
    forall i | 0 <= i < |rw.children| ensures !Entails(w, rw.children[i], k, {}, m) {
      NothingFromNothing(w, rw.children[i], k, false, m);
    }
    if rw.op.Intersection? { assert !Entails(w, rw.children[0], k, {}, m); }
  }

  /** With no tuples nothing is granted, in circles or otherwise. */
  lemma NothingStoredNothingGranted(d: Defs, req: CheckRequest)
    requires Accepts(d)
    ensures !Granted(d, {}, req)
  {
    hide SoundDefs, Leveled, Granted, FixedPoint, Entails, AllowedOk, Stratified;
    var lv, m := Answering(d, {}, req);
    var w := WorldOf(d, {}, req);
    var none: set<Key> := {};
    forall k | k in w.Keys() ensures !EntailsKey(w, k, none, m) {
      assert DefinitionOk(d, k.Ref());
      NothingFromNothing(w, d.rewrites[k.Ref()], k, true, m);
    }
    assert ClosedOn(w, w.Keys(), none, m);
    assert m <= none;
    assert req.(relation := req.relation) == req;
  }
}
