/** What accepted definitions promise about answers, over all tuples. */
module Consequences {
  import opened Refs
  import opened Schema
  import opened Model
  import opened Graph
  import opened Builder
  import opened Engine

  // ---- Tuples no subtract side can read ----

  /** rw reads, under any of its subtract sides, relations of region only. */
  ghost predicate SubtractsIn(d: Defs, region: set<RelationRef>, from: RelationRef, rw: Rewrite)
    decreases rw
  {
    match rw.op
    case Exclusion =>
      |rw.children| == 2 ==> SubtractsIn(d, region, from, rw.children[0]) && Confined(d, region, from, rw.children[1])
    case Union => forall i :: 0 <= i < |rw.children| ==> SubtractsIn(d, region, from, rw.children[i])
    case Intersection => forall i :: 0 <= i < |rw.children| ==> SubtractsIn(d, region, from, rw.children[i])
    case _ => true
  }

  /** Where every edge of rw leads into region, rw is confined to it. */
  lemma {:induction false} EdgesConfine(d: Defs, region: set<RelationRef>, from: RelationRef, rw: Rewrite, top: bool, negated: bool)
    requires ShapeOk(d, from, rw, top)
    requires forall e :: e in Edges(d, from, rw, negated) ==> e.dst in region
    requires top ==> from in region && forall st :: st in d.Accepted(from) && st.relation != NO_RELATION ==> st.Target() in region
    ensures Confined(d, region, from, rw)
    decreases rw
  {
    match rw.op
    case This =>
    case Other(_) =>
    case ComputedUserset =>
      assert Edge(from, RelationRef(from.typ, rw.relation), negated) in Edges(d, from, rw, negated);
    case TupleToUserset =>
      var tupleset := RelationRef(from.typ, rw.tupleset);
      var targets := ArrowTargets(d, tupleset, rw.relation);
      assert Edges(d, from, rw, negated)[0] == Edge(from, tupleset, negated);
      forall st | st in d.Accepted(tupleset) && d.Defined(RelationRef(st.typ, rw.relation))
        ensures RelationRef(st.typ, rw.relation) in region {
        var i :| 0 <= i < |targets| && targets[i] == RelationRef(st.typ, rw.relation);
        assert Edges(d, from, rw, negated)[i + 1] == Edge(from, targets[i], negated);
      }
    case Exclusion =>
      EdgesConfine(d, region, from, rw.children[0], false, negated);
      EdgesConfine(d, region, from, rw.children[1], false, true);
      forall i | 0 <= i < |rw.children| ensures Confined(d, region, from, rw.children[i]) {}
    case _ =>
      forall i | 0 <= i < |rw.children| ensures Confined(d, region, from, rw.children[i]) {
        OperandEdges(d, from, rw, |rw.children|, i, negated);
        EdgesConfine(d, region, from, rw.children[i], false, negated);
      }
  }

  /** Where every negated edge of rw leads into region, its subtract sides are confined to it. */
  lemma {:induction false} NegatedConfine(d: Defs, region: set<RelationRef>, from: RelationRef, rw: Rewrite, top: bool)
    requires ShapeOk(d, from, rw, top)
    requires forall e :: e in Edges(d, from, rw, false) && e.negated ==> e.dst in region
    ensures SubtractsIn(d, region, from, rw)
    decreases rw
  {
    match rw.op
    case Exclusion =>
      NegatedConfine(d, region, from, rw.children[0], false);
      NegatedEdges(d, from, rw.children[1]);
      EdgesConfine(d, region, from, rw.children[1], false, true);
    case Union =>
      forall i | 0 <= i < |rw.children| ensures SubtractsIn(d, region, from, rw.children[i]) {
        OperandEdges(d, from, rw, |rw.children|, i, false);
        NegatedConfine(d, region, from, rw.children[i], false);
      }
    case Intersection =>
      forall i | 0 <= i < |rw.children| ensures SubtractsIn(d, region, from, rw.children[i]) {
        OperandEdges(d, from, rw, |rw.children|, i, false);
        NegatedConfine(d, region, from, rw.children[i], false);
      }
    case _ =>
  }

  /** Under a subtract side every edge is negated, an inner subtract's base included. */
  lemma {:induction false} NegatedEdges(d: Defs, from: RelationRef, rw: Rewrite)
    ensures forall e :: e in Edges(d, from, rw, true) ==> e.negated
    decreases rw, 1
  {
    match rw.op
    case Exclusion =>
      if |rw.children| == 2 {
        NegatedEdges(d, from, rw.children[0]);
        NegatedEdges(d, from, rw.children[1]);
      }
    case Union => NegatedEdgesOfAll(d, from, rw, |rw.children|);
    case Intersection => NegatedEdgesOfAll(d, from, rw, |rw.children|);
    case _ =>
  }

  lemma {:induction false} NegatedEdgesOfAll(d: Defs, from: RelationRef, rw: Rewrite, n: nat)
    requires n <= |rw.children|
    ensures forall e :: e in EdgesOfAll(d, from, rw, n, true) ==> e.negated
    decreases rw, 0, n
  {
    if n > 0 {
      NegatedEdgesOfAll(d, from, rw, n - 1);
      NegatedEdges(d, from, rw.children[n - 1]);
    }
  }

  ghost predicate IsReachable(d: Defs, reachable: set<RelationRef>) {
    forall v :: v in reachable <==> Subtracted(AllEdges(d), v)
  }

  /** What subtract sides reach is closed under reading, and holds everything subtract sides read. */
  lemma ReachableConfines(d: Defs, reachable: set<RelationRef>, ref: RelationRef)
    requires Accepts(d) && IsReachable(d, reachable) && d.Defined(ref)
    ensures ref in reachable ==> Confined(d, reachable, ref, d.rewrites[ref])
    ensures SubtractsIn(d, reachable, ref, d.rewrites[ref])
  {
    hide PicksUpWildcard;
    var rw := d.rewrites[ref];
    assert DefinitionOk(d, ref);
    var es := AllEdges(d);
    forall e | e in EdgesOf(d, ref) ensures (e.negated || ref in reachable) ==> e.dst in reachable {
      assert e in es;
      EdgeSources(d, ref, e);
      if e.negated {
        ReachSelf(es, e.dst);
      } else if ref in reachable {
        var n :| n in es && n.negated && Reach(es, n.dst, ref);
        ReachEdge(es, e);
        ReachTrans(es, n.dst, ref, e.dst);
      }
    }
    assert forall e :: e in Edges(d, ref, rw, false) ==> e in EdgesOf(d, ref);
    if ref in reachable {
      StoredEdgesIff(ref, d.Accepted(ref));
      forall st | st in d.Accepted(ref) && st.relation != NO_RELATION ensures st.Target() in reachable {
        assert Edge(ref, st.Target(), false) in EdgesOf(d, ref);
      }
      EdgesConfine(d, reachable, ref, rw, true, false);
    }
    NegatedConfine(d, reachable, ref, rw, true);
  }

  lemma EdgeSources(d: Defs, ref: RelationRef, e: Edge)
    requires d.Defined(ref) && e in EdgesOf(d, ref)
    ensures e.src == ref
  {
    StoredEdgesIff(ref, d.Accepted(ref));
    EdgesStart(d, ref, d.rewrites[ref], false);
  }

  lemma {:induction false} EdgesStart(d: Defs, from: RelationRef, rw: Rewrite, negated: bool)
    ensures forall e :: e in Edges(d, from, rw, negated) ==> e.src == from
    decreases rw, 1
  {
    match rw.op
    case Exclusion =>
      if |rw.children| == 2 {
        EdgesStart(d, from, rw.children[0], negated);
        EdgesStart(d, from, rw.children[1], true);
      }
    case Union => EdgesOfAllStart(d, from, rw, |rw.children|, negated);
    case Intersection => EdgesOfAllStart(d, from, rw, |rw.children|, negated);
    case _ =>
  }

  lemma {:induction false} EdgesOfAllStart(d: Defs, from: RelationRef, rw: Rewrite, n: nat, negated: bool)
    requires n <= |rw.children|
    ensures forall e :: e in EdgesOfAll(d, from, rw, n, negated) ==> e.src == from
    decreases rw, 0, n
  {
    if n > 0 {
      EdgesOfAllStart(d, from, rw, n - 1, negated);
      EdgesStart(d, from, rw.children[n - 1], negated);
    }
  }

  /** More tuples outside region, and a rewrite whose subtract sides stay inside it, entail no less. */
  lemma {:induction false} MoreTuples(w: World, v: World, lv: Levels, region: set<RelationRef>, rw: Rewrite, k: Key,
                                      x: set<Key>, m: set<Key>, m': set<Key>)
    requires SameOn(w, v, w.objs, region) && w.tuples <= v.tuples && k in w.Keys()
    requires Sound(w.d, lv, k.Ref(), rw, false) && SubtractsIn(w.d, region, k.Ref(), rw)
    requires Agree(w.Keys(), lv, region, lv(k.Ref()), true, m, m')
    requires Entails(w, rw, k, x, m)
    ensures Entails(v, rw, k, x, m')
    decreases rw
  {
    match rw.op
    case This =>
      var t :| t in w.tuples && Grants(w, k, t, x);
      assert Grants(v, k, t, x);
    case ComputedUserset =>
    case TupleToUserset =>
      var t :| t in w.tuples && Leads(w, k, rw.tupleset, rw.relation, t, x);
      assert Leads(v, k, rw.tupleset, rw.relation, t, x);
    case Union =>
      var i :| 0 <= i < |rw.children| && Entails(w, rw.children[i], k, x, m);
      MoreTuples(w, v, lv, region, rw.children[i], k, x, m, m');
    case Intersection =>
      forall i | 0 <= i < |rw.children| ensures Entails(v, rw.children[i], k, x, m') {
        MoreTuples(w, v, lv, region, rw.children[i], k, x, m, m');
      }
    case Exclusion =>
      MoreTuples(w, v, lv, region, rw.children[0], k, x, m, m');
      if Entails(v, rw.children[1], k, m', m') {
        SameOnFlips(w, v, w.objs, region);
        Local(v, w, w.objs, lv, region, rw.children[1], k, true, m', m, m', m);
      }
  }

  /** The model only grows with tuples outside what subtract sides reach, and is unmoved on what they do reach. */
  lemma ModelGrows(w: World, v: World, lv: Levels, reachable: set<RelationRef>)
    requires Accepts(w.d) && SoundDefs(w.d, lv) && IsReachable(w.d, reachable)
    requires w.Closed() && v.Closed() && w.d == v.d && w.subject == v.subject && w.objs <= v.objs && w.tuples <= v.tuples
    requires forall t :: t in v.tuples && t !in w.tuples ==> RelationRef(t.obj.typ, t.relation) !in reachable
    ensures FixedPoint(w, lv) <= FixedPoint(v, lv)
    ensures forall k :: k in w.Keys() && k.Ref() in reachable ==> (k in FixedPoint(w, lv) <==> k in FixedPoint(v, lv))
  {
    hide Accepts, Stratum, Entails, Sound, Confined, SubtractsIn;
    var m, m' := FixedPoint(w, lv), FixedPoint(v, lv);
    FixedPointIsModel(w, lv);
    FixedPointIsModel(v, lv);
    forall ref | w.d.Defined(ref) ensures ref in reachable ==> Confined(w.d, reachable, ref, w.d.rewrites[ref]) {
      ReachableConfines(w.d, reachable, ref);
    }
    assert RegionClosed(w.d, reachable);
    forall n ensures Agree(w.Keys(), lv, reachable, n, true, m, m') { ModelsAgree(w, v, w.objs, lv, reachable, m, m', n); }
    forall k | k in w.Keys() && EntailsKey(w, k, m', m) ensures k in m' {
      ReachableConfines(w.d, reachable, k.Ref());
      MoreTuples(w, v, lv, reachable, w.d.rewrites[k.Ref()], k, m', m, m');
      assert k in v.Keys() && EntailsKey(v, k, m', m');
    }
    assert ClosedOn(w, w.Keys(), m', m);
    forall k | k in w.Keys() && k.Ref() in reachable ensures k in m <==> k in m' {
      assert Agree(w.Keys(), lv, reachable, lv(k.Ref()) + 1, true, m, m');
    }
  }

  /** Storing a tuple on a relation no subtract side reaches turns no allowed check into a denied one, and changes no
      answer on the relations that subtract sides do reach. */
  lemma AddingTupleKeepsAllowed(schema: BuiltSchema, lv: Levels, tuples: set<Tuple>, t: Tuple, req: CheckRequest)
    requires Accepts(schema.d) && Leveled(AllEdges(schema.d), lv) && IsReachable(schema.d, schema.reachable)
    requires RelationRef(t.obj.typ, t.relation) !in schema.reachable
    ensures Entailed(schema.d, lv, tuples, req) ==> Entailed(schema.d, lv, tuples + {t}, req)
    ensures req.Key().Ref() in schema.reachable ==>
      (Entailed(schema.d, lv, tuples, req) <==> Entailed(schema.d, lv, tuples + {t}, req))
  {
    hide Accepts, Stratum, SoundDefs;
    AcceptedIsSound(schema.d, lv);
    var w, v := WorldOf(schema.d, tuples, req), WorldOf(schema.d, tuples + {t}, req);
    ModelGrows(w, v, lv, schema.reachable);
    if req.Key() !in w.Keys() { assert req.Key() !in v.Keys(); }
  }

  // ---- Subjects no tuple names ----

  /** k's own tuples grant nothing to a subject no tuple names, unless through a wildcard or a userset in held. */
  ghost predicate Barren(d: Defs, k: Key, held: set<Key>) {
    && (forall st :: st in d.Accepted(k.Ref()) ==> !st.wildcard)
    && (forall j: Key :: UsersetType(j.obj.typ, j.relation) in d.Accepted(k.Ref()) && j.relation != NO_RELATION ==> j !in held)
  }

  /** Where everything rw takes subjects from is unheld, rw grants nothing to a subject no tuple names. */
  lemma {:induction false} NothingForUnnamed(w: World, rw: Rewrite, k: Key, top: bool, held: set<Key>, m: set<Key>)
    requires ShapeOk(w.d, k.Ref(), rw, top)
    requires forall t :: t in w.tuples ==> t.subject != w.subject
    requires top && rw.op == This ==> Barren(w.d, k, held)
    requires forall j: Key :: j.Ref() in Sources(w.d, k.obj.typ, rw) ==> j !in held
    ensures !Entails(w, rw, k, held, m)
    decreases rw
  {
    match rw.op
    case This =>
      forall t | t in w.tuples ensures !Grants(w, k, t, held) {
        assert t.subject.UsersetKey().obj.typ == t.subject.typ;
      }
    case ComputedUserset =>
    case TupleToUserset =>
      var tupleset := RelationRef(k.obj.typ, rw.tupleset);
      forall t | t in w.tuples ensures !Leads(w, k, rw.tupleset, rw.relation, t, held) {
        var s := t.subject;
        if w.d.Allows(tupleset, DirectType(s.typ)) && w.d.Defined(RelationRef(s.typ, rw.relation)) {
          assert DirectType(s.typ).typ == s.typ;
          assert Key(s.Object(), rw.relation).Ref() in SeqSet(ArrowTargets(w.d, tupleset, rw.relation));
        }
      }
    case Union =>
      forall i | 0 <= i < |rw.children| ensures !Entails(w, rw.children[i], k, held, m) {
        NothingForUnnamed(w, rw.children[i], k, false, held, m);
      }
    case Intersection =>
      NothingForUnnamed(w, rw.children[0], k, false, held, m);
    case Exclusion =>
      NothingForUnnamed(w, rw.children[0], k, false, held, m);
    case Other(_) =>
  }

  /** A subject no tuple names can hold only what picks up a wildcard. */
  lemma UnnamedHoldsOnlyWildcards(w: World, m: set<Key>, k: Key)
    requires Accepts(w.d) && IsModel(w, m)
    requires forall t :: t in w.tuples ==> t.subject != w.subject
    requires k in m
    ensures PicksUpWildcard(w.d, k.Ref())
  {
    hide PicksUpWildcard, Entails, ShapeOk;
    var x := set j | j in m && PicksUpWildcard(w.d, j.Ref());
    forall j | j in w.Keys() && EntailsKey(w, j, x, m) ensures j in x {
      Monotone(w, w.d.rewrites[j.Ref()], j, x, m, m);
      assert EntailsKey(w, j, m, m);
      if !PicksUpWildcard(w.d, j.Ref()) {
        ClearedSources(w.d, j, x);
        assert DefinitionOk(w.d, j.Ref());
        NothingForUnnamed(w, w.d.rewrites[j.Ref()], j, true, x, m);
      }
    }
    assert ClosedOn(w, w.Keys(), x, m);
  }

  /** A relation that picks up no wildcard takes subjects only from relations that pick up none, the usersets it
      accepts included. */
  lemma ClearedSources(d: Defs, k: Key, held: set<Key>)
    requires Accepts(d) && d.Defined(k.Ref()) && !PicksUpWildcard(d, k.Ref())
    requires forall j :: j in held ==> PicksUpWildcard(d, j.Ref())
    ensures d.rewrites[k.Ref()].op == This ==> Barren(d, k, held)
    ensures forall j: Key :: j.Ref() in Sources(d, k.obj.typ, d.rewrites[k.Ref()]) ==> j !in held
  {
    var rw := d.rewrites[k.Ref()];
    assert DefinitionOk(d, k.Ref());
    if rw.op == This {
      assert IsWalk(d, [k.Ref()], k.Ref());
      forall j: Key | UsersetType(j.obj.typ, j.relation) in d.Accepted(k.Ref()) && j.relation != NO_RELATION ensures j !in held {
        var i :| 0 <= i < |d.Accepted(k.Ref())| && d.Accepted(k.Ref())[i] == UsersetType(j.obj.typ, j.relation);
        assert EntryOk(d, d.Accepted(k.Ref()), i);
        assert UsersetType(j.obj.typ, j.relation).Target() == j.Ref();
      }
    } else {
      forall j: Key | j.Ref() in Sources(d, k.obj.typ, rw) ensures j !in held {
        if PicksUpWildcard(d, j.Ref()) { WalkStep(d, k.Ref(), j.Ref()); }
      }
    }
  }

  /** Nobody whom no tuple names is a member of anything a relation accepts as a userset: asking about an unseen
      subject, the evaluator need not look through usersets for it. */
  lemma UnnamedIsInNoUserset(d: Defs, lv: Levels, tuples: set<Tuple>, req: CheckRequest, ref: RelationRef)
    requires Accepts(d) && Leveled(AllEdges(d), lv)
    requires forall t :: t in tuples ==> t.subject != req.subject
    requires d.Defined(ref) && req.relation != NO_RELATION
    requires UsersetType(req.obj.typ, req.relation) in d.Accepted(ref) && d.rewrites[ref].op == This
    ensures !Entailed(d, lv, tuples, req)
  {
    hide PicksUpWildcard, FixedPoint;
    AcceptedIsSound(d, lv);
    var w := WorldOf(d, tuples, req);
    FixedPointIsModel(w, lv);
    assert DefinitionOk(d, ref);
    var i :| 0 <= i < |d.Accepted(ref)| && d.Accepted(ref)[i] == UsersetType(req.obj.typ, req.relation);
    assert EntryOk(d, d.Accepted(ref), i);
    if Entailed(d, lv, tuples, req) { UnnamedHoldsOnlyWildcards(w, FixedPoint(w, lv), req.Key()); }
  }
}
