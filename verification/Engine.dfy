/** Checks against one built schema and one tuple source, and what their answers are worth. */
module Engine {
  import opened Refs
  import opened Schema
  import opened Model
  import opened Graph
  import opened Builder
  import opened RunState
  import opened ProofTree
  import opened Evaluator

  /** The question of a check: is subject a member of relation at obj? */
  datatype CheckRequest = CheckRequest(obj: ObjectRef, relation: RelationId, subject: SubjectRef, mode: ProofMode) {
    function Key(): Refs.Key { Refs.Key(obj, relation) }

    /** Object and relation resolve, and the subject is concrete. */
    predicate WellFormed() {
      obj.Valid() && relation != NO_RELATION && subject.Valid() && !subject.wildcard
    }
  }

  /** truncated says that nodes are missing from the proof. */
  datatype CheckResult = CheckResult(allowed: bool, proof: seq<ProofNode>, truncated: bool)

  /** The world a request is asked of: its own object, and every object a tuple leads to. */
  ghost function WorldOf(d: Defs, tuples: set<Tuple>, req: CheckRequest): (w: World)
    ensures w.Closed()
  {
    World(d, tuples, req.subject, {req.obj} + set t | t in tuples && !t.subject.wildcard :: t.subject.Object())
  }

  /** The answer the fixed point gives. */
  ghost predicate Entailed(d: Defs, lv: Levels, tuples: set<Tuple>, req: CheckRequest) {
    req.Key() in FixedPoint(WorldOf(d, tuples, req), lv)
  }

  /** The answer, by whichever levelling it is told. */
  ghost predicate Granted(d: Defs, tuples: set<Tuple>, req: CheckRequest) {
    exists lv :: Leveled(AllEdges(d), lv) && Entailed(d, lv, tuples, req)
  }

  lemma GrantedIs(d: Defs, tuples: set<Tuple>, req: CheckRequest, lv: Levels)
    requires Accepts(d) && Leveled(AllEdges(d), lv)
    ensures Granted(d, tuples, req) <==> Entailed(d, lv, tuples, req)
  {
    hide Accepts, FixedPoint, SoundDefs, Leveled, WorldOf;
    AcceptedIsSound(d, lv);
    AnyLevels(d, tuples, req, lv);
  }

  // ---- Proofs ----

  predicate Lists(nodes: seq<ProofNode>, p: int, c: int) { 0 <= p < |nodes| && c in nodes[p].children }

  ghost predicate HasParent(nodes: seq<ProofNode>, c: int) { exists p :: Lists(nodes, p, c) }

  /** One tree rooted at node 0, children above their parents and listed once, no larger than the bound. */
  ghost predicate IsTree(nodes: seq<ProofNode>) {
    && |nodes| <= MAX_PROOF_NODES
    && (forall p, c :: Lists(nodes, p, c) ==> p < c < |nodes|)
    && (forall c :: 0 < c < |nodes| ==> HasParent(nodes, c))
    && (forall p, q, c :: Lists(nodes, p, c) && Lists(nodes, q, c) ==> p == q)
    && (forall p :: 0 <= p < |nodes| ==> Rising(nodes[p].children))
  }

  /** Some part of the node's own definition, of the node's operator, holds in the fixed point. */
  ghost predicate Justified(w: World, held: set<Key>, node: ProofNode) {
    exists rw: Rewrite :: rw.op == node.op && w.d.Defined(node.key.Ref()) && Within(rw, w.d.rewrites[node.key.Ref()])
                 && Entails(w, rw, node.key, held, held)
  }

  lemma LogIsTree(l: Log, idx: int)
    requires TreeOk(l) && (if idx == NO_NODE then l.nodes == [] else idx == 0 < |l.nodes|)
    requires forall i :: idx < i < |l.nodes| && 0 <= i ==> l.parents[i] != NO_NODE
    ensures IsTree(l.nodes)
  {
    hide Rising;
    var nodes := l.nodes;
    forall p, c ensures Lists(nodes, p, c) <==> ChildOf(l, p, c) {}
    forall c | 0 < c < |nodes| ensures HasParent(nodes, c) {
      assert ChildOf(l, l.parents[c], c);
      assert Lists(nodes, l.parents[c], c);
    }
  }

  // ---- Check ----

  lemma StartOk(g: Setting, k: Key)
    requires g.Valid()
    ensures Inv(g, State(map[], [], 0, 0, 0, map[])) && CallOk(g, State(map[], [], 0, 0, 0, map[]), None, k)
  {
  }

  lemma FinalAnswer(g: Setting, s: State, s': State, k: Key, allowed: bool)
    requires Returned(g, s, s', None, k, allowed)
    ensures allowed <==> k in g.m
  {
  }

  /** Every levelling gives the fixed point the run was measured against. */
  lemma AnyLevels(d: Defs, tuples: set<Tuple>, req: CheckRequest, lv: Levels)
    requires Accepts(d) && SoundDefs(d, lv)
    ensures forall lv' :: Leveled(AllEdges(d), lv') ==>
      FixedPoint(WorldOf(d, tuples, req), lv') == FixedPoint(WorldOf(d, tuples, req), lv)
  {
    hide Accepts, FixedPoint, SoundDefs, IsModel, Leveled;
    var w := WorldOf(d, tuples, req);
    FixedPointIsModel(w, lv);
    forall lv' | Leveled(AllEdges(d), lv') ensures FixedPoint(w, lv') == FixedPoint(w, lv) {
      AcceptedIsSound(d, lv');
      ModelUnique(w, lv', FixedPoint(w, lv));
    }
  }

  /** The proof a run leaves, however it ended. */
  lemma ProofStands(g: Setting, start: Log, l: Log, idx: int)
    requires Recorded(g, start, l, idx) && start.nodes == []
    ensures IsTree(l.nodes) && (l.truncated ==> |l.nodes| == MAX_PROOF_NODES)
    ensures forall i :: 0 <= i < |l.nodes| && l.nodes[i].outcome == Allowed ==> Justified(g.w, g.m, l.nodes[i])
  {
    LogIsTree(l, idx);
    hide TreeOk, Entails;
  }

  /** An answer agrees with the stratified fixed point over tuples, in both directions and for cyclic data too.
      Whatever the ending, the nodes recorded so far are returned. */
  method Check(schema: BuiltSchema, source: Source, maxDepth: nat, req: CheckRequest, outside: Calls, ghost tuples: set<Tuple>)
    returns (res: CheckResult, err: Option<Error>, ghost calls: nat)
    requires Accepts(schema.d) && Faithful(source, tuples)
    ensures err.None? ==> req.WellFormed() && schema.d.Defined(RelationRef(req.obj.typ, req.relation))
    ensures err.None? ==> forall lv :: Leveled(AllEdges(schema.d), lv) ==> (res.allowed <==> Entailed(schema.d, lv, tuples, req))
    ensures err.None? ==> (res.allowed <==> Granted(schema.d, tuples, req))
    ensures !req.WellFormed() ==> err == Some(InvalidRequest)
    ensures Reported(outside, calls, err)
    ensures req.WellFormed() && err.Some? && !err.value.FromOutside? ==>
      if schema.d.Defined(req.Key().Ref()) then err.value.MaxDepthExceeded? && maxDepth < |WorldOf(schema.d, tuples, req).Keys()|
      else err.value.RelationUndefined?
    ensures IsTree(res.proof) && (res.truncated ==> |res.proof| == MAX_PROOF_NODES)
    ensures forall lv, i :: Leveled(AllEdges(schema.d), lv) && 0 <= i < |res.proof| && res.proof[i].outcome == Allowed ==>
      Justified(WorldOf(schema.d, tuples, req), FixedPoint(WorldOf(schema.d, tuples, req), lv), res.proof[i])
    ensures err.None? && req.mode == ProofJustify ==>
      |res.proof| > 0 && res.proof[0].key == req.Key() && res.proof[0].outcome == OutcomeOf(res.allowed)
  {
    hide Accepts, Faithful, FixedPoint, SoundDefs, IsModel, Inv, CallOk, Returned, TreeOk, TruthOk, Justified, IsTree,
         Leveled, Granted;
    if !req.WellFormed() {
      EmptyProof();
      return CheckResult(false, [], false), Some(InvalidRequest), 0;
    }
    ghost var w := WorldOf(schema.d, tuples, req);
    AcceptedHasLevels(schema.d);
    ghost var lv: Levels :| Leveled(AllEdges(schema.d), lv) && SoundDefs(schema.d, lv);
    FixedPointIsModel(w, lv);
    AnyLevels(schema.d, tuples, req, lv);
    GrantedIs(schema.d, tuples, req, lv);
    ghost var g := Setting(w, lv, FixedPoint(w, lv));
    StartOk(g, req.Key());
    var r := new Run(schema.d, source, maxDepth, req.subject, req.mode, outside, g);
    ghost var start := r.rec.Value();
    EmptyLog(g, start);
    var idx: int;
    var allowed: bool;
    allowed, idx, err := r.Relation(req.Key(), None);
    calls := r.calls;
    ProofStands(g, start, r.rec.Value(), idx);
    res := CheckResult(allowed, r.rec.nodes, r.rec.truncated);
    if err.Some? {
      res := CheckResult(false, r.rec.nodes, r.rec.truncated);
    } else {
      FinalAnswer(g, State(map[], [], 0, 0, 0, map[]), r.Value(), req.Key(), allowed);
    }
  }

  lemma EmptyProof()
    ensures IsTree([])
  {
  }

  lemma EmptyLog(g: Setting, l: Log)
    requires l == Log(l.mode, [], false, 0, [], [])
    ensures TreeOk(l) && TruthOk(g, l)
  {
  }
}
