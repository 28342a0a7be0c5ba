/** Collecting definitions and validating them together. */
module Builder {
  import opened Refs
  import opened Schema
  import opened Model
  import opened Graph

  // ---- Wildcards a userset would pick up ----

  /** What a walk may step to from an expression. An arrow steps to its targets and never to its tupleset. */
  function Sources(d: Defs, typ: TypeId, rw: Rewrite): set<RelationRef>
    decreases rw
  {
    match rw.op
    case This => {}
    case ComputedUserset => {RelationRef(typ, rw.relation)}
    case TupleToUserset => SeqSet(ArrowTargets(d, RelationRef(typ, rw.tupleset), rw.relation))
    case Union => set i, t | 0 <= i < |rw.children| && t in Sources(d, typ, rw.children[i]) :: t
    case Intersection => set i, t | 0 <= i < |rw.children| && t in Sources(d, typ, rw.children[i]) :: t
    case Exclusion => set i, t | 0 <= i < |rw.children| && t in Sources(d, typ, rw.children[i]) :: t
    case Other(_) => {}
  }

  function SourcesOf(d: Defs, ref: RelationRef): set<RelationRef> {
    if d.Defined(ref) && d.rewrites[ref].op != This then Sources(d, ref.typ, d.rewrites[ref]) else {}
  }

  predicate AcceptsWildcard(d: Defs, ref: RelationRef) {
    d.Defined(ref) && d.rewrites[ref].op == This && exists st :: st in d.Accepted(ref) && st.wildcard
  }

  ghost predicate IsWalk(d: Defs, p: seq<RelationRef>, a: RelationRef) {
    && |p| > 0 && p[0] == a
    && forall i :: 0 <= i < |p| - 1 ==> p[i + 1] in SourcesOf(d, p[i])
  }

  /** A walk of allowed usersets and reads leads from ref to a relation that accepts some type's wildcard. */
  ghost predicate PicksUpWildcard(d: Defs, ref: RelationRef) {
    exists p :: IsWalk(d, p, ref) && AcceptsWildcard(d, p[|p| - 1])
  }

  lemma WalkStep(d: Defs, a: RelationRef, b: RelationRef)
    requires b in SourcesOf(d, a) && PicksUpWildcard(d, b)
    ensures PicksUpWildcard(d, a)
  {
    var p :| IsWalk(d, p, b) && AcceptsWildcard(d, p[|p| - 1]);
    assert IsWalk(d, [a] + p, a);
    assert ([a] + p)[|p|] == p[|p| - 1];
  }

  /** Everything marked since seen0 was found free of wildcards, with its defined sources marked too. */
  ghost predicate Cleared(d: Defs, seen0: set<RelationRef>, seen: set<RelationRef>) {
    && seen0 <= seen
    && forall v {:trigger Settled(d, v, seen)} :: v in seen - seen0 ==> Settled(d, v, seen)
  }

  ghost predicate Settled(d: Defs, v: RelationRef, seen: set<RelationRef>) {
    !AcceptsWildcard(d, v) && Marked(d, SourcesOf(d, v), seen)
  }

  ghost predicate Marked(d: Defs, refs: set<RelationRef>, seen: set<RelationRef>) {
    forall u :: u in refs && d.Defined(u) ==> u in seen
  }

  lemma ClearedTrans(d: Defs, a: set<RelationRef>, b: set<RelationRef>, c: set<RelationRef>)
    requires Cleared(d, a, b) && (c == b || Cleared(d, b, c))
    ensures Cleared(d, a, c)
    ensures |d.rewrites.Keys - c| <= |d.rewrites.Keys - a|
  {
    forall v | v in c - a ensures Settled(d, v, c) {
      if v in b { assert Settled(d, v, b); }
    }
    SubsetSize(d.rewrites.Keys - c, d.rewrites.Keys - a);
  }

  lemma {:induction false} ClearedWalk(d: Defs, seen: set<RelationRef>, p: seq<RelationRef>, a: RelationRef)
    requires Cleared(d, {}, seen)
    requires d.Defined(a) ==> a in seen
    requires IsWalk(d, p, a)
    ensures !AcceptsWildcard(d, p[|p| - 1])
  {
    if a in seen { assert Settled(d, a, seen); }
    if |p| > 1 {
      assert forall i :: 0 <= i < |p[1..]| ==> p[1..][i] == p[i + 1];
      ClearedWalk(d, seen, p[1..], p[1]);
    }
  }

  /** Depth first, every branch marking the same seen: a relation some earlier branch marked is skipped. */
  method ReachesWildcard(d: Defs, ref: RelationRef, seen0: set<RelationRef>) returns (found: bool, seen: set<RelationRef>)
    ensures seen0 <= seen
    ensures found ==> PicksUpWildcard(d, ref)
    ensures !found ==> Cleared(d, seen0, seen) && (d.Defined(ref) ==> ref in seen)
    decreases |d.rewrites.Keys - seen0|, 0, 0
  {
    if !d.Defined(ref) || ref in seen0 { return false, seen0; }
    seen := seen0 + {ref};
    assert ref in (d.rewrites.Keys - seen0) - (d.rewrites.Keys - seen);
    SubsetSize(d.rewrites.Keys - seen, d.rewrites.Keys - seen0);
    if d.rewrites[ref].op != This {
      ghost var u;
      found, seen, u := RewriteReachesWildcard(d, ref.typ, d.rewrites[ref], seen);
      if found { WalkStep(d, ref, u); } else { assert Settled(d, ref, seen); }
      return;
    }
    found := exists st :: st in d.Accepted(ref) && st.wildcard;
    if found { assert IsWalk(d, [ref], ref); } else { assert Settled(d, ref, seen); }
  }

  /** The same, for a permission's expression. */
  method RewriteReachesWildcard(d: Defs, typ: TypeId, rw: Rewrite, seen0: set<RelationRef>)
    returns (found: bool, seen: set<RelationRef>, ghost u: RelationRef)
    ensures seen0 <= seen
    ensures found ==> u in Sources(d, typ, rw) && PicksUpWildcard(d, u)
    ensures !found ==> Cleared(d, seen0, seen) && Marked(d, Sources(d, typ, rw), seen)
    decreases |d.rewrites.Keys - seen0|, 1, rw, 1
  {
    seen, found := seen0, false;
    u := RelationRef(typ, rw.relation);
    match rw.op
    case This =>
    case Other(_) =>
    case ComputedUserset =>
      found, seen := ReachesWildcard(d, RelationRef(typ, rw.relation), seen0);
    case TupleToUserset =>
      found, seen, u := TargetsReachWildcard(d, ArrowTargets(d, RelationRef(typ, rw.tupleset), rw.relation), seen0);
    case Union => found, seen, u := OperandsReachWildcard(d, typ, rw, seen0);
    case Intersection => found, seen, u := OperandsReachWildcard(d, typ, rw, seen0);
    case Exclusion => found, seen, u := OperandsReachWildcard(d, typ, rw, seen0);
  }

  function SeqSet(refs: seq<RelationRef>): set<RelationRef> { set t | t in refs }

  lemma MarkedStart(d: Defs, targets: seq<RelationRef>, seen: set<RelationRef>)
    ensures Marked(d, SeqSet(targets[..0]), seen) && Cleared(d, seen, seen)
  {
  }

  lemma MarkedStep(d: Defs, targets: seq<RelationRef>, i: nat, before: set<RelationRef>, seen: set<RelationRef>)
    requires i < |targets| && Marked(d, SeqSet(targets[..i]), before) && before <= seen
    requires d.Defined(targets[i]) ==> targets[i] in seen
    ensures Marked(d, SeqSet(targets[..i + 1]), seen)
  {
    assert targets[..i + 1] == targets[..i] + [targets[i]];
  }

  method TargetsReachWildcard(d: Defs, targets: seq<RelationRef>, seen0: set<RelationRef>)
    returns (found: bool, seen: set<RelationRef>, ghost u: RelationRef)
    ensures seen0 <= seen
    ensures found ==> u in targets && PicksUpWildcard(d, u)
    ensures !found ==> Cleared(d, seen0, seen) && Marked(d, SeqSet(targets), seen)
    decreases |d.rewrites.Keys - seen0|, 0, 1
  {
    hide PicksUpWildcard, Settled, Marked, Cleared;
    MarkedStart(d, targets, seen0);
    seen, found, u := seen0, false, RelationRef(0, 0);
    for i := 0 to |targets|
      invariant !found && seen0 <= seen && Cleared(d, seen0, seen) && |d.rewrites.Keys - seen| <= |d.rewrites.Keys - seen0|
      invariant Marked(d, SeqSet(targets[..i]), seen)
    {
      ghost var before := seen;
      u := targets[i];
      found, seen := ReachesWildcard(d, targets[i], seen);
      if found { return; }
      ClearedTrans(d, seen0, before, seen);
      MarkedStep(d, targets, i, before, seen);
    }
    assert targets[..|targets|] == targets;
  }

  /** No operand is exempt, not even a subtracted one. */
  method OperandsReachWildcard(d: Defs, typ: TypeId, rw: Rewrite, seen0: set<RelationRef>)
    returns (found: bool, seen: set<RelationRef>, ghost u: RelationRef)
    ensures seen0 <= seen
    ensures found ==> (exists i :: 0 <= i < |rw.children| && u in Sources(d, typ, rw.children[i])) && PicksUpWildcard(d, u)
    ensures !found ==>
      Cleared(d, seen0, seen) && forall i :: 0 <= i < |rw.children| ==> Marked(d, Sources(d, typ, rw.children[i]), seen)
    decreases |d.rewrites.Keys - seen0|, 1, rw, 0
  {
    seen, found, u := seen0, false, RelationRef(0, 0);
    for i := 0 to |rw.children|
      invariant Cleared(d, seen0, seen) && |d.rewrites.Keys - seen| <= |d.rewrites.Keys - seen0|
      invariant !found && forall j :: 0 <= j < i ==> Marked(d, Sources(d, typ, rw.children[j]), seen)
    {
      ghost var before := seen;
      found, seen, u := RewriteReachesWildcard(d, typ, rw.children[i], seen);
      if found { return; }
      ClearedTrans(d, seen0, before, seen);
    }
  }

  // ---- Accepted subject types ----

  /** Nothing is wrong with entry i of a relation's accepted list. */
  ghost predicate EntryOk(d: Defs, types: seq<SubjectType>, i: nat)
    requires i < |types|
  {
    var st := types[i];
    && st.typ != 0
    && !(st.wildcard && st.relation != NO_RELATION)
    && st !in types[..i]
    && (st.relation != NO_RELATION ==> d.Defined(st.Target()) && !PicksUpWildcard(d, st.Target()))
  }

  ghost predicate AllowedOk(d: Defs, ref: RelationRef, rw: Rewrite) {
    rw.op == This ==>
      d.Accepted(ref) != [] && forall i :: 0 <= i < |d.Accepted(ref)| ==> EntryOk(d, d.Accepted(ref), i)
  }

  method CheckEntry(d: Defs, types: seq<SubjectType>, i: nat) returns (ok: bool)
    requires i < |types|
    ensures ok <==> EntryOk(d, types, i)
  {
    var st := types[i];
    if st.typ == 0 || (st.wildcard && st.relation != NO_RELATION) || st in types[..i] { return false; }
    if st.relation == NO_RELATION { return true; }
    if !d.Defined(st.Target()) { return false; }
    var found, seen := ReachesWildcard(d, st.Target(), {});
    if !found && PicksUpWildcard(d, st.Target()) {
      ghost var p :| IsWalk(d, p, st.Target()) && AcceptsWildcard(d, p[|p| - 1]);
      ClearedWalk(d, seen, p, st.Target());
    }
    return !found;
  }

  method CheckAllowed(d: Defs, ref: RelationRef, rw: Rewrite) returns (ok: bool)
    ensures ok <==> AllowedOk(d, ref, rw)
  {
    if rw.op != This { return true; }
    var types := d.Accepted(ref);
    ok := |types| != 0;
    for i := 0 to |types|
      invariant ok <==> |types| != 0 && forall j :: 0 <= j < i ==> EntryOk(d, types, j)
    {
      var entryOk := CheckEntry(d, types, i);
      ok := ok && entryOk;
    }
  }

  // ---- Edges ----

  lemma EdgesIs(d: Defs, from: RelationRef, rw: Rewrite, negated: bool)
    ensures rw.op.This? || rw.op.Other? ==> Edges(d, from, rw, negated) == []
    ensures rw.op.ComputedUserset? ==> Edges(d, from, rw, negated) == [Edge(from, RelationRef(from.typ, rw.relation), negated)]
    ensures rw.op.Exclusion? && |rw.children| == 2 ==>
              Edges(d, from, rw, negated) == Edges(d, from, rw.children[0], negated) + Edges(d, from, rw.children[1], true)
    ensures rw.op.Exclusion? && |rw.children| != 2 ==> Edges(d, from, rw, negated) == []
    ensures rw.op.Union? || rw.op.Intersection? ==> Edges(d, from, rw, negated) == EdgesOfAll(d, from, rw, |rw.children|, negated)
    ensures rw.op.TupleToUserset? ==>
              Edges(d, from, rw, negated) == ArrowEdges(from, rw.tupleset, ArrowTargets(d, RelationRef(from.typ, rw.tupleset), rw.relation), negated)
  {
  }

  function ArrowEdges(from: RelationRef, tupleset: RelationId, targets: seq<RelationRef>, negated: bool): seq<Edge> {
    [Edge(from, RelationRef(from.typ, tupleset), negated)] + seq(|targets|, i requires 0 <= i < |targets| => Edge(from, targets[i], negated))
  }

  lemma EdgesOfAllIs(d: Defs, from: RelationRef, rw: Rewrite, i: nat, negated: bool, out0: seq<Edge>)
    requires i < |rw.children|
    ensures out0 + EdgesOfAll(d, from, rw, i + 1, negated) == (out0 + EdgesOfAll(d, from, rw, i, negated)) + Edges(d, from, rw.children[i], negated)
    ensures out0 + EdgesOfAll(d, from, rw, 0, negated) == out0
  {
  }

  /** Appends the edges of one rewrite to what has been collected. */
  method CollectEdges(d: Defs, from: RelationRef, rw: Rewrite, negated: bool, out0: seq<Edge>) returns (out: seq<Edge>)
    ensures out == out0 + Edges(d, from, rw, negated)
    decreases rw
  {
    hide Edges, EdgesOfAll, ArrowTargets, ArrowEdges;
    EdgesIs(d, from, rw, negated);
    out := out0;
    match rw.op
    case This =>
    case Other(_) =>
    case ComputedUserset =>
      out := out + [Edge(from, RelationRef(from.typ, rw.relation), negated)];
    case Exclusion =>
      if |rw.children| == 2 {
        out := CollectEdges(d, from, rw.children[0], negated, out);
        out := CollectEdges(d, from, rw.children[1], true, out);
      }
    case TupleToUserset =>
      var targets := ArrowTargets(d, RelationRef(from.typ, rw.tupleset), rw.relation);
      out := CollectArrow(from, rw.tupleset, targets, negated, out);
    case _ =>
      if |rw.children| > 0 { EdgesOfAllIs(d, from, rw, 0, negated, out0); }
      for i := 0 to |rw.children|
        invariant |rw.children| > 0 ==> out == out0 + EdgesOfAll(d, from, rw, i, negated)
        invariant |rw.children| == 0 ==> out == out0
      {
        EdgesOfAllIs(d, from, rw, i, negated, out0);
        out := CollectEdges(d, from, rw.children[i], negated, out);
      }
      NoEdges(d, from, rw, negated);
  }

  lemma NoEdges(d: Defs, from: RelationRef, rw: Rewrite, negated: bool)
    ensures EdgesOfAll(d, from, rw, 0, negated) == []
  {
  }

  /** An arrow reads its tupleset and, on each type that defines it, its target. */
  method CollectArrow(from: RelationRef, tupleset: RelationId, targets: seq<RelationRef>, negated: bool, out0: seq<Edge>) returns (out: seq<Edge>)
    ensures out == out0 + ArrowEdges(from, tupleset, targets, negated)
  {
    ghost var all := seq(|targets|, i requires 0 <= i < |targets| => Edge(from, targets[i], negated));
    ghost var base := out0 + [Edge(from, RelationRef(from.typ, tupleset), negated)];
    out := out0 + [Edge(from, RelationRef(from.typ, tupleset), negated)];
    for i := 0 to |targets|
      invariant out == base + all[..i]
    {
      out := out + [Edge(from, targets[i], negated)];
      assert all[..i + 1] == all[..i] + [all[i]];
    }
    assert all[..|targets|] == all;
  }

  method CollectStoredEdges(from: RelationRef, types: seq<SubjectType>, out0: seq<Edge>) returns (out: seq<Edge>)
    ensures out == out0 + StoredEdges(from, types)
  {
    out := out0;
    for i := 0 to |types|
      invariant out == out0 + StoredEdges(from, types[..i])
    {
      assert types[..i + 1][..i] == types[..i];
      if types[i].relation != NO_RELATION {
        out := out + [Edge(from, types[i].Target(), false)];
      }
    }
    assert types[..|types|] == types;
  }

  // ---- Build ----

  ghost predicate DefinitionOk(d: Defs, ref: RelationRef)
    requires d.Defined(ref)
  {
    ShapeOk(d, ref, d.rewrites[ref], true) && AllowedOk(d, ref, d.rewrites[ref])
  }

  /** Everything Build demands of a set of definitions. */
  ghost predicate Accepts(d: Defs) {
    && (forall ref :: ref in d.rewrites ==> DefinitionOk(d, ref))
    && Stratified(AllEdges(d))
  }

  /** The outcome of a build that found nothing to refuse. */
  datatype BuiltSchema = BuiltSchema(d: Defs, reachable: set<RelationRef>)

  class SchemaBuilder {
    var rewrites: map<RelationRef, Rewrite>
    var allowed: map<RelationRef, seq<SubjectType>>
    var twice: seq<RelationRef>   // the relations defined a second time

    /** Accepted lists belong to relations, and to those only. */
    ghost predicate Valid() reads this {
      forall ref :: ref in allowed ==> ref in rewrites && rewrites[ref] == ThisRewrite()
    }

    ghost function Collected(): Defs reads this { Defs(rewrites, allowed) }

    constructor ()
      ensures Valid() && rewrites == map[] && allowed == map[] && twice == []
    {
      rewrites, allowed, twice := map[], map[], [];
    }

    /** Keeps the first rewrite given to r; ok says whether this was it. */
    method Define(r: RelationRef, rw: Rewrite) returns (first: bool)
      modifies this
      ensures first <==> r !in old(rewrites)
      ensures rewrites == if first then old(rewrites)[r := rw] else old(rewrites)
      ensures twice == if first then old(twice) else old(twice) + [r]
      ensures allowed == old(allowed)
    {
      if r in rewrites {
        twice := twice + [r];
        return false;
      }
      rewrites := rewrites[r := rw];
      return true;
    }

    method Relation(r: RelationRef, types: seq<SubjectType>)
      requires Valid()
      modifies this
      ensures Valid()
      ensures if r in old(rewrites)
              then Collected() == old(Collected()) && twice == old(twice) + [r]
              else Collected() == Defs(old(rewrites)[r := ThisRewrite()], old(allowed)[r := types]) && twice == old(twice)
    {
      var first := Define(r, ThisRewrite());
      if first { allowed := allowed[r := types]; }
    }

    method Permission(r: RelationRef, rw: Rewrite)
      requires Valid()
      modifies this
      ensures Valid()
      ensures if r in old(rewrites)
              then Collected() == old(Collected()) && twice == old(twice) + [r]
              else Collected() == Defs(old(rewrites)[r := rw], old(allowed)) && twice == old(twice)
    {
      var _ := Define(r, rw);
    }

    /** Validates and freezes: it succeeds exactly when nothing was defined twice and Accepts holds. */
    method Build() returns (s: Option<BuiltSchema>)
      ensures s.Some? <==> twice == [] && Accepts(Collected())
      ensures s.Some? ==> s.value.d == Collected()
      ensures s.Some? ==> forall v :: v in s.value.reachable <==> Subtracted(AllEdges(Collected()), v)
    {
      var d := Defs(rewrites, allowed);
      var ok := twice == [];
      var edges: seq<Edge> := [];
      var todo := rewrites.Keys;
      while todo != {}
        invariant todo <= rewrites.Keys
        invariant ok <==> twice == [] && forall ref :: ref in rewrites.Keys - todo ==> DefinitionOk(d, ref)
        invariant forall e :: e in edges <==> exists ref :: ref in rewrites.Keys - todo && e in EdgesOf(d, ref)
      {
        var ref :| ref in todo;
        ghost var before, done := edges, rewrites.Keys - todo;
        todo := todo - {ref};
        assert rewrites.Keys - todo == done + {ref};
        var allowedOk := CheckAllowed(d, ref, rewrites[ref]);
        ok := ok && ShapeOk(d, ref, rewrites[ref], true) && allowedOk;
        edges := CollectEdges(d, ref, rewrites[ref], false, edges);
        edges := CollectStoredEdges(ref, d.Accepted(ref), edges);
        assert edges == before + EdgesOf(d, ref);
      }
      assert EdgeSet(edges) == AllEdges(d);
      var stratified := CheckStratified(edges);
      if !ok || !stratified { return None; }
      var reachable := ExclusionReachable(edges);
      return Some(BuiltSchema(d, reachable));
    }
  }

  // ---- What acceptance gives the evaluator ----

  /** The edges of an operand are edges of the whole. */
  lemma {:induction false} OperandEdges(d: Defs, from: RelationRef, rw: Rewrite, n: nat, i: nat, negated: bool)
    requires i < n <= |rw.children|
    ensures forall e :: e in Edges(d, from, rw.children[i], negated) ==> e in EdgesOfAll(d, from, rw, n, negated)
    decreases n
  {
    if i < n - 1 { OperandEdges(d, from, rw, n - 1, i, negated); }
  }

  /** A well-shaped rewrite whose edges respect lv is sound for lv. */
  lemma {:induction false} ShapeIsSound(d: Defs, lv: Levels, from: RelationRef, rw: Rewrite, top: bool, negated: bool)
    requires ShapeOk(d, from, rw, top) && (top ==> !negated)
    requires forall e :: e in Edges(d, from, rw, negated) ==> NoHigher(lv, e.src, e.dst, e.negated)
    requires top ==> forall st :: st in d.Accepted(from) && st.relation != NO_RELATION ==>
      d.Defined(st.Target()) && NoHigher(lv, from, st.Target(), false)
    ensures Sound(d, lv, from, rw, negated)
    decreases rw
  {
    match rw.op
    case This =>
    case ComputedUserset =>
      var e := Edge(from, RelationRef(from.typ, rw.relation), negated);
      assert e in Edges(d, from, rw, negated);
    case TupleToUserset =>
      var tupleset := RelationRef(from.typ, rw.tupleset);
      var targets := ArrowTargets(d, tupleset, rw.relation);
      forall st | st in d.Accepted(tupleset) && d.Defined(RelationRef(st.typ, rw.relation))
        ensures NoHigher(lv, from, RelationRef(st.typ, rw.relation), negated) {
        var i :| 0 <= i < |targets| && targets[i] == RelationRef(st.typ, rw.relation);
        assert Edges(d, from, rw, negated)[i + 1] == Edge(from, targets[i], negated);
      }
    case Exclusion =>
      ShapeIsSound(d, lv, from, rw.children[0], false, negated);
      ShapeIsSound(d, lv, from, rw.children[1], false, true);
    case Other(_) =>
    case _ =>
      forall i | 0 <= i < |rw.children| ensures Sound(d, lv, from, rw.children[i], negated) {
        OperandEdges(d, from, rw, |rw.children|, i, negated);
        ShapeIsSound(d, lv, from, rw.children[i], false, negated);
      }
  }

  /** Accepted definitions are sound for every levelling of their edges. */
  lemma AcceptedIsSound(d: Defs, lv: Levels)
    requires Accepts(d) && Leveled(AllEdges(d), lv)
    ensures SoundDefs(d, lv)
  {
    forall ref | ref in d.rewrites ensures Sound(d, lv, ref, d.rewrites[ref], false) {
      var rw := d.rewrites[ref];
      assert forall e :: e in EdgesOf(d, ref) ==> e in AllEdges(d);
      StoredEdgesIff(ref, d.Accepted(ref));
      assert DefinitionOk(d, ref);
      if rw.op == This {
        forall st | st in d.Accepted(ref) && st.relation != NO_RELATION
          ensures d.Defined(st.Target()) && NoHigher(lv, ref, st.Target(), false) {
          var i :| 0 <= i < |d.Accepted(ref)| && d.Accepted(ref)[i] == st;
          assert EntryOk(d, d.Accepted(ref), i);
          assert Edge(ref, st.Target(), false) in EdgesOf(d, ref);
        }
        ShapeIsSound(d, lv, ref, rw, true, false);
      } else {
        ShapeIsSound(d, lv, ref, rw, false, false);
      }
    }
  }

  /** Accepted definitions can be levelled, so their fixed point is defined. */
  lemma AcceptedHasLevels(d: Defs)
    requires Accepts(d)
    ensures exists lv :: Leveled(AllEdges(d), lv) && SoundDefs(d, lv)
  {
    StratifiedIffLevels(AllEdges(d));
    var lv :| Leveled(AllEdges(d), lv);
    AcceptedIsSound(d, lv);
  }
}
