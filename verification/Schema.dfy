/** Relation definitions: the rewrite language, and what Build demands of a set of definitions. */
module Schema {
  import opened Refs

  datatype Op =
    | This               // granted by a tuple of the relation itself
    | ComputedUserset    // granted by a sibling relation
    | TupleToUserset     // granted by target at some subject of tupleset
    | Union
    | Intersection
    | Exclusion
    | Other(code: nat)   // any other value of the operator byte

  /** One node of a definition. Every field exists on every node, used by the operator or not. */
  datatype Rewrite = Rewrite(op: Op, relation: RelationId, tupleset: RelationId, children: seq<Rewrite>)

  function ThisRewrite(): Rewrite { Rewrite(This, NO_RELATION, NO_RELATION, []) }

  /** The definitions a builder has collected, or a built schema froze. */
  datatype Defs = Defs(rewrites: map<RelationRef, Rewrite>, allowed: map<RelationRef, seq<SubjectType>>) {
    predicate Defined(ref: RelationRef) { ref in rewrites }

    function Accepted(ref: RelationRef): seq<SubjectType> {
      if ref in allowed then allowed[ref] else []
    }

    predicate Allows(ref: RelationRef, st: SubjectType) { st in Accepted(ref) }
  }

  /** One relation's rewrite reads another; negated where that read is subtracted. */
  datatype Edge = Edge(src: RelationRef, dst: RelationRef, negated: bool)

  // ---- Shape ----

  /** Nothing is wrong with the structure and the references of one rewrite tree. */
  predicate ShapeOk(d: Defs, ref: RelationRef, rw: Rewrite, top: bool)
  {
    && (match rw.op
        case This => top && rw.children == [] && rw.relation == NO_RELATION && rw.tupleset == NO_RELATION
        case ComputedUserset =>
          && rw.children == [] && rw.tupleset == NO_RELATION && rw.relation != NO_RELATION
          && d.Defined(RelationRef(ref.typ, rw.relation))
        case TupleToUserset => ArrowOk(d, ref, rw)
        case Union => rw.relation == NO_RELATION && rw.tupleset == NO_RELATION && |rw.children| >= 2
        case Intersection => rw.relation == NO_RELATION && rw.tupleset == NO_RELATION && |rw.children| >= 2
        case Exclusion => rw.relation == NO_RELATION && rw.tupleset == NO_RELATION && |rw.children| == 2
        case Other(_) => false)
    && forall i | 0 <= i < |rw.children| :: ShapeOk(d, ref, rw.children[i], false)
  }

  /** Only plain objects stand on the tupleset, and at one of them at least the target is defined. */
  predicate ArrowOk(d: Defs, ref: RelationRef, rw: Rewrite)
  {
    var tupleset := RelationRef(ref.typ, rw.tupleset);
    && rw.children == []
    && rw.tupleset != NO_RELATION && rw.relation != NO_RELATION
    && d.Defined(tupleset) && d.rewrites[tupleset].op == This
    && (forall st | st in d.Accepted(tupleset) :: st.relation == NO_RELATION && !st.wildcard)
    && ArrowTargets(d, tupleset, rw.relation) != []
  }

  /** The keys an arrow may read: target at every type accepted that has it, in list order. */
  function ArrowTargets(d: Defs, tupleset: RelationRef, rel: RelationId): (out: seq<RelationRef>)
    ensures forall t :: t in out <==>
      t.relation == rel && d.Defined(t) && exists st :: st in d.Accepted(tupleset) && st.typ == t.typ
  {
    TargetsOf(d, d.Accepted(tupleset), rel)
  }

  function TargetsOf(d: Defs, types: seq<SubjectType>, rel: RelationId): (out: seq<RelationRef>)
    ensures forall t :: t in out <==>
      t.relation == rel && d.Defined(t) && exists st :: st in types && st.typ == t.typ
  {
    if types == [] then []
    else
      var rest := TargetsOf(d, types[1..], rel);
      var target := RelationRef(types[0].typ, rel);
      assert forall st :: st in types <==> st == types[0] || st in types[1..];
      if d.Defined(target) then [target] + rest else rest
  }

  // ---- Edges ----

  /** The relations rw reads, and whether each read crosses a subtract side. */
  function Edges(d: Defs, from: RelationRef, rw: Rewrite, negated: bool): seq<Edge>
    decreases rw, 1
  {
    match rw.op
    case This => []
    case ComputedUserset => [Edge(from, RelationRef(from.typ, rw.relation), negated)]
    case Exclusion =>
      if |rw.children| == 2 then
        Edges(d, from, rw.children[0], negated) + Edges(d, from, rw.children[1], true)
      else []
    case Union => EdgesOfAll(d, from, rw, |rw.children|, negated)
    case Intersection => EdgesOfAll(d, from, rw, |rw.children|, negated)
    case TupleToUserset =>
      var tupleset := RelationRef(from.typ, rw.tupleset);
      var targets := ArrowTargets(d, tupleset, rw.relation);
      [Edge(from, tupleset, negated)] + seq(|targets|, i requires 0 <= i < |targets| => Edge(from, targets[i], negated))
    case Other(_) => []
  }

  /** The edges of the first n operands, in order. */
  function EdgesOfAll(d: Defs, from: RelationRef, rw: Rewrite, n: nat, negated: bool): seq<Edge>
    requires n <= |rw.children|
    decreases rw, 0, n
  {
    if n == 0 then [] else EdgesOfAll(d, from, rw, n - 1, negated) + Edges(d, from, rw.children[n - 1], negated)
  }

  /** Edges for the usersets a relation takes: membership in them is read too. */
  function StoredEdges(from: RelationRef, types: seq<SubjectType>): seq<Edge>
  {
    if types == [] then []
    else if types[|types| - 1].relation == NO_RELATION then StoredEdges(from, types[..|types| - 1])
    else StoredEdges(from, types[..|types| - 1]) + [Edge(from, types[|types| - 1].Target(), false)]
  }

  function EdgesOf(d: Defs, ref: RelationRef): seq<Edge>
    requires d.Defined(ref)
  {
    Edges(d, ref, d.rewrites[ref], false) + StoredEdges(ref, d.Accepted(ref))
  }

  ghost function AllEdges(d: Defs): set<Edge> {
    set ref, e | ref in d.rewrites && e in EdgesOf(d, ref) :: e
  }

  lemma {:induction false} StoredEdgesIff(from: RelationRef, types: seq<SubjectType>)
    ensures forall e :: e in StoredEdges(from, types) <==>
      exists st :: st in types && st.relation != NO_RELATION && e == Edge(from, st.Target(), false)
  {
    if types != [] {
      var init, last := types[..|types| - 1], types[|types| - 1];
      StoredEdgesIff(from, init);
      assert types == init + [last];
    }
  }
}
