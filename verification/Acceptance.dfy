/** Which definitions are right: what Build takes, form by form, and what it makes of wildcards and levels. */
module Acceptance {
  import opened Refs
  import opened Schema
  import opened Model
  import opened Graph
  import opened Builder
  import opened Laws

  // ---- Permissions ----

  /** A reference is right exactly where what it names is defined on the same type. */
  lemma ReferenceRight(d: Defs, ref: RelationRef, name: RelationId)
    requires d.Defined(ref) && d.rewrites[ref] == Reference(name)
    ensures DefinitionOk(d, ref) <==> name != NO_RELATION && d.Defined(RelationRef(ref.typ, name))
  {
  }

  /** An arrow is right exactly where its tupleset is a relation that accepts plain objects only, and the target is
      defined on one of their types at least. */
  lemma ArrowRight(d: Defs, ref: RelationRef, tupleset: RelationId, target: RelationId)
    requires d.Defined(ref) && d.rewrites[ref] == Arrow(tupleset, target)
    ensures DefinitionOk(d, ref) <==>
            var ts := RelationRef(ref.typ, tupleset);
            && tupleset != NO_RELATION && target != NO_RELATION && d.Defined(ts) && d.rewrites[ts].op == This
            && (forall st :: st in d.Accepted(ts) ==> st == DirectType(st.typ))
            && exists st :: st in d.Accepted(ts) && d.Defined(RelationRef(st.typ, target))
  {
    var ts := RelationRef(ref.typ, tupleset);
    var targets := ArrowTargets(d, ts, target);
    if targets != [] { assert targets[0] in targets; }
    if st :| st in d.Accepted(ts) && d.Defined(RelationRef(st.typ, target)) { assert RelationRef(st.typ, target) in targets; }
  }

  /** d with one more kind on a relation's list. */
  function Listing(d: Defs, ref: RelationRef, st: SubjectType): Defs { d.(allowed := d.allowed[ref := d.Accepted(ref) + [st]]) }

  /** Another object type on the tupleset keeps an arrow right, whether or not it has the target. */
  lemma ArrowKeepsRight(d: Defs, ref: RelationRef, tupleset: RelationId, target: RelationId, typ: TypeId)
    requires d.Defined(ref) && d.rewrites[ref] == Arrow(tupleset, target) && DefinitionOk(d, ref)
    ensures DefinitionOk(Listing(d, RelationRef(ref.typ, tupleset), DirectType(typ)), ref)
  {
    var ts := RelationRef(ref.typ, tupleset);
    var d' := Listing(d, ts, DirectType(typ));
    ArrowRight(d, ref, tupleset, target);
    ArrowRight(d', ref, tupleset, target);
    hide ShapeOk, AllowedOk;
    forall st | st in d.Accepted(ts) ensures st in d'.Accepted(ts) {}
  }

  /** An operand is right as a reference, or as the permission it is written like. */
  ghost predicate OperandRight(d: Defs, typ: TypeId, operand: Rewrite, name: RelationId) {
    var ref := RelationRef(typ, name);
    if operand == Reference(name) then name != NO_RELATION && d.Defined(ref)
    else d.Defined(ref) && d.rewrites[ref].op != This && DefinitionOk(d, ref)
  }

  lemma {:induction false} ShapeElsewhere(d: Defs, a: RelationRef, b: RelationRef, rw: Rewrite, top: bool)
    requires a.typ == b.typ
    ensures ShapeOk(d, a, rw, top) <==> ShapeOk(d, b, rw, top)
    decreases rw
  {
    forall i | 0 <= i < |rw.children| ensures ShapeOk(d, a, rw.children[i], false) <==> ShapeOk(d, b, rw.children[i], false) {
      ShapeElsewhere(d, a, b, rw.children[i], false);
    }
  }

  lemma OperandShape(d: Defs, ref: RelationRef, operand: Rewrite, name: RelationId)
    requires StandsFor(d, ref.typ, operand, name)
    ensures ShapeOk(d, ref, operand, false) <==> OperandRight(d, ref.typ, operand, name)
  {
    if operand != Reference(name) { ShapeElsewhere(d, ref, RelationRef(ref.typ, name), operand, false); }
  }

  /** A combination is right exactly where each operand is and there are as many as its operator takes. */
  lemma CombinationRight(d: Defs, ref: RelationRef, op: Op, names: seq<RelationId>)
    requires Combines(d, ref, op, names) && (op.Union? || op.Intersection? || op.Exclusion?)
    requires d.rewrites[ref].relation == NO_RELATION && d.rewrites[ref].tupleset == NO_RELATION
    ensures DefinitionOk(d, ref) <==>
            && (if op.Exclusion? then |names| == 2 else |names| >= 2)
            && forall i :: 0 <= i < |names| ==> OperandRight(d, ref.typ, d.rewrites[ref].children[i], names[i])
  {
    hide OperandRight, StandsFor;
    forall i | 0 <= i < |names|
      ensures ShapeOk(d, ref, d.rewrites[ref].children[i], false) <==> OperandRight(d, ref.typ, d.rewrites[ref].children[i], names[i])
    {
      OperandShape(d, ref, d.rewrites[ref].children[i], names[i]);
    }
  }

  // ---- Relations ----

  /** Plain objects and wildcards may always be accepted, a userset where it is defined and gathers no wildcard. */
  ghost predicate EntryRight(d: Defs, st: SubjectType) {
    st.typ != 0 && (st.relation != NO_RELATION ==> !st.wildcard && d.Defined(st.Target()) && !PicksUpWildcard(d, st.Target()))
  }

  /** A relation is right exactly where it accepts something, and nothing twice or that may not be. */
  lemma RelationRight(d: Defs, ref: RelationRef)
    requires d.Defined(ref) && d.rewrites[ref] == ThisRewrite()
    ensures DefinitionOk(d, ref) <==>
            var types := d.Accepted(ref);
            && types != [] && (forall i, j :: 0 <= i < j < |types| ==> types[i] != types[j])
            && forall st :: st in types ==> EntryRight(d, st)
  {
    hide PicksUpWildcard;
    var types := d.Accepted(ref);
    forall i | 0 <= i < |types|
      ensures EntryOk(d, types, i) <==> EntryRight(d, types[i]) && forall j :: 0 <= j < i ==> types[j] != types[i]
    {
      forall j | 0 <= j < i ensures types[j] in types[..i] { assert types[..i][j] == types[j]; }
    }
    hide EntryOk, EntryRight;
    if DefinitionOk(d, ref) {
      forall i, j | 0 <= i < j < |types| ensures types[i] != types[j] { assert EntryOk(d, types, j); }
      forall st | st in types ensures EntryRight(d, st) { var i :| 0 <= i < |types| && types[i] == st; assert EntryOk(d, types, i); }
    }
  }

  // ---- Wildcards a userset would gather ----

  /** A permission gathers a wildcard exactly where something it takes subjects from does. */
  lemma PicksUpStep(d: Defs, ref: RelationRef)
    requires d.Defined(ref) && d.rewrites[ref].op != This
    ensures PicksUpWildcard(d, ref) <==> exists b :: b in Sources(d, ref.typ, d.rewrites[ref]) && PicksUpWildcard(d, b)
  {
    if PicksUpWildcard(d, ref) {
      var p :| IsWalk(d, p, ref) && AcceptsWildcard(d, p[|p| - 1]);
      assert |p| > 1;
      assert IsWalk(d, p[1..], p[1]) && p[1..][|p| - 2] == p[|p| - 1];
      assert PicksUpWildcard(d, p[1]);
    }
    if b :| b in Sources(d, ref.typ, d.rewrites[ref]) && PicksUpWildcard(d, b) { WalkStep(d, ref, b); }
  }

  /** A relation gathers only the wildcards on its own list. */
  lemma RelationPicksUp(d: Defs, ref: RelationRef)
    requires d.Defined(ref) && d.rewrites[ref].op == This
    ensures PicksUpWildcard(d, ref) <==> exists st :: st in d.Accepted(ref) && st.wildcard
  {
    if AcceptsWildcard(d, ref) { assert IsWalk(d, [ref], ref); }
    if PicksUpWildcard(d, ref) {
      var p :| IsWalk(d, p, ref) && AcceptsWildcard(d, p[|p| - 1]);
      assert |p| > 1 ==> p[0 + 1] in SourcesOf(d, p[0]);
    }
  }

  lemma ReferencePicksUp(d: Defs, ref: RelationRef, name: RelationId)
    requires d.Defined(ref) && d.rewrites[ref] == Reference(name)
    ensures PicksUpWildcard(d, ref) <==> PicksUpWildcard(d, RelationRef(ref.typ, name))
  {
    hide PicksUpWildcard;
    PicksUpStep(d, ref);
  }

  /** An arrow gathers what its target gathers at any type the tupleset accepts; the tupleset's own list does not count. */
  lemma ArrowPicksUp(d: Defs, ref: RelationRef, tupleset: RelationId, target: RelationId)
    requires d.Defined(ref) && d.rewrites[ref] == Arrow(tupleset, target)
    ensures PicksUpWildcard(d, ref) <==>
            exists st :: st in d.Accepted(RelationRef(ref.typ, tupleset)) && PicksUpWildcard(d, RelationRef(st.typ, target))
  {
    PicksUpStep(d, ref);
    forall b | PicksUpWildcard(d, b) ensures d.Defined(b) { PicksUpDefined(d, b); }
    hide PicksUpWildcard;
    var ts := RelationRef(ref.typ, tupleset);
    if st :| st in d.Accepted(ts) && PicksUpWildcard(d, RelationRef(st.typ, target)) {
      assert RelationRef(st.typ, target) in ArrowTargets(d, ts, target);
    }
  }

  lemma PicksUpDefined(d: Defs, ref: RelationRef)
    requires PicksUpWildcard(d, ref)
    ensures d.Defined(ref)
  {
    var p :| IsWalk(d, p, ref) && AcceptsWildcard(d, p[|p| - 1]);
    if |p| > 1 { assert p[0 + 1] in SourcesOf(d, p[0]); }
  }

  /** A combination gathers what any operand gathers, a subtracted one included. */
  lemma CombinationPicksUp(d: Defs, ref: RelationRef, op: Op, names: seq<RelationId>)
    requires Combines(d, ref, op, names) && (op.Union? || op.Intersection? || op.Exclusion?) && DefinitionOk(d, ref)
    ensures PicksUpWildcard(d, ref) <==> exists i :: 0 <= i < |names| && PicksUpWildcard(d, RelationRef(ref.typ, names[i]))
  {
    PicksUpStep(d, ref);
    var rw := d.rewrites[ref];
    forall i | 0 <= i < |names|
      ensures PicksUpWildcard(d, RelationRef(ref.typ, names[i])) <==> SourcePicksUp(d, ref.typ, rw.children[i])
    {
      assert ShapeOk(d, ref, rw.children[i], false);
      OperandPicksUp(d, ref.typ, rw.children[i], names[i]);
    }
    hide PicksUpWildcard, DefinitionOk, StandsFor;
    if b :| b in Sources(d, ref.typ, rw) && PicksUpWildcard(d, b) {
      var i :| 0 <= i < |rw.children| && b in Sources(d, ref.typ, rw.children[i]);
      assert SourcePicksUp(d, ref.typ, rw.children[i]);
    }
    if i :| 0 <= i < |names| && SourcePicksUp(d, ref.typ, rw.children[i]) {
      var b :| b in Sources(d, ref.typ, rw.children[i]) && PicksUpWildcard(d, b);
      assert b in Sources(d, ref.typ, rw);
    }
  }

  ghost predicate SourcePicksUp(d: Defs, typ: TypeId, operand: Rewrite) {
    exists b :: b in Sources(d, typ, operand) && PicksUpWildcard(d, b)
  }

  lemma OperandPicksUp(d: Defs, typ: TypeId, operand: Rewrite, name: RelationId)
    requires StandsFor(d, typ, operand, name) && operand.op != This
    ensures PicksUpWildcard(d, RelationRef(typ, name)) <==> SourcePicksUp(d, typ, operand)
  {
    if operand != Reference(name) { PicksUpStep(d, RelationRef(typ, name)); }
    hide PicksUpWildcard;
  }

  // ---- Levels ----

  /** lv suits everything ref reads. */
  ghost predicate Suits(d: Defs, lv: Levels, ref: RelationRef)
    requires d.Defined(ref)
  {
    forall e :: e in EdgesOf(d, ref) ==> NoHigher(lv, e.src, e.dst, e.negated)
  }

  ghost predicate SuitsAll(d: Defs, lv: Levels) { forall ref :: ref in d.rewrites ==> Suits(d, lv, ref) }

  /** Definitions are taken exactly where each is right and some levels suit them all. */
  lemma AcceptsIff(d: Defs)
    ensures Accepts(d) <==> (forall ref :: ref in d.rewrites ==> DefinitionOk(d, ref)) && exists lv :: SuitsAll(d, lv)
  {
    hide DefinitionOk, Stratified, EdgesOf, NoHigher;
    StratifiedIffLevels(AllEdges(d));
    forall lv: Levels ensures Leveled(AllEdges(d), lv) <==> SuitsAll(d, lv) {
      if Leveled(AllEdges(d), lv) {
        forall ref, e | ref in d.rewrites && e in EdgesOf(d, ref) ensures NoHigher(lv, e.src, e.dst, e.negated) { assert e in AllEdges(d); }
      }
    }
  }

  lemma ReferenceSuits(d: Defs, lv: Levels, ref: RelationRef, name: RelationId)
    requires d.Defined(ref) && d.rewrites[ref] == Reference(name) && d.Accepted(ref) == []
    ensures Suits(d, lv, ref) <==> lv(ref) >= lv(RelationRef(ref.typ, name))
  {
    assert EdgesOf(d, ref) == [Edge(ref, RelationRef(ref.typ, name), false)];
  }

  /** The operands are references to names. */
  predicate Refers(rw: Rewrite, op: Op, names: seq<RelationId>) {
    rw.op == op && |rw.children| == |names| && forall i | 0 <= i < |names| :: rw.children[i] == Reference(names[i])
  }

  lemma {:induction false} ReferenceEdges(d: Defs, from: RelationRef, rw: Rewrite, n: nat, names: seq<RelationId>)
    requires n <= |names| == |rw.children| && forall i | 0 <= i < |names| :: rw.children[i] == Reference(names[i])
    ensures EdgesOfAll(d, from, rw, n, false) == seq(n, i requires 0 <= i < n => Edge(from, RelationRef(from.typ, names[i]), false))
  {
    if n > 0 {
      ReferenceEdges(d, from, rw, n - 1, names);
      assert Edges(d, from, rw.children[n - 1], false) == [Edge(from, RelationRef(from.typ, names[n - 1]), false)];
    }
  }

  /** No operand of a union or an intersection may lie higher. */
  lemma CombinationSuits(d: Defs, lv: Levels, ref: RelationRef, op: Op, names: seq<RelationId>)
    requires d.Defined(ref) && (op.Union? || op.Intersection?) && Refers(d.rewrites[ref], op, names) && d.Accepted(ref) == []
    ensures Suits(d, lv, ref) <==> forall i :: 0 <= i < |names| ==> lv(ref) >= lv(RelationRef(ref.typ, names[i]))
  {
    ReferenceEdges(d, ref, d.rewrites[ref], |names|, names);
    var es := seq(|names|, i requires 0 <= i < |names| => Edge(ref, RelationRef(ref.typ, names[i]), false));
    assert EdgesOf(d, ref) == es;
    if Suits(d, lv, ref) {
      forall i | 0 <= i < |names| ensures lv(ref) >= lv(RelationRef(ref.typ, names[i])) { assert es[i] in es; }
    }
  }

  /** What an exclusion starts from may lie as high as it does, and recur in it; what it subtracts must lie lower. */
  lemma ExclusionSuits(d: Defs, lv: Levels, ref: RelationRef, base: RelationId, sub: RelationId)
    requires d.Defined(ref) && Refers(d.rewrites[ref], Exclusion, [base, sub]) && d.Accepted(ref) == []
    ensures Suits(d, lv, ref) <==> lv(ref) >= lv(RelationRef(ref.typ, base)) && lv(ref) > lv(RelationRef(ref.typ, sub))
  {
    assert d.rewrites[ref].children[0] == Reference([base, sub][0]) && d.rewrites[ref].children[1] == Reference([base, sub][1]);
    assert Edges(d, ref, Reference(base), false) == [Edge(ref, RelationRef(ref.typ, base), false)];
    assert Edges(d, ref, Reference(sub), true) == [Edge(ref, RelationRef(ref.typ, sub), true)];
    assert EdgesOf(d, ref) == [Edge(ref, RelationRef(ref.typ, base), false), Edge(ref, RelationRef(ref.typ, sub), true)];
  }

  /** An arrow reads its tupleset, and its target wherever a type accepted there defines it. */
  lemma ArrowSuits(d: Defs, lv: Levels, ref: RelationRef, tupleset: RelationId, target: RelationId)
    requires d.Defined(ref) && d.rewrites[ref] == Arrow(tupleset, target) && d.Accepted(ref) == []
    ensures var ts := RelationRef(ref.typ, tupleset);
            Suits(d, lv, ref) <==>
            && lv(ref) >= lv(ts)
            && forall st :: st in d.Accepted(ts) && d.Defined(RelationRef(st.typ, target)) ==> lv(ref) >= lv(RelationRef(st.typ, target))
  {
    var ts := RelationRef(ref.typ, tupleset);
    var targets := ArrowTargets(d, ts, target);
    var es := EdgesOf(d, ref);
    assert es[0] == Edge(ref, ts, false);
    if Suits(d, lv, ref) {
      assert es[0] in es;
      forall st | st in d.Accepted(ts) && d.Defined(RelationRef(st.typ, target)) ensures lv(ref) >= lv(RelationRef(st.typ, target)) {
        var i :| 0 <= i < |targets| && targets[i] == RelationRef(st.typ, target);
        assert es[i + 1] == Edge(ref, targets[i], false);
        assert es[i + 1] in es;
      }
    }
    forall e | e in es ensures e == Edge(ref, ts, false) || (e == Edge(ref, e.dst, false) && e.dst in targets) {}
  }

  /** A relation reads the usersets it accepts, and nothing else. */
  lemma RelationSuits(d: Defs, lv: Levels, ref: RelationRef)
    requires d.Defined(ref) && d.rewrites[ref].op == This
    ensures Suits(d, lv, ref) <==> forall st :: st in d.Accepted(ref) && st.relation != NO_RELATION ==> lv(ref) >= lv(st.Target())
  {
    StoredEdgesIff(ref, d.Accepted(ref));
    assert EdgesOf(d, ref) == StoredEdges(ref, d.Accepted(ref));
    if Suits(d, lv, ref) {
      forall st | st in d.Accepted(ref) && st.relation != NO_RELATION ensures lv(ref) >= lv(st.Target()) {
        assert Edge(ref, st.Target(), false) in EdgesOf(d, ref);
      }
    }
  }

  // ---- Without exclusions ----

  predicate Excludes(rw: Rewrite) { rw.op.Exclusion? || exists i | 0 <= i < |rw.children| :: Excludes(rw.children[i]) }

  lemma {:induction false} NothingNegated(d: Defs, from: RelationRef, rw: Rewrite)
    requires !Excludes(rw)
    ensures forall e :: e in Edges(d, from, rw, false) ==> !e.negated
    decreases rw, 1
  {
    if rw.op.Union? || rw.op.Intersection? { NoneNegated(d, from, rw, |rw.children|); }
  }

  lemma {:induction false} NoneNegated(d: Defs, from: RelationRef, rw: Rewrite, n: nat)
    requires !Excludes(rw) && n <= |rw.children|
    ensures forall e :: e in EdgesOfAll(d, from, rw, n, false) ==> !e.negated
    decreases rw, 0, n
  {
    if n > 0 {
      NoneNegated(d, from, rw, n - 1);
      NothingNegated(d, from, rw.children[n - 1]);
    }
  }

  /** Definitions that subtract nothing may recur as they like: being right is all it takes. */
  lemma RecursionAccepted(d: Defs)
    requires forall ref :: ref in d.rewrites ==> DefinitionOk(d, ref) && !Excludes(d.rewrites[ref])
    ensures Accepts(d)
  {
    hide DefinitionOk, Excludes;
    AcceptsIff(d);
    var flat: Levels := _ => 0;
    forall ref | ref in d.rewrites ensures Suits(d, flat, ref) {
      NothingNegated(d, ref, d.rewrites[ref]);
      StoredEdgesIff(ref, d.Accepted(ref));
      hide Edges, StoredEdges;
    }
    assert SuitsAll(d, flat);
  }
}
