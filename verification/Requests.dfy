/** Named requests, and that replicas holding the same tuples under the same source answer them alike. */
module Requests {
  import opened Refs
  import opened Schema
  import opened Model
  import opened Graph
  import opened Builder
  import opened ProofTree
  import opened Engine
  import opened Dictionaries
  import opened Naming
  import opened Compile
  import opened Renaming
  import Grammar
  import Expressions
  import Names
  import Tuples

  /** The question as a caller puts it, all in strings. */
  datatype NamedRequest = NamedRequest(resourceType: string, resourceID: string, permission: string,
                                       subjectType: string, subjectID: string, subjectRelation: string)
  {
    predicate Valid() {
      && Names.IsObject(resourceType, resourceID) && Names.IsRelation(permission)
      && Names.IsSubject(subjectType, subjectID, subjectRelation)
    }
  }

  datatype Resolution = BadNames | Undefined | NotASubject | Asks(request: CheckRequest)

  /** An identifier not known is asked about under the id no tuple names. */
  function OrUnknown(id: ObjectId): ObjectId { if id == 0 then UNKNOWN_OBJECT else id }

  /** q's names resolved without interning them. */
  function Resolve(ids: NameIds, subjects: set<SubjectType>, q: NamedRequest): Resolution {
    var obj, rel := ids.Object(q.resourceType, q.resourceID), Find(ids.relations, q.permission);
    var subj := ids.Subject(q.subjectType, q.subjectID, q.subjectRelation);
    if !q.Valid() then BadNames
    else if obj.typ == 0 || rel == NO_RELATION then Undefined
    // Unknown must not pass for the marker of a direct subject.
    else if (q.subjectRelation != "" && subj.relation == NO_RELATION) || SubjectType(subj.typ, subj.relation, false) !in subjects then NotASubject
    else
      Asks(CheckRequest(ObjectRef(obj.typ, OrUnknown(obj.id)), rel,
                        if subj.wildcard then subj else subj.(id := OrUnknown(subj.id)), ProofNone))
  }

  /** allowed is what the fixed point says of request over the tuples held, however the schema is levelled. */
  ghost predicate Answers(ids: NameIds, d: Defs, held: set<Tuples.Tuple>, request: CheckRequest, allowed: bool) {
    forall lv :: Leveled(AllEdges(d), lv) ==> (allowed <==> Entailed(d, lv, IdTuples(ids, held), request))
  }

  // ---- The same definitions under two dictionaries ----

  /** Names known on both sides correspond. */
  ghost predicate Links(c: Corr, x: NameIds, y: NameIds) {
    && CorrOk(c)
    && (forall n :: n in x.types && n in y.types ==> SameType(c, x.types[n], y.types[n]))
    && (forall n :: n in x.relations && n in y.relations ==> SameRelation(c, x.relations[n], y.relations[n]))
  }

  lemma {:induction false} TranslateSame(c: Corr, x: NameIds, y: NameIds, e: Expressions.Expr)
    requires Links(c, x, y) && forall n :: n in NamesOf(e) ==> n in x.relations && n in y.relations
    ensures SameRewrite(c, Translate(e, x.relations), Translate(e, y.relations))
  {
    hide SameRelation, SameType, SameObject;
    if e.Combination? {
      forall i | 0 <= i < |e.operands| ensures SameRewrite(c, Translate(e.operands[i], x.relations), Translate(e.operands[i], y.relations)) {
        forall n | n in NamesOf(e.operands[i]) ensures n in NamesOf(e) {}
        TranslateSame(c, x, y, e.operands[i]);
      }
    }
  }

  lemma KindsSame(c: Corr, x: NameIds, y: NameIds, kinds: seq<Tuples.Kind>)
    requires Links(c, x, y)
    requires forall k :: k in kinds ==>
      k.typ in x.types && k.typ in y.types && (k.relation != "" ==> k.relation in x.relations && k.relation in y.relations)
    ensures SameKinds(c, TranslateKinds(kinds, x), TranslateKinds(kinds, y))
  {
  }

  /** The same thing was collected, told in different ids. */
  ghost predicate SameCollected(c: Corr, a: Collected, b: Collected) { SameDefs(c, a.d, b.d) && a.twice == b.twice }

  /** d' and e' are d and e with corresponding definitions added under corresponding names. */
  ghost predicate Added(c: Corr, d: Defs, e: Defs, a: RelationRef, b: RelationRef, d': Defs, e': Defs) {
    && SameRef(c, a, b) && a !in d.rewrites && b !in e.rewrites && a in d'.rewrites && b in e'.rewrites
    && d'.rewrites == d.rewrites[a := d'.rewrites[a]] && e'.rewrites == e.rewrites[b := e'.rewrites[b]]
    && d'.allowed.Keys <= d'.rewrites.Keys && e'.allowed.Keys <= e'.rewrites.Keys
    && (forall r :: r in d.rewrites ==> d'.Accepted(r) == d.Accepted(r))
    && (forall r :: r in e.rewrites ==> e'.Accepted(r) == e.Accepted(r))
    && SameDefinition(c, d', e', a, b)
  }

  lemma RefsAdd(c: Corr, d: Defs, e: Defs, a: RelationRef, b: RelationRef, d': Defs, e': Defs)
    requires SameDefs(c, d, e) && Added(c, d, e, a, b, d', e')
    ensures forall r :: r in d'.rewrites ==> RefAmong(c, r, e')
    ensures forall q :: q in e'.rewrites ==> RefBack(c, d', q)
    ensures d'.allowed.Keys <= d'.rewrites.Keys && e'.allowed.Keys <= e'.rewrites.Keys
  {
    hide SameRef, SameDefinition;
    forall r | r in d'.rewrites ensures RefAmong(c, r, e') {
      if r == a { assert b in e'.rewrites; } else {
        assert RefAmong(c, r, e);
        var q :| q in e.rewrites && SameRef(c, r, q);
        assert q in e'.rewrites;
      }
    }
    forall q | q in e'.rewrites ensures RefBack(c, d', q) {
      if q == b { assert a in d'.rewrites; } else {
        assert RefBack(c, d, q);
        var r :| r in d.rewrites && SameRef(c, r, q);
        assert r in d'.rewrites;
      }
    }
  }

  lemma OneAdded(c: Corr, d: Defs, e: Defs, a: RelationRef, b: RelationRef, d': Defs, e': Defs, r: RelationRef, q: RelationRef)
    requires CorrOk(c) && SameDefs(c, d, e) && Added(c, d, e, a, b, d', e')
    requires r in d'.rewrites && q in e'.rewrites && SameRef(c, r, q)
    ensures SameDefinition(c, d', e', r, q)
  {
  }

  lemma DefsAdd(c: Corr, d: Defs, e: Defs, a: RelationRef, b: RelationRef, d': Defs, e': Defs)
    requires CorrOk(c) && SameDefs(c, d, e) && Added(c, d, e, a, b, d', e')
    ensures SameDefs(c, d', e')
  {
    hide SameRef, SameDefinition, RefAmong, RefBack, CorrOk, SameDefs, Added;
    RefsAdd(c, d, e, a, b, d', e');
    forall r, q | r in d'.rewrites && q in e'.rewrites && SameRef(c, r, q) ensures SameDefinition(c, d', e', r, q) {
      OneAdded(c, d, e, a, b, d', e', r, q);
    }
    MakeSame(c, d', e');
  }

  lemma MakeSame(c: Corr, d: Defs, e: Defs)
    requires forall r :: r in d.rewrites ==> RefAmong(c, r, e)
    requires forall q :: q in e.rewrites ==> RefBack(c, d, q)
    requires forall r, q :: r in d.rewrites && q in e.rewrites && SameRef(c, r, q) ==> SameDefinition(c, d, e, r, q)
    requires d.allowed.Keys <= d.rewrites.Keys && e.allowed.Keys <= e.rewrites.Keys
    ensures SameDefs(c, d, e)
  {
  }

  lemma MemberSame(c: Corr, x: NameIds, y: NameIds, a: Collected, b: Collected, typ: string, m: Grammar.Member)
    requires Links(c, x, y) && SameCollected(c, a, b) && typ in x.types && typ in y.types && MemberKnown(m, x) && MemberKnown(m, y)
    ensures SameCollected(c, AddMember(a, RefOf(typ, m, x), m, x), AddMember(b, RefOf(typ, m, y), m, y))
  {
    var r, q := RefOf(typ, m, x), RefOf(typ, m, y);
    assert SameRef(c, r, q);
    SameDefined(c, a.d, b.d, r, q);
    if r !in a.d.rewrites {
      var a', b' := AddMember(a, r, m, x), AddMember(b, q, m, y);
      if m.Relation? { KindsSame(c, x, y, m.types); } else { TranslateSame(c, x, y, m.expr); }
      assert SameRelation(c, NO_RELATION, NO_RELATION);
      hide SameRelation, SameType, SameObject, TranslateKinds, Translate, CorrOk, RefAmong, RefBack;
      assert SameDefinition(c, a'.d, b'.d, r, q);
      hide SameRef, SameDefs, SameDefinition;
      assert a.d.allowed.Keys <= a.d.rewrites.Keys && b.d.allowed.Keys <= b.d.rewrites.Keys by { AllowedDefined(c, a.d, b.d); }
      DefsAdd(c, a.d, b.d, r, q, a'.d, b'.d);
    }
  }

  lemma AllowedDefined(c: Corr, d: Defs, e: Defs)
    requires SameDefs(c, d, e)
    ensures d.allowed.Keys <= d.rewrites.Keys && e.allowed.Keys <= e.rewrites.Keys
  {
  }

  lemma {:induction false} MembersSame(c: Corr, x: NameIds, y: NameIds, a: Collected, b: Collected, typ: string, ms: seq<Grammar.Member>)
    requires Links(c, x, y) && SameCollected(c, a, b) && typ in x.types && typ in y.types && MembersKnown(ms, x) && MembersKnown(ms, y)
    ensures SameCollected(c, AddMembers(a, typ, ms, x), AddMembers(b, typ, ms, y))
  {
    hide SameCollected, Links, MemberKnown, AddMember;
    if ms != [] {
      var init := ms[..|ms| - 1];
      MembersSame(c, x, y, a, b, typ, init);
      MemberSame(c, x, y, AddMembers(a, typ, init, x), AddMembers(b, typ, init, y), typ, ms[|ms| - 1]);
    }
  }

  lemma {:induction false} DefinitionsSame(c: Corr, x: NameIds, y: NameIds, defs: seq<Grammar.Definition>)
    requires Links(c, x, y) && AllNamesKnown(defs, x) && AllNamesKnown(defs, y)
    ensures SameCollected(c, AddDefinitions(defs, x), AddDefinitions(defs, y))
  {
    hide Links, MembersKnown, AddMembers;
    if defs != [] {
      var init, last := defs[..|defs| - 1], defs[|defs| - 1];
      DefinitionsSame(c, x, y, init);
      hide SameCollected;
      MembersSame(c, x, y, AddDefinitions(init, x), AddDefinitions(init, y), last.name, last.members);
    }
  }
}
