/** From the text of a schema to answers: what each way of writing a relation or a permission grants, all in names. */
module Meanings {
  import opened Refs
  import opened Schema
  import opened Builder
  import opened Engine
  import opened Dictionaries
  import opened Naming
  import opened Compile
  import opened Requests
  import opened Replicas
  import opened Laws
  import Expressions
  import Grammar
  import Lexing
  import Names
  import Parsing
  import Sidecar
  import Stored
  import Tuples

  /** What answers are given from: a source, read and compiled, and the tuples held under the same dictionary. */
  datatype Ground = Ground(source: string, defs: seq<Grammar.Definition>, ids: NameIds, d: Defs, subjects: set<SubjectType>,
                           held: set<Tuples.Tuple>)
  {
    ghost predicate Stands() {
      && Parsing.Meaning(source) == Parsing.Definitions(defs)
      && ids.Ok() && AllKnown(ids, held) && Means(defs, ids, d) && Accepts(d)
      && forall st :: st in subjects <==> AcceptedSomewhere(d, st)
    }

    /** The source gives typ the member m. */
    ghost predicate Has(typ: string, m: Grammar.Member) { exists def :: def in defs && def.name == typ && m in def.members }

    /** The expression is the name of a member, or what a permission of that name is written as. */
    ghost predicate Writes(typ: string, e: Expressions.Expr, name: string) {
      e == Expressions.Ref(name) || Has(typ, Grammar.Permission(name, e))
    }

    /** The check of q, where it is one that can be asked, is answered yes. */
    ghost predicate Answer(q: NamedRequest) {
      var r := Resolve(ids, subjects, q);
      r.Asks? && Granted(d, IdTuples(ids, held), r.request)
    }
  }

  // ---- What is looked up ----

  lemma ReadIsGood(g: Ground)
    requires g.Stands()
    ensures forall def :: def in g.defs ==> Grammar.GoodTree(def)
  {
    hide AllKnown, Means, Accepts, Grammar.GoodTree, Grammar.ParseFile, Lexing.Lexemes;
    Grammar.FileIsGood(Lexing.Lexemes(g.source));
  }

  /** A member of the source is in the compiled definitions as written, with all its names known. */
  lemma Compiled(g: Ground, typ: string, m: Grammar.Member)
    requires g.Stands() && g.Has(typ, m)
    ensures typ in g.ids.types && MemberKnown(m, g.ids) && Collects(g.d, RefOf(typ, m, g.ids), m, g.ids)
    ensures ListsOk(g.d) && Grammar.GoodMemberTree(m)
  {
    ReadIsGood(g);
    var def :| def in g.defs && def.name == typ && m in def.members;
    assert Grammar.GoodTree(def);
    hide Parsing.Meaning, AllKnown, Accepts, Checked, Interned, Grammar.GoodMemberTree, MemberKnown, Collects, AddDefinitions,
         NameIds.Ok, RefOf, ListsOk;
    CheckedIsKnown(g.defs, g.ids);
    EveryMemberCollected(g.defs, g.ids);
  }

  /** A name that some member refers to, or has. */
  lemma NameIsRelation(g: Ground, typ: string, m: Grammar.Member, name: string)
    requires g.Stands() && g.Has(typ, m)
    requires name == m.name || (m.Permission? && name in NamesOf(m.expr))
    ensures Names.IsRelation(name) && name in g.ids.relations
  {
    hide Parsing.Meaning, AllKnown, Accepts, AddDefinitions, NameIds.Ok, Names.IsRelation, Names.IsType, NamesOf;
    var def :| def in g.defs && def.name == typ && m in def.members;
    assert MembersNamed(def) && MembersResolve(g.defs, def);
    var i :| 0 <= i < |g.defs| && g.defs[i] == def;
    var j :| 0 <= j < |def.members| && def.members[j] == m;
    assert Holds(g.defs[i], m.name);
    assert Declares(g.defs, m.name);
    if name != m.name {
      assert Resolves(g.defs, m);
      assert Declares(g.defs, name);
      var n :| 0 <= n < |g.defs| && Holds(g.defs[n], name);
      var p :| 0 <= p < |g.defs[n].members| && g.defs[n].members[p].name == name;
      assert g.defs[n] in g.defs && MembersNamed(g.defs[n]) && g.defs[n].members[p] in g.defs[n].members;
    }
  }

  /** The same question of another member. */
  lemma AsksOther(g: Ground, q: NamedRequest, name: string)
    requires Resolve(g.ids, g.subjects, q).Asks? && Names.IsRelation(name) && name in g.ids.relations && g.ids.Ok()
    ensures Resolve(g.ids, g.subjects, q.(permission := name)) ==
            Asks(Resolve(g.ids, g.subjects, q).request.(relation := g.ids.relations[name]))
  {
    hide Names.IsRelation, Names.IsObject, Names.IsSubject;
  }

  lemma AnswerOther(g: Ground, q: NamedRequest, name: string)
    requires Resolve(g.ids, g.subjects, q).Asks? && Names.IsRelation(name) && name in g.ids.relations && g.ids.Ok()
    ensures g.Answer(q.(permission := name)) <==>
            Granted(g.d, IdTuples(g.ids, g.held), Resolve(g.ids, g.subjects, q).request.(relation := g.ids.relations[name]))
  {
    AsksOther(g, q, name);
  }

  /** Where q asks, and the key it asks about. */
  lemma AskedRef(g: Ground, q: NamedRequest, m: Grammar.Member)
    requires g.Stands() && Resolve(g.ids, g.subjects, q).Asks? && g.Has(q.resourceType, m) && m.name == q.permission
    ensures Resolve(g.ids, g.subjects, q).request.Key().Ref() == RefOf(q.resourceType, m, g.ids)
    ensures Collects(g.d, RefOf(q.resourceType, m, g.ids), m, g.ids) && MemberKnown(m, g.ids)
  {
    Compiled(g, q.resourceType, m);
    hide Collects, MemberKnown, Means, Accepts, AllKnown;
  }

  // ---- Stored tuples ----

  /** The question of another object's member, for the same subject. */
  function At(q: NamedRequest, typ: string, id: string, name: string): NamedRequest {
    q.(resourceType := typ, resourceID := id, permission := name)
  }

  /** t is stored on q's object, under the name given. */
  predicate On(q: NamedRequest, t: Tuples.Tuple, name: string) {
    t.resourceType == q.resourceType && t.resourceID == q.resourceID && t.relation == name
  }

  lemma HeldOn(g: Ground, q: NamedRequest, t: Tuples.Tuple, name: string)
    requires g.Stands() && Resolve(g.ids, g.subjects, q).Asks? && t in g.held && name in g.ids.relations
    ensures var u := TupleOf(g.ids, t);
            u.obj == Resolve(g.ids, g.subjects, q).request.obj && u.relation == g.ids.relations[name] <==> On(q, t, name)
  {
    hide Means, Accepts, Parsing.Meaning, Tuples.Tuple.Valid, Names.IsRelation, Names.IsObject, Names.IsSubject;
  }

  lemma AsksThere(g: Ground, q: NamedRequest, t: Tuples.Tuple, name: string)
    requires g.Stands() && Resolve(g.ids, g.subjects, q).Asks? && t in g.held && t.subjectID != Names.WILDCARD_MARKER
    requires Names.IsRelation(name) && name in g.ids.relations
    ensures Resolve(g.ids, g.subjects, At(q, t.subjectType, t.subjectID, name)) ==
            Asks(Resolve(g.ids, g.subjects, q).request.(obj := SubjectOf(g.ids, t).Object(), relation := g.ids.relations[name]))
  {
    hide Means, Accepts, Parsing.Meaning, Names.IsRelation;
  }

  /** A kind is on a list by name exactly where it is by id. */
  lemma ListsKind(g: Ground, typ: string, name: string, types: seq<Tuples.Kind>, k: Tuples.Kind)
    requires g.Stands() && g.Has(typ, Grammar.Relation(name, types)) && (k.wildcard ==> k.relation == "")
    requires k.typ in g.ids.types && (k.relation != "" ==> k.relation in g.ids.relations)
    ensures name in g.ids.relations && typ in g.ids.types
    ensures g.d.Allows(RelationRef(g.ids.types[typ], g.ids.relations[name]), TranslateKind(k, g.ids)) <==> k in types
  {
    var m := Grammar.Relation(name, types);
    Compiled(g, typ, m);
    hide Means, Accepts, AllKnown, Parsing.Meaning, Grammar.GoodKind;
    assert Stored.KindsKnown(types, g.ids);
    Stored.AllowsByName(g.ids, types, k);
  }

  /** t puts an object the tupleset lists on q's own, and the target is granted there. */
  ghost predicate Leads(g: Ground, q: NamedRequest, tupleset: string, types: seq<Tuples.Kind>, target: string, t: Tuples.Tuple) {
    && On(q, t, tupleset) && t.subjectRelation == "" && t.subjectID != Names.WILDCARD_MARKER
    && Tuples.Kind(t.subjectType, "", false) in types
    && g.Answer(At(q, t.subjectType, t.subjectID, target))
  }

  lemma LeadsById(g: Ground, q: NamedRequest, tupleset: string, types: seq<Tuples.Kind>, target: string, t: Tuples.Tuple)
    requires g.Stands() && Resolve(g.ids, g.subjects, q).Asks? && t in g.held
    requires g.Has(q.resourceType, Grammar.Relation(tupleset, types)) && Names.IsRelation(target) && target in g.ids.relations
    ensures tupleset in g.ids.relations
    ensures var req, tuples := Resolve(g.ids, g.subjects, q).request, IdTuples(g.ids, g.held);
            LedBy(g.d, tuples, req, g.ids.relations[tupleset], g.ids.relations[target], TupleOf(g.ids, t))
            <==> Leads(g, q, tupleset, types, target, t)
  {
    NameIsRelation(g, q.resourceType, Grammar.Relation(tupleset, types), tupleset);
    HeldOn(g, q, t, tupleset);
    HeldNames(g, t);
    if t.subjectRelation == "" && t.subjectID != Names.WILDCARD_MARKER {
      AsksThere(g, q, t, target);
      ListsKind(g, q.resourceType, tupleset, types, Tuples.Kind(t.subjectType, "", false));
    }
    hide Means, Accepts, AllKnown, Parsing.Meaning, Granted, Ground.Has, Names.IsRelation, Names.IsObject, Names.IsSubject;
  }

  lemma HeldNames(g: Ground, t: Tuples.Tuple)
    requires g.Stands() && t in g.held
    ensures t.Valid() && Naming.Known(g.ids, t) && SubjectOf(g.ids, t).Valid()
    ensures t.subjectRelation == "" <==> SubjectOf(g.ids, t).relation == NO_RELATION
  {
    KnownIsValid(g.ids, t);
  }

  /** t is stored on the relation and of a kind it lists, and names q's subject, its whole type, or a userset that has it. */
  ghost predicate GrantsTo(g: Ground, q: NamedRequest, types: seq<Tuples.Kind>, t: Tuples.Tuple) {
    && On(q, t, q.permission) && Tuples.KindOf(t) in types
    && (|| (t.subjectType == q.subjectType && t.subjectID == q.subjectID && t.subjectRelation == q.subjectRelation)
        || (t.subjectType == q.subjectType && t.subjectID == Names.WILDCARD_MARKER && q.subjectRelation == "")
        || (t.subjectRelation != "" && g.Answer(At(q, t.subjectType, t.subjectID, t.subjectRelation))))
  }

  lemma GrantsById(g: Ground, q: NamedRequest, types: seq<Tuples.Kind>, t: Tuples.Tuple)
    requires g.Stands() && Resolve(g.ids, g.subjects, q).Asks? && t in g.held && q.subjectID != Names.WILDCARD_MARKER
    requires g.Has(q.resourceType, Grammar.Relation(q.permission, types))
    ensures var req, tuples := Resolve(g.ids, g.subjects, q).request, IdTuples(g.ids, g.held);
            GrantedBy(g.d, tuples, req, TupleOf(g.ids, t)) <==> GrantsTo(g, q, types, t)
  {
    AskedRef(g, q, Grammar.Relation(q.permission, types));
    HeldOn(g, q, t, q.permission);
    HeldNames(g, t);
    SameSubject(g, q, t);
    ListsKind(g, q.resourceType, q.permission, types, Tuples.KindOf(t));
    KindById(g, t);
    if t.subjectRelation != "" {
      assert Names.IsRelation(t.subjectRelation);
      AsksThere(g, q, t, t.subjectRelation);
    }
    hide Means, Accepts, AllKnown, Parsing.Meaning, Granted, Ground.Has, Names.IsRelation, Names.IsObject, Names.IsSubject;
  }

  lemma KindById(g: Ground, t: Tuples.Tuple)
    requires g.Stands() && t in g.held
    ensures var s := SubjectOf(g.ids, t); TranslateKind(Tuples.KindOf(t), g.ids) == SubjectType(s.typ, s.relation, s.wildcard)
    ensures SubjectOf(g.ids, t).wildcard ==> t.subjectRelation == ""
  {
    HeldNames(g, t);
  }

  /** A tuple held names q's subject exactly where the ids do. */
  lemma SameSubject(g: Ground, q: NamedRequest, t: Tuples.Tuple)
    requires g.Stands() && Resolve(g.ids, g.subjects, q).Asks? && t in g.held && q.subjectID != Names.WILDCARD_MARKER
    ensures var r, s := Resolve(g.ids, g.subjects, q).request, SubjectOf(g.ids, t);
            && !r.subject.wildcard && (r.subject.relation == NO_RELATION <==> q.subjectRelation == "")
            && (s == r.subject <==> (t.subjectType, t.subjectID, t.subjectRelation) == (q.subjectType, q.subjectID, q.subjectRelation))
            && (s == WildcardSubject(r.subject.typ) <==> (t.subjectType, t.subjectID) == (q.subjectType, Names.WILDCARD_MARKER))
  {
    HeldNames(g, t);
    hide Means, Accepts, Parsing.Meaning;
  }

  /** A relation grants by the tuples held on it, each of a kind it lists. */
  lemma RelationMeans(g: Ground, q: NamedRequest, types: seq<Tuples.Kind>)
    requires g.Stands() && Resolve(g.ids, g.subjects, q).Asks? && q.subjectID != Names.WILDCARD_MARKER
    requires g.Has(q.resourceType, Grammar.Relation(q.permission, types))
    ensures g.Answer(q) <==> exists t :: t in g.held && GrantsTo(g, q, types, t)
  {
    AskedRef(g, q, Grammar.Relation(q.permission, types));
    hide Means, AllKnown, Accepts, Parsing.Meaning, Granted, Ground.Has, Names.IsRelation, NameIds.Ok, GrantedBy, GrantsTo;
    var req, tuples := Resolve(g.ids, g.subjects, q).request, IdTuples(g.ids, g.held);
    hide Resolve;
    RelationGranted(g.d, tuples, req);
    forall t | t in g.held
      ensures TupleOf(g.ids, t) in tuples && (GrantedBy(g.d, tuples, req, TupleOf(g.ids, t)) <==> GrantsTo(g, q, types, t))
    {
      GrantsById(g, q, types, t);
    }
  }

  // ---- Whole expressions ----

  /** Some tuple follows the tupleset, as the source lists it, to an object that grants the target. */
  ghost predicate LeadsListed(g: Ground, q: NamedRequest, tupleset: string, target: string, t: Tuples.Tuple) {
    exists types :: g.Has(q.resourceType, Grammar.Relation(tupleset, types)) && Leads(g, q, tupleset, types, target, t)
  }

  /** What an expression comes to, from what its names are answered. */
  ghost predicate Says(g: Ground, q: NamedRequest, e: Expressions.Expr)
    decreases e
  {
    match e
    case Ref(name) => g.Answer(q.(permission := name))
    case Arrow(tupleset, target) => exists t :: t in g.held && LeadsListed(g, q, tupleset, target, t)
    case Combination(op, operands) =>
      if op == "+" then exists i :: 0 <= i < |operands| && Says(g, q, operands[i])
      else if op == "&" then forall i :: 0 <= i < |operands| ==> Says(g, q, operands[i])
      else |operands| == 2 && Says(g, q, operands[0]) && !Says(g, q, operands[1])
  }

  /** A compiled list comes from a relation of the source. */
  lemma ListFrom(g: Ground, ref: RelationRef) returns (typ: string, m: Grammar.Member)
    requires g.Stands() && ref in g.d.allowed
    ensures m.Relation? && g.Has(typ, m) && RefOf(typ, m, g.ids) == ref && typ in g.ids.types && MemberKnown(m, g.ids)
    ensures g.d.allowed[ref] == TranslateKinds(m.types, g.ids) && forall k :: k in m.types ==> Grammar.GoodKind(k)
  {
    hide Parsing.Meaning, AllKnown, Accepts, Interned, AddDefinitions, Checked, RefOf, MemberKnown, Grammar.GoodKind, NameIds.Ok;
    EveryRefGiven(g.defs, g.ids, ref);
    var def :| def in g.defs && Gives(def, g.ids, ref, true);
    m :| m in def.members && RefOf(def.name, m, g.ids) == ref && m.Relation?;
    typ := def.name;
    Compiled(g, typ, m);
  }

  /** A tupleset the compiled definitions let accept something is a relation of the source. */
  lemma TuplesetListed(g: Ground, typ: string, name: string, st: SubjectType)
    requires g.Stands() && typ in g.ids.types && name in g.ids.relations
    requires g.d.Allows(RelationRef(g.ids.types[typ], g.ids.relations[name]), st)
    ensures exists types :: g.Has(typ, Grammar.Relation(name, types))
  {
    var t, m := ListFrom(g, RelationRef(g.ids.types[typ], g.ids.relations[name]));
    hide Parsing.Meaning, AllKnown, Accepts, Means, Ground.Has;
    assert m == Grammar.Relation(name, m.types) && t == typ;
  }

  lemma LeadsListedById(g: Ground, q: NamedRequest, tupleset: string, target: string, t: Tuples.Tuple)
    requires g.Stands() && Resolve(g.ids, g.subjects, q).Asks? && t in g.held && q.resourceType in g.ids.types
    requires tupleset in g.ids.relations && Names.IsRelation(target) && target in g.ids.relations
    ensures var req, tuples := Resolve(g.ids, g.subjects, q).request, IdTuples(g.ids, g.held);
            LedBy(g.d, tuples, req, g.ids.relations[tupleset], g.ids.relations[target], TupleOf(g.ids, t))
            <==> LeadsListed(g, q, tupleset, target, t)
  {
    hide Parsing.Meaning, AllKnown, Accepts, Means, Granted, Leads, Names.IsRelation, Ground.Has, Names.IsObject, Names.IsSubject,
         NameIds.Ok;
    var req, tuples := Resolve(g.ids, g.subjects, q).request, IdTuples(g.ids, g.held);
    assert req.obj.typ == g.ids.types[q.resourceType];
    hide Resolve;
    if LedBy(g.d, tuples, req, g.ids.relations[tupleset], g.ids.relations[target], TupleOf(g.ids, t)) {
      TuplesetListed(g, q.resourceType, tupleset, DirectType(TupleOf(g.ids, t).subject.typ));
      var types :| g.Has(q.resourceType, Grammar.Relation(tupleset, types));
      LeadsById(g, q, tupleset, types, target, t);
    }
    if types :| g.Has(q.resourceType, Grammar.Relation(tupleset, types)) && Leads(g, q, tupleset, types, target, t) {
      LeadsById(g, q, tupleset, types, target, t);
    }
  }

  /** e comes of a permission q asks about. */
  ghost predicate Within(g: Ground, q: NamedRequest, whole: Expressions.Expr, e: Expressions.Expr) {
    && g.Stands() && Resolve(g.ids, g.subjects, q).Asks? && g.Has(q.resourceType, Grammar.Permission(q.permission, whole))
    && Expressions.Shaped(e) && NamesOf(e) <= NamesOf(whole)
  }

  lemma {:induction false} SaysById(g: Ground, q: NamedRequest, whole: Expressions.Expr, e: Expressions.Expr)
    requires Within(g, q, whole, e)
    ensures var req, tuples := Resolve(g.ids, g.subjects, q).request, IdTuples(g.ids, g.held);
            Laws.Says(g.d, tuples, req, Translate(e, g.ids.relations)) <==> Says(g, q, e)
    decreases e
  {
    hide Parsing.Meaning, AllKnown, Accepts, Means, Granted, LedBy, LeadsListed, Ground.Has, Ground.Answer, Names.IsRelation,
         Resolve, NameIds.Ok;
    var m, req, tuples := Grammar.Permission(q.permission, whole), Resolve(g.ids, g.subjects, q).request, IdTuples(g.ids, g.held);
    match e
    case Ref(name) =>
      assert name in NamesOf(e);
      NameIsRelation(g, q.resourceType, m, name);
      AnswerOther(g, q, name);
    case Arrow(tupleset, target) =>
      assert tupleset in NamesOf(e) && target in NamesOf(e);
      NameIsRelation(g, q.resourceType, m, tupleset);
      NameIsRelation(g, q.resourceType, m, target);
      Compiled(g, q.resourceType, m);
      forall t | t in g.held
        ensures TupleOf(g.ids, t) in tuples
        ensures LedBy(g.d, tuples, req, g.ids.relations[tupleset], g.ids.relations[target], TupleOf(g.ids, t)) <==>
                LeadsListed(g, q, tupleset, target, t)
      {
        LeadsListedById(g, q, tupleset, target, t);
      }
    case Combination(op, operands) =>
      var rw := Translate(e, g.ids.relations);
      forall i | 0 <= i < |operands|
        ensures Laws.Says(g.d, tuples, req, rw.children[i]) <==> Says(g, q, operands[i])
      {
        assert operands[i] in operands;
        forall n | n in NamesOf(operands[i]) ensures n in NamesOf(e) {}
        SaysById(g, q, whole, operands[i]);
      }
  }

  /** A permission grants exactly what its expression says, however nested, of what its names are answered. */
  lemma PermissionMeans(g: Ground, q: NamedRequest, e: Expressions.Expr)
    requires g.Stands() && Resolve(g.ids, g.subjects, q).Asks? && g.Has(q.resourceType, Grammar.Permission(q.permission, e))
    ensures g.Answer(q) <==> Says(g, q, e)
  {
    AskedRef(g, q, Grammar.Permission(q.permission, e));
    Compiled(g, q.resourceType, Grammar.Permission(q.permission, e));
    hide Parsing.Meaning, AllKnown, Means, Granted, Ground.Has, Says, Laws.Says, NamesOf, Names.IsRelation, Resolve;
    SaysById(g, q, e, e);
    assert Translate(e, g.ids.relations).op != This;
    PermissionGranted(g.d, IdTuples(g.ids, g.held), Resolve(g.ids, g.subjects, q).request);
  }

  // ---- One operator at a time ----

  lemma {:induction false} SaysElsewhere(g: Ground, q: NamedRequest, name: string, e: Expressions.Expr)
    ensures Says(g, q.(permission := name), e) <==> Says(g, q, e)
    decreases e
  {
    hide Ground.Answer, Ground.Has;
    if e.Combination? {
      forall i | 0 <= i < |e.operands| ensures Says(g, q.(permission := name), e.operands[i]) <==> Says(g, q, e.operands[i]) {
        SaysElsewhere(g, q, name, e.operands[i]);
      }
    }
    if e.Arrow? {
      forall t ensures LeadsListed(g, q.(permission := name), e.tupleset, e.relation, t) <==> LeadsListed(g, q, e.tupleset, e.relation, t) {}
    }
  }

  /** A combination written over members, or over what they are written as. */
  ghost predicate Combining(g: Ground, q: NamedRequest, op: string, operands: seq<Expressions.Expr>, names: seq<string>) {
    && g.Stands() && Resolve(g.ids, g.subjects, q).Asks?
    && g.Has(q.resourceType, Grammar.Permission(q.permission, Expressions.Combination(op, operands)))
    && |names| == |operands| && forall i :: 0 <= i < |names| ==> g.Writes(q.resourceType, operands[i], names[i])
  }

  lemma OperandSays(g: Ground, q: NamedRequest, e: Expressions.Expr, name: string)
    requires g.Stands() && Resolve(g.ids, g.subjects, q).Asks? && g.Writes(q.resourceType, e, name)
    ensures Says(g, q, e) <==> g.Answer(q.(permission := name))
  {
    if e != Expressions.Ref(name) {
      NameIsRelation(g, q.resourceType, Grammar.Permission(name, e), name);
      AsksOther(g, q, name);
      hide Parsing.Meaning, AllKnown, Accepts, Means, Ground.Has, Ground.Answer, Says, Resolve, Names.IsRelation;
      PermissionMeans(g, q.(permission := name), e);
      SaysElsewhere(g, q, name, e);
    }
  }

  /** A combination, in terms of its operands' names. */
  lemma CombinationSays(g: Ground, q: NamedRequest, op: string, operands: seq<Expressions.Expr>, names: seq<string>)
    requires Combining(g, q, op, operands, names)
    ensures g.Answer(q) <==> Says(g, q, Expressions.Combination(op, operands))
    ensures forall i :: 0 <= i < |names| ==> (Says(g, q, operands[i]) <==> g.Answer(q.(permission := names[i])))
  {
    hide Parsing.Meaning, AllKnown, Accepts, Means, Ground.Has, Ground.Answer, Ground.Writes, Says, Resolve;
    PermissionMeans(g, q, Expressions.Combination(op, operands));
    forall i | 0 <= i < |names| ensures Says(g, q, operands[i]) <==> g.Answer(q.(permission := names[i])) {
      OperandSays(g, q, operands[i], names[i]);
    }
  }

  /** Naming another member grants what it grants. */
  lemma ReferenceMeans(g: Ground, q: NamedRequest, name: string)
    requires g.Stands() && Resolve(g.ids, g.subjects, q).Asks?
    requires g.Has(q.resourceType, Grammar.Permission(q.permission, Expressions.Ref(name)))
    ensures g.Answer(q) <==> g.Answer(q.(permission := name))
  {
    hide Ground.Stands, Resolve, Ground.Has, Ground.Answer;
    PermissionMeans(g, q, Expressions.Ref(name));
  }

  /** "a + b": any operand grants. */
  lemma UnionMeans(g: Ground, q: NamedRequest, operands: seq<Expressions.Expr>, names: seq<string>)
    requires Combining(g, q, "+", operands, names)
    ensures g.Answer(q) <==> exists i :: 0 <= i < |names| && g.Answer(q.(permission := names[i]))
  {
    hide Ground.Stands, Resolve, Ground.Has, Ground.Answer, Ground.Writes;
    CombinationSays(g, q, "+", operands, names);
  }

  /** "a & b": it takes all operands. */
  lemma IntersectionMeans(g: Ground, q: NamedRequest, operands: seq<Expressions.Expr>, names: seq<string>)
    requires Combining(g, q, "&", operands, names)
    ensures g.Answer(q) <==> forall i :: 0 <= i < |names| ==> g.Answer(q.(permission := names[i]))
  {
    hide Ground.Stands, Resolve, Ground.Has, Ground.Answer, Ground.Writes;
    CombinationSays(g, q, "&", operands, names);
  }

  /** "a - b": the first operand grants and the second does not. */
  lemma ExclusionMeans(g: Ground, q: NamedRequest, operands: seq<Expressions.Expr>, base: string, sub: string)
    requires Combining(g, q, "-", operands, [base, sub])
    ensures g.Answer(q) <==> g.Answer(q.(permission := base)) && !g.Answer(q.(permission := sub))
  {
    hide Ground.Stands, Resolve, Ground.Has, Ground.Answer, Ground.Writes;
    CombinationSays(g, q, "-", operands, [base, sub]);
    assert [base, sub][0] == base && [base, sub][1] == sub;
  }

  /** "t->r": some object stored on t, of a kind t lists, grants r. */
  lemma ArrowMeans(g: Ground, q: NamedRequest, tupleset: string, types: seq<Tuples.Kind>, target: string)
    requires g.Stands() && Resolve(g.ids, g.subjects, q).Asks?
    requires g.Has(q.resourceType, Grammar.Permission(q.permission, Expressions.Arrow(tupleset, target)))
    requires g.Has(q.resourceType, Grammar.Relation(tupleset, types))
    ensures g.Answer(q) <==> exists t :: t in g.held && Leads(g, q, tupleset, types, target, t)
  {
    PermissionMeans(g, q, Expressions.Arrow(tupleset, target));
    NameIsRelation(g, q.resourceType, Grammar.Permission(q.permission, Expressions.Arrow(tupleset, target)), target);
    hide Ground.Answer, Ground.Stands, Resolve, Leads, Ground.Has, LedBy, Names.IsRelation;
    forall t | t in g.held ensures LeadsListed(g, q, tupleset, target, t) <==> Leads(g, q, tupleset, types, target, t) {
      if types' :| g.Has(q.resourceType, Grammar.Relation(tupleset, types')) && Leads(g, q, tupleset, types', target, t) {
        LeadsById(g, q, tupleset, types, target, t);
        LeadsById(g, q, tupleset, types', target, t);
      }
    }
  }

  // ---- Who may be asked about ----

  ghost predicate ListsKindOf(types: seq<Tuples.Kind>, typ: string, relation: string) {
    exists k :: k in types && k.typ == typ && k.relation == relation
  }

  /** Some relation of the source lists subjects of the type, alone, whole, or as that userset. */
  ghost predicate ListsSubject(g: Ground, typ: string, relation: string) {
    exists t, name, types :: g.Has(t, Grammar.Relation(name, types)) && ListsKindOf(types, typ, relation)
  }

  /** A kind on a list makes its type a subject; a wildcard does as well as a plain object. */
  lemma ListedIsSubject(g: Ground, t: string, name: string, types: seq<Tuples.Kind>, k: Tuples.Kind)
    requires g.Stands() && g.Has(t, Grammar.Relation(name, types)) && k in types
    ensures k.typ in g.ids.types && (k.relation != "" ==> k.relation in g.ids.relations)
    ensures SubjectType(g.ids.types[k.typ], if k.relation == "" then NO_RELATION else g.ids.relations[k.relation], false) in g.subjects
  {
    var m := Grammar.Relation(name, types);
    Compiled(g, t, m);
    hide Parsing.Meaning, AllKnown, Accepts, Means;
    var i :| 0 <= i < |types| && types[i] == k;
    assert Grammar.GoodKind(k);
    assert g.d.allowed[RefOf(t, m, g.ids)][i] == TranslateKind(k, g.ids);
    assert AcceptedSomewhere(g.d, SubjectType(TranslateKind(k, g.ids).typ, TranslateKind(k, g.ids).relation, false));
  }

  /** And only listed kinds do. */
  lemma SubjectIsListed(g: Ground, typ: string, relation: string)
    requires g.Stands() && typ in g.ids.types && (relation != "" ==> relation in g.ids.relations)
    requires SubjectType(g.ids.types[typ], if relation == "" then NO_RELATION else g.ids.relations[relation], false) in g.subjects
    ensures ListsSubject(g, typ, relation)
  {
    var st := SubjectType(g.ids.types[typ], if relation == "" then NO_RELATION else g.ids.relations[relation], false);
    assert AcceptedSomewhere(g.d, st);
    var ref, a :| ref in g.d.allowed && a in g.d.allowed[ref] && st == SubjectType(a.typ, a.relation, false);
    var t, m := ListFrom(g, ref);
    hide Parsing.Meaning, AllKnown, Accepts, Means, AcceptedSomewhere, Ground.Has;
    var i :| 0 <= i < |g.d.allowed[ref]| && g.d.allowed[ref][i] == a;
    var k := m.types[i];
    assert k in m.types && TranslateKind(k, g.ids) == a;
    assert k.typ == typ && k.relation == relation;
    assert m == Grammar.Relation(m.name, m.types) && ListsKindOf(m.types, typ, relation);
  }

  /** Of a member of the source any well-named question may be asked whose subject some relation lists, and the compiled
      definitions then have what it asks about. */
  lemma AsksWhere(g: Ground, q: NamedRequest, m: Grammar.Member)
    requires g.Stands() && q.Valid() && g.Has(q.resourceType, m) && m.name == q.permission
    ensures Resolve(g.ids, g.subjects, q).Asks? <==> ListsSubject(g, q.subjectType, q.subjectRelation)
    ensures var r := Resolve(g.ids, g.subjects, q); if r.Asks? then g.d.Defined(r.request.Key().Ref()) else r.NotASubject?
  {
    Compiled(g, q.resourceType, m);
    NameIsRelation(g, q.resourceType, m, m.name);
    if ListsSubject(g, q.subjectType, q.subjectRelation) {
      var t: string, name: string, types: seq<Tuples.Kind> :|
        g.Has(t, Grammar.Relation(name, types)) && ListsKindOf(types, q.subjectType, q.subjectRelation);
      var k :| k in types && k.typ == q.subjectType && k.relation == q.subjectRelation;
      ListedIsSubject(g, t, name, types, k);
    }
    if Resolve(g.ids, g.subjects, q).Asks? {
      AskedRef(g, q, m);
      AskedSubjectKnown(g, q);
      SubjectIsListed(g, q.subjectType, q.subjectRelation);
    }
    hide Parsing.Meaning, AllKnown, Accepts, Means, Names.IsRelation, Names.IsObject, Names.IsSubject, ListsSubject, Ground.Has;
  }

  lemma AskedSubjectKnown(g: Ground, q: NamedRequest)
    requires g.Stands() && Resolve(g.ids, g.subjects, q).Asks?
    ensures q.subjectType in g.ids.types && (q.subjectRelation != "" ==> q.subjectRelation in g.ids.relations)
  {
    hide Parsing.Meaning, AllKnown;
    EveryMemberCollected(g.defs, g.ids);
    var subj := Resolve(g.ids, g.subjects, q).request.subject;
    Sidecar.SubjectTyped(g.d, g.subjects, subj);
  }

  // ---- A replica ----

  ghost function GroundOf(r: Replica, source: string): Ground
    reads r, r.names, r.names.types, r.names.relations, r.names.objects
  {
    Ground(source, r.defs, r.names.Known(), r.schema.d, r.subjects, r.held)
  }

  /** What a store decides is the answer its source and its tuples give. */
  lemma DecidedIsAnswer(r: Replica, source: string, q: NamedRequest, allowed: bool)
    requires r.Valid() && Parsing.Meaning(source) == Parsing.Definitions(r.defs) && Resolve(r.names.Known(), r.subjects, q).Asks?
    requires allowed <==> Granted(r.schema.d, IdTuples(r.names.Known(), r.held), Resolve(r.names.Known(), r.subjects, q).request)
    ensures var g: Ground := GroundOf(r, source); g.Stands() && (allowed <==> g.Answer(q))
  {
    hide Parsing.Meaning, Means, Accepts, Resolve, Granted;
    r.names.KnownOk();
  }
}
