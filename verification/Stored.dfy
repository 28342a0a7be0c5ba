/** The store checks tuples against a compiled schema, by id; that is the same as checking them by name. */
module Stored {
  import opened Refs
  import opened Schema
  import opened Dictionaries
  import opened Compile
  import opened Tuples
  import Expressions
  import Builder
  import Grammar
  import Lexing
  import Names
  import Parsing

  // ---- The schema a source stands for, by name ----

  function AddNamed(n: NamedSchema, typ: string, m: Grammar.Member): NamedSchema {
    var member := Member(typ, m.name);
    if member in n.accepted || member in n.permissions then n
    else
      match m
      case Relation(_, types) => n.(accepted := n.accepted[member := types])
      case Permission(_, _) => n.(permissions := n.permissions + {member})
  }

  function AddNamedMembers(n: NamedSchema, typ: string, ms: seq<Grammar.Member>): NamedSchema {
    if ms == [] then n else AddNamed(AddNamedMembers(n, typ, ms[..|ms| - 1]), typ, ms[|ms| - 1])
  }

  function NamedOf(defs: seq<Grammar.Definition>): NamedSchema {
    if defs == [] then NamedSchema("", map[], {})
    else
      var last := defs[|defs| - 1];
      AddNamedMembers(NamedOf(defs[..|defs| - 1]), last.name, last.members)
  }

  // ---- The check as the store makes it ----

  /** Which of the two refusals, if any, f meets in the compiled schema. No name is added by asking. */
  function CheckById(d: Defs, ids: NameIds, f: Filter): Verdict {
    var ref := RelationRef(Find(ids.types, f.resourceType), Find(ids.relations, f.relation));
    if ref !in d.rewrites then Undefined
    else if d.rewrites[ref].op != This then IsPermission
    else if f.subjectType == "" then Fine
    else
      var relation := if f.subjectRelation != "" then Find(ids.relations, f.subjectRelation) else NO_RELATION;
      var st := SubjectType(Find(ids.types, f.subjectType), relation, f.wildcard);
      if (f.subjectRelation != "" && relation == NO_RELATION) || !d.Allows(ref, st) then NotAccepted else Fine
  }

  // ---- The two agree ----

  ghost predicate KindsKnown(kinds: seq<Kind>, ids: NameIds) {
    forall k :: k in kinds ==> Grammar.GoodKind(k) && k.typ in ids.types && (k.relation != "" ==> k.relation in ids.relations)
  }

  /** d holds under their ids what n holds under their names, and nothing else. */
  ghost predicate StandsFor(n: NamedSchema, d: Defs, ids: NameIds) {
    && (forall m :: m in n.accepted.Keys + n.permissions ==> m.typ in ids.types && m.relation in ids.relations)
    && (forall m :: m in n.accepted ==> m !in n.permissions && KindsKnown(n.accepted[m], ids))
    && (forall ref :: ref in d.rewrites ==> ref.typ != 0 && ref.relation != 0)
    && (forall ref :: ref in d.allowed ==> ref in d.rewrites)
    && (forall typ, rel :: typ in ids.types && rel in ids.relations ==> Agrees(n, d, ids, typ, rel))
  }

  ghost predicate Agrees(n: NamedSchema, d: Defs, ids: NameIds, typ: string, rel: string)
    requires typ in ids.types && rel in ids.relations
  {
    var m, ref := Member(typ, rel), RelationRef(ids.types[typ], ids.relations[rel]);
    && (m in n.accepted <==> ref in d.rewrites && d.rewrites[ref].op == This)
    && (m in n.permissions <==> ref in d.rewrites && d.rewrites[ref].op != This)
    && (m in n.accepted ==> ref in d.allowed && d.allowed[ref] == TranslateKinds(n.accepted[m], ids))
  }

  lemma AddAgrees(n: NamedSchema, c: Collected, typ: string, m: Grammar.Member, ids: NameIds, t: string, r: string)
    requires ids.Ok() && typ in ids.types && m.name in ids.relations && t in ids.types && r in ids.relations
    requires Agrees(n, c.d, ids, typ, m.name) && Agrees(n, c.d, ids, t, r)
    requires Member(typ, m.name) in n.accepted ==> Member(typ, m.name) !in n.permissions
    ensures Agrees(AddNamed(n, typ, m), AddMember(c, RefOf(typ, m, ids), m, ids).d, ids, t, r)
  {
  }

  lemma AddStands(n: NamedSchema, c: Collected, typ: string, m: Grammar.Member, ids: NameIds)
    requires ids.Ok() && StandsFor(n, c.d, ids) && typ in ids.types && MemberKnown(m, ids) && Grammar.GoodMemberTree(m)
    ensures StandsFor(AddNamed(n, typ, m), AddMember(c, RefOf(typ, m, ids), m, ids).d, ids)
  {
    hide KindsKnown, NamesOf, Expressions.Shaped, TranslateKinds, Translate, Grammar.GoodKind, Expressions.Reserved,
         Agrees;
    if m.Relation? { assert KindsKnown(m.types, ids) by { KnownKinds(m, ids); } }
    forall t, r | t in ids.types && r in ids.relations
      ensures Agrees(AddNamed(n, typ, m), AddMember(c, RefOf(typ, m, ids), m, ids).d, ids, t, r) {
      AddAgrees(n, c, typ, m, ids, t, r);
    }
  }

  lemma KnownKinds(m: Grammar.Member, ids: NameIds)
    requires m.Relation? && MemberKnown(m, ids) && Grammar.GoodMemberTree(m)
    ensures KindsKnown(m.types, ids)
  {
  }

  lemma {:induction false} AddMembersStand(n: NamedSchema, c: Collected, typ: string, ms: seq<Grammar.Member>, ids: NameIds)
    requires ids.Ok() && StandsFor(n, c.d, ids) && typ in ids.types && MembersKnown(ms, ids)
    requires forall m :: m in ms ==> Grammar.GoodMemberTree(m)
    ensures StandsFor(AddNamedMembers(n, typ, ms), AddMembers(c, typ, ms, ids).d, ids)
  {
    hide StandsFor, MemberKnown, Grammar.GoodMemberTree, AddNamed, AddMember, NameIds.Ok;
    if ms != [] {
      var init, last := ms[..|ms| - 1], ms[|ms| - 1];
      AddMembersStand(n, c, typ, init, ids);
      assert last in ms;
      AddStands(AddNamedMembers(n, typ, init), AddMembers(c, typ, init, ids), typ, last, ids);
    }
  }

  lemma {:induction false} DefinitionsStand(defs: seq<Grammar.Definition>, ids: NameIds)
    requires ids.Ok() && AllNamesKnown(defs, ids) && forall d :: d in defs ==> Grammar.GoodTree(d)
    ensures StandsFor(NamedOf(defs), AddDefinitions(defs, ids).d, ids)
  {
    hide MembersKnown, Grammar.GoodMemberTree, AddNamedMembers, AddMembers, NameIds.Ok;
    if defs != [] {
      var init, last := defs[..|defs| - 1], defs[|defs| - 1];
      DefinitionsStand(init, ids);
      assert Grammar.GoodTree(last);
      hide StandsFor;
      AddMembersStand(NamedOf(init), AddDefinitions(init, ids), last.name, last.members, ids);
    }
  }

  lemma AllowsByName(ids: NameIds, kinds: seq<Kind>, f: Kind)
    requires ids.Ok() && KindsKnown(kinds, ids) && (f.wildcard ==> f.relation == "")
    ensures (SubjectType(Find(ids.types, f.typ), if f.relation != "" then Find(ids.relations, f.relation) else NO_RELATION, f.wildcard)
               in TranslateKinds(kinds, ids) && !(f.relation != "" && f.relation !in ids.relations))
            <==> f in kinds
  {
    hide Grammar.GoodKind;
    var relation := if f.relation != "" then Find(ids.relations, f.relation) else NO_RELATION;
    var st, sts := SubjectType(Find(ids.types, f.typ), relation, f.wildcard), TranslateKinds(kinds, ids);
    if f in kinds {
      var i :| 0 <= i < |kinds| && kinds[i] == f;
      assert sts[i] == TranslateKind(f, ids) == st;
    }
    if st in sts && !(f.relation != "" && f.relation !in ids.relations) {
      var i :| 0 <= i < |sts| && sts[i] == st;
      assert kinds[i] in kinds;
      GoodKindRelation(kinds[i]);
      assert TranslateKind(kinds[i], ids) == st;
      assert kinds[i] == f;
    }
  }

  lemma GoodKindRelation(k: Kind)
    requires Grammar.GoodKind(k)
    ensures k.wildcard ==> k.relation == ""
  {
  }

  /** Checking a filter against a compiled schema by id is checking it against the source's definitions by name. */
  lemma CheckByIdIsByName(defs: seq<Grammar.Definition>, ids: NameIds, d: Defs, f: Filter)
    requires ids.Ok() && Means(defs, ids, d) && (forall e :: e in defs ==> Grammar.GoodTree(e)) && f.Valid()
    ensures CheckById(d, ids, f) == CheckFilter(NamedOf(defs), f)
  {
    hide Names.IsType, Names.IsRelation, Grammar.GoodTree, Checked, Interned, NamedOf, AddDefinitions;
    CheckedIsKnown(defs, ids);
    DefinitionsStand(defs, ids);
    hide AllNamesKnown, TranslateKinds, KindsKnown;
    var n, m := NamedOf(defs), Member(f.resourceType, f.relation);
    if f.resourceType in ids.types && f.relation in ids.relations {
      assert Agrees(n, d, ids, f.resourceType, f.relation);
      if m in n.accepted && f.subjectType != "" {
        AllowsByName(ids, n.accepted[m], Kind(f.subjectType, f.subjectRelation, f.wildcard));
        assert f.subjectRelation in ids.relations ==> Find(ids.relations, f.subjectRelation) != NO_RELATION;
      }
    }
  }

  /** The definitions of a source the compiler took make a well-formed schema, as dropped needs. */
  lemma NamedIsWellFormed(defs: seq<Grammar.Definition>, ids: NameIds, d: Defs)
    requires ids.Ok() && Means(defs, ids, d) && (forall e :: e in defs ==> Grammar.GoodTree(e))
    ensures NamedOf(defs).WellFormed()
  {
    hide Grammar.GoodTree, Checked, Interned, NamedOf, AddDefinitions;
    CheckedIsKnown(defs, ids);
    DefinitionsStand(defs, ids);
    hide AllNamesKnown;
    var n := NamedOf(defs);
    forall m, k | m in n.accepted && k in n.accepted[m] ensures k.typ != "" {
      assert KindsKnown(n.accepted[m], ids);
    }
  }

  // ---- What the store takes ----

  ghost predicate CompiledAs(schema: NamedSchema, defs: seq<Grammar.Definition>, ids: NameIds, d: Defs) {
    && Parsing.Meaning(schema.source) == Parsing.Definitions(defs)
    && ids.Ok() && Means(defs, ids, d) && Builder.Accepts(d)
    && schema == NamedOf(defs).(source := schema.source)
  }

  /** Some dictionary's compiler takes schema's source, and the rest of schema is what the source says. */
  ghost predicate Compiled(schema: NamedSchema) { exists defs, ids, d :: CompiledAs(schema, defs, ids, d) }

  lemma CompiledIsWellFormed(schema: NamedSchema)
    requires Compiled(schema)
    ensures schema.WellFormed()
  {
    hide CompiledAs;
    var defs, ids, d :| CompiledAs(schema, defs, ids, d);
    CompiledIsRead(schema, defs, ids, d);
    Grammar.FileIsGood(Lexing.Lexemes(schema.source));
    NamedIsWellFormed(defs, ids, d);
  }

  lemma CompiledIsRead(schema: NamedSchema, defs: seq<Grammar.Definition>, ids: NameIds, d: Defs)
    requires CompiledAs(schema, defs, ids, d)
    ensures Grammar.ParseFile(Lexing.Lexemes(schema.source)).Ok? && Grammar.ParseFile(Lexing.Lexemes(schema.source)).value == defs
    ensures ids.Ok() && Means(defs, ids, d)
    ensures NamedOf(defs).accepted == schema.accepted && NamedOf(defs).permissions == schema.permissions
  {
    hide Grammar.ParseFile, Lexing.Lexemes, Means, NamedOf, NameIds.Ok, Builder.Accepts;
  }

  /** What a compiled schema accepts is what the definitions its source is read as accept. */
  lemma CompiledAccepts(schema: NamedSchema, defs: seq<Grammar.Definition>, t: Tuples.Tuple)
    requires Compiled(schema) && Parsing.Meaning(schema.source) == Parsing.Definitions(defs)
    ensures schema.Accepts(t) <==> NamedOf(defs).Accepts(t)
  {
    hide Parsing.Meaning, Means, NamedOf, NameIds.Ok, Builder.Accepts;
  }

  // ---- What may be deleted ----

  ghost predicate ListedBy(def: Grammar.Definition, m: Member, kinds: seq<Kind>) {
    def.name == m.typ && Grammar.Relation(m.relation, kinds) in def.members
  }

  lemma {:induction false} MembersListed(n: NamedSchema, def: Grammar.Definition, ms: seq<Grammar.Member>, m: Member)
    requires forall x :: x in ms ==> x in def.members
    ensures var n' := AddNamedMembers(n, def.name, ms);
            m in n'.accepted ==> (m in n.accepted && n'.accepted[m] == n.accepted[m]) || ListedBy(def, m, n'.accepted[m])
  {
    if ms != [] {
      var init, last := ms[..|ms| - 1], ms[|ms| - 1];
      assert last in ms && forall x :: x in init ==> x in ms;
      MembersListed(n, def, init, m);
      if last.Relation? { assert last == Grammar.Relation(last.name, last.types); }
    }
  }

  /** Every list in the schema is one that the source gives. */
  lemma {:induction false} ListsAreGiven(defs: seq<Grammar.Definition>, m: Member)
    ensures m in NamedOf(defs).accepted ==> exists def :: def in defs && ListedBy(def, m, NamedOf(defs).accepted[m])
  {
    if defs != [] {
      var init, last := defs[..|defs| - 1], defs[|defs| - 1];
      ListsAreGiven(init, m);
      MembersListed(NamedOf(init), last, last.members, m);
      assert last in defs && forall def :: def in init ==> def in defs;
      hide ListedBy;
    }
  }

  /** Whatever a compiled schema lets be stored can be deleted, a relation at a time or one kind of it. */
  lemma DeletesTaken(schema: NamedSchema, m: Member, k: Kind)
    requires Compiled(schema) && m in schema.accepted
    ensures WholeFilter(m).Valid() && CheckFilter(schema, WholeFilter(m)).Fine?
    ensures k in schema.accepted[m] ==> KindFilter(m, k).Valid() && CheckFilter(schema, KindFilter(m, k)).Fine?
  {
    hide CompiledAs;
    var defs, ids, d :| CompiledAs(schema, defs, ids, d);
    CompiledIsRead(schema, defs, ids, d);
    Grammar.FileIsGood(Lexing.Lexemes(schema.source));
    ListsAreGiven(defs, m);
    var def :| def in defs && ListedBy(def, m, schema.accepted[m]);
    ListedNames(defs, ids, d, def, m, schema.accepted[m], k);
    hide Means, NameIds.Ok, ListedBy, Grammar.GoodTree;
    FiltersTaken(schema, m, k);
  }

  lemma ListedNames(defs: seq<Grammar.Definition>, ids: NameIds, d: Defs, def: Grammar.Definition, m: Member, kinds: seq<Kind>, k: Kind)
    requires Means(defs, ids, d) && def in defs && ListedBy(def, m, kinds) && Grammar.GoodTree(def)
    ensures Names.IsType(m.typ) && Names.IsRelation(m.relation)
    ensures k in kinds ==> Names.IsType(k.typ) && (k.relation == "" || (Names.IsRelation(k.relation) && !k.wildcard))
  {
    hide Names.IsType, Names.IsRelation, Interned, AddDefinitions;
    var x := Grammar.Relation(m.relation, kinds);
    assert x in def.members && MembersNamed(def) && MembersResolve(defs, def) && Resolves(defs, x);
    assert Grammar.GoodMemberTree(x);
    if k in kinds {
      assert Grammar.GoodKind(k);
      var i :| 0 <= i < |defs| && defs[i].name == k.typ;
      assert defs[i] in defs;
      if k.relation != "" {
        var j :| 0 <= j < |defs| && Holds(defs[j], k.relation);
        var p :| 0 <= p < |defs[j].members| && defs[j].members[p].name == k.relation;
        assert defs[j] in defs && MembersNamed(defs[j]) && defs[j].members[p] in defs[j].members;
      }
    }
  }
}
