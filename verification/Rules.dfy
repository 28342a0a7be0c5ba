/** Which sources the compiler takes, told of their text: enough for every source that subtracts nothing. */
module Rules {
  import opened Refs
  import opened Schema
  import opened Builder
  import opened Dictionaries
  import opened Compile
  import Acceptance
  import Expressions
  import Grammar
  import Names
  import Tuples

  // ---- What a source keeps to ----

  /** Some definition of typ has a member of that name. */
  ghost predicate Offers(defs: seq<Grammar.Definition>, typ: string, name: string) {
    exists def :: def in defs && def.name == typ && Holds(def, name)
  }

  /** An arrow's tupleset is a relation of the definition that lists plain objects, of a type that offers the target. */
  ghost predicate Leads(defs: seq<Grammar.Definition>, def: Grammar.Definition, types: seq<Tuples.Kind>, target: string) {
    && (forall k :: k in types ==> k.relation == "" && !k.wildcard)
    && exists k :: k in types && Offers(defs, k.typ, target)
  }

  ghost predicate Reads(defs: seq<Grammar.Definition>, def: Grammar.Definition, e: Expressions.Expr)
    decreases e
  {
    match e
    case Ref(name) => Holds(def, name)
    case Arrow(tupleset, target) =>
      exists types :: Grammar.Relation(tupleset, types) in def.members && Leads(defs, def, types, target)
    case Combination(op, operands) => op != "-" && forall o :: o in operands ==> Reads(defs, def, o)
  }

  ghost predicate MemberGood(defs: seq<Grammar.Definition>, def: Grammar.Definition, m: Grammar.Member) {
    && Names.IsRelation(m.name) && Grammar.GoodMemberTree(m)
    && match m
       case Relation(_, types) =>
         && (forall i, j :: 0 <= i < j < |types| ==> types[i] != types[j])
         && (forall k :: k in types ==> Defines(defs, k.typ) && (k.relation != "" ==> Offers(defs, k.typ, k.relation)))
       case Permission(_, expr) => Reads(defs, def, expr)
  }

  ghost predicate NoKind(defs: seq<Grammar.Definition>, wildcards: bool) {
    forall def, m :: def in defs && m in def.members && m.Relation? ==>
      forall k :: k in m.types ==> if wildcards then !k.wildcard else k.relation == ""
  }

  /** Names are well formed and given once, every name refers to something, arrows follow objects, nothing is subtracted,
      and wildcards and usersets are not both listed. Permissions may recur. */
  ghost predicate Plain(defs: seq<Grammar.Definition>) {
    && (forall i, j :: 0 <= i < j < |defs| ==> defs[i].name != defs[j].name)
    && (forall def :: def in defs ==> Names.IsType(def.name) && OnceEach(def) && forall m :: m in def.members ==> MemberGood(defs, def, m))
    && (NoKind(defs, true) || NoKind(defs, false))
  }

  ghost predicate OnceEach(def: Grammar.Definition) {
    forall i, j :: 0 <= i < j < |def.members| ==> def.members[i].name != def.members[j].name
  }

  // ---- It is checked ----

  lemma OfferedIsDeclared(defs: seq<Grammar.Definition>, typ: string, name: string)
    requires Offers(defs, typ, name)
    ensures Declares(defs, name) && Defines(defs, typ)
  {
    var def :| def in defs && def.name == typ && Holds(def, name);
    var i :| 0 <= i < |defs| && defs[i] == def;
  }

  lemma {:induction false} ReadsDeclared(defs: seq<Grammar.Definition>, def: Grammar.Definition, e: Expressions.Expr)
    requires def in defs && Reads(defs, def, e)
    ensures forall n :: n in NamesOf(e) ==> Declares(defs, n)
  {
    var i :| 0 <= i < |defs| && defs[i] == def;
    match e
    case Ref(name) => assert Holds(defs[i], name);
    case Arrow(tupleset, target) =>
      var types: seq<Tuples.Kind> :| Grammar.Relation(tupleset, types) in def.members && Leads(defs, def, types, target);
      var j :| 0 <= j < |def.members| && def.members[j] == Grammar.Relation(tupleset, types);
      assert Holds(defs[i], tupleset);
      var k :| k in types && Offers(defs, k.typ, target);
      OfferedIsDeclared(defs, k.typ, target);
    case Combination(op, operands) =>
      hide Declares, NamesOf;
      forall o | o in operands ensures forall n :: n in NamesOf(o) ==> Declares(defs, n) { ReadsDeclared(defs, def, o); }
      NamesWithin(defs, e);
  }

  lemma NamesWithin(defs: seq<Grammar.Definition>, e: Expressions.Expr)
    requires e.Combination? && forall o :: o in e.operands ==> forall n :: n in NamesOf(o) ==> Declares(defs, n)
    ensures forall n :: n in NamesOf(e) ==> Declares(defs, n)
  {
    hide Declares;
  }

  lemma PlainIsChecked(defs: seq<Grammar.Definition>)
    requires Plain(defs)
    ensures Checked(defs)
  {
    hide Names.IsType, Names.IsRelation, Grammar.GoodMemberTree, Defines, Declares, NoKind, OnceEach;
    forall def | def in defs ensures MembersNamed(def) && MembersResolve(defs, def) {
      forall m | m in def.members ensures Resolves(defs, m) {
        assert MemberGood(defs, def, m);
        if m.Relation? {
          forall k | k in m.types && k.relation != "" ensures Declares(defs, k.relation) { OfferedIsDeclared(defs, k.typ, k.relation); }
        } else {
          ReadsDeclared(defs, def, m.expr);
        }
      }
    }
  }

  // ---- It is collected once ----

  lemma {:induction false} MembersOnce(c: Collected, typ: string, ms: seq<Grammar.Member>, ids: NameIds)
    requires !c.twice && ids.Ok() && (forall m :: m in ms ==> m.name in ids.relations && RefOf(typ, m, ids) !in c.d.rewrites)
    requires forall i, j :: 0 <= i < j < |ms| ==> ms[i].name != ms[j].name
    ensures !AddMembers(c, typ, ms, ids).twice
  {
    hide Translate, TranslateKinds;
    if ms != [] {
      var init, last := ms[..|ms| - 1], ms[|ms| - 1];
      MembersOnce(c, typ, init, ids);
      MembersGiven(c, typ, init, ids, RefOf(typ, last, ids));
      var ref := RefOf(typ, last, ids);
      assert last in ms;
      forall m | m in init ensures RefOf(typ, m, ids) != ref {
        var i :| 0 <= i < |init| && init[i] == m;
        assert ms[i].name != last.name && m in ms;
      }
    }
  }

  lemma {:induction false} PlainIsOnce(defs: seq<Grammar.Definition>, ids: NameIds)
    requires ids.Ok() && AllNamesKnown(defs, ids) && (forall def :: def in defs ==> OnceEach(def))
    requires forall i, j :: 0 <= i < j < |defs| ==> defs[i].name != defs[j].name
    ensures !AddDefinitions(defs, ids).twice
  {
    hide AddMembers, MemberKnown;
    if defs != [] {
      var init, last := defs[..|defs| - 1], defs[|defs| - 1];
      PlainIsOnce(init, ids);
      forall m | m in last.members ensures m.name in ids.relations && RefOf(last.name, m, ids) !in AddDefinitions(init, ids).d.rewrites {
        OnlyHere(defs, ids, m);
      }
      hide AddDefinitions;
      assert OnceEach(last);
      MembersOnce(AddDefinitions(init, ids), last.name, last.members, ids);
    }
  }

  lemma OnlyHere(defs: seq<Grammar.Definition>, ids: NameIds, m: Grammar.Member)
    requires ids.Ok() && AllNamesKnown(defs, ids) && defs != [] && m in defs[|defs| - 1].members
    requires forall i, j :: 0 <= i < j < |defs| ==> defs[i].name != defs[j].name
    ensures m.name in ids.relations
    ensures RefOf(defs[|defs| - 1].name, m, ids) !in AddDefinitions(defs[..|defs| - 1], ids).d.rewrites
  {
    hide AddDefinitions;
    var init, last := defs[..|defs| - 1], defs[|defs| - 1];
    var j :| 0 <= j < |last.members| && last.members[j] == m;
    assert MemberKnown(last.members[j], ids);
    var ref := RefOf(last.name, m, ids);
    EveryRefGiven(init, ids, ref);
    forall def | def in init ensures def.name in ids.types && def.name != last.name {
      var i :| 0 <= i < |init| && init[i] == def;
      assert defs[i].name in ids.types;
    }
  }

  // ---- It is built ----

  /** What is collected of a plain source, with its names interned. */
  ghost predicate Built(defs: seq<Grammar.Definition>, ids: NameIds, d: Defs) {
    && Plain(defs) && ids.Ok() && AllNamesKnown(defs, ids) && ListsOk(d)
    && (forall def, m :: def in defs && m in def.members ==> Collects(d, RefOf(def.name, m, ids), m, ids))
    && (forall ref :: ref in d.rewrites ==> Given(defs, ids, ref, false))
    && (forall ref :: ref in d.allowed ==> Given(defs, ids, ref, true))
  }

  lemma PlainIsBuilt(defs: seq<Grammar.Definition>, ids: NameIds)
    requires Plain(defs) && ids.Ok() && Interned(defs, ids)
    ensures !AddDefinitions(defs, ids).twice && Built(defs, ids, AddDefinitions(defs, ids).d)
  {
    PlainIsChecked(defs);
    CheckedIsKnown(defs, ids);
    hide Interned, Checked, AllNamesKnown, Collects, Given, AddDefinitions, MemberGood, NameIds.Ok, NoKind;
    PlainIsOnce(defs, ids);
    EveryMemberCollected(defs, ids);
    forall ref ensures
      (ref in AddDefinitions(defs, ids).d.rewrites ==> Given(defs, ids, ref, false))
      && (ref in AddDefinitions(defs, ids).d.allowed ==> Given(defs, ids, ref, true))
    {
      EveryRefGiven(defs, ids, ref);
    }
  }

  lemma MemberNames(defs: seq<Grammar.Definition>, ids: NameIds, def: Grammar.Definition, m: Grammar.Member)
    requires AllNamesKnown(defs, ids) && def in defs && m in def.members
    ensures def.name in ids.types && MemberKnown(m, ids)
  {
    hide MemberKnown;
    var i :| 0 <= i < |defs| && defs[i] == def;
    var j :| 0 <= j < |def.members| && def.members[j] == m;
    assert MemberKnown(defs[i].members[j], ids);
  }

  /** What a definition offers is defined under its ids. */
  lemma OfferedIsDefined(defs: seq<Grammar.Definition>, ids: NameIds, d: Defs, typ: string, name: string)
    requires Built(defs, ids, d) && Offers(defs, typ, name)
    ensures typ in ids.types && name in ids.relations && d.Defined(RelationRef(ids.types[typ], ids.relations[name]))
  {
    hide Plain, NameIds.Ok, Given, AllNamesKnown, MemberKnown;
    var def :| def in defs && def.name == typ && Holds(def, name);
    var j :| 0 <= j < |def.members| && def.members[j].name == name;
    MemberNames(defs, ids, def, def.members[j]);
    assert def.members[j] in def.members;
    assert Collects(d, RefOf(def.name, def.members[j], ids), def.members[j], ids);
    KnownName(def.members[j], ids);
  }

  lemma KnownName(m: Grammar.Member, ids: NameIds)
    requires MemberKnown(m, ids)
    ensures m.name in ids.relations
  {
  }

  lemma {:induction false} ReadsResolve(defs: seq<Grammar.Definition>, ids: NameIds, d: Defs, def: Grammar.Definition, ref: RelationRef,
                                        e: Expressions.Expr)
    requires Built(defs, ids, d) && def in defs && Reads(defs, def, e) && def.name in ids.types && ref.typ == ids.types[def.name]
    ensures ReferencesOk(d, ref, e, ids.relations)
  {
    hide Plain, Given, AllNamesKnown, ArrowOk;
    match e
    case Ref(name) =>
      assert Offers(defs, def.name, name);
      OfferedIsDefined(defs, ids, d, def.name, name);
    case Arrow(tupleset, target) =>
      var types: seq<Tuples.Kind> :| Grammar.Relation(tupleset, types) in def.members && Leads(defs, def, types, target);
      LeadsResolves(defs, ids, d, def, ref, tupleset, types, target);
    case Combination(op, operands) =>
      forall o | o in operands ensures ReferencesOk(d, ref, o, ids.relations) { ReadsResolve(defs, ids, d, def, ref, o); }
  }

  lemma LeadsResolves(defs: seq<Grammar.Definition>, ids: NameIds, d: Defs, def: Grammar.Definition, ref: RelationRef,
                      tupleset: string, types: seq<Tuples.Kind>, target: string)
    requires Built(defs, ids, d) && def in defs && def.name in ids.types && ref.typ == ids.types[def.name]
    requires Grammar.Relation(tupleset, types) in def.members && Leads(defs, def, types, target)
    ensures ArrowOk(d, ref, Translate(Expressions.Arrow(tupleset, target), ids.relations))
  {
    hide Plain, Given, AllNamesKnown, Offers;
    var m := Grammar.Relation(tupleset, types);
    MemberNames(defs, ids, def, m);
    assert Collects(d, RefOf(def.name, m, ids), m, ids);
    var k :| k in types && Offers(defs, k.typ, target);
    OfferedIsDefined(defs, ids, d, k.typ, target);
    var i :| 0 <= i < |types| && types[i] == k;
    var ts := RelationRef(ref.typ, ids.relations[tupleset]);
    assert d.Accepted(ts)[i] == DirectType(ids.types[k.typ]);
    assert RelationRef(ids.types[k.typ], ids.relations[target]) in ArrowTargets(d, ts, ids.relations[target]);
  }

  lemma {:induction false} NothingSubtracted(defs: seq<Grammar.Definition>, def: Grammar.Definition, e: Expressions.Expr, relations: Ids)
    requires Reads(defs, def, e) && Expressions.Shaped(e)
    ensures !Acceptance.Excludes(Translate(e, relations))
  {
    if e.Combination? {
      forall i | 0 <= i < |e.operands| ensures !Acceptance.Excludes(Translate(e.operands[i], relations)) {
        NothingSubtracted(defs, def, e.operands[i], relations);
      }
    }
  }

  /** Without a wildcard on any list nothing gathers one. */
  lemma NothingGathered(d: Defs, ref: RelationRef)
    requires forall r, st :: r in d.allowed && st in d.allowed[r] ==> !st.wildcard
    ensures !PicksUpWildcard(d, ref)
  {
  }

  lemma ListIsGiven(defs: seq<Grammar.Definition>, ids: NameIds, d: Defs, ref: RelationRef, st: SubjectType)
    returns (def: Grammar.Definition, m: Grammar.Member, k: Tuples.Kind)
    requires Built(defs, ids, d) && ref in d.allowed && st in d.allowed[ref]
    ensures def in defs && m in def.members && m.Relation? && k in m.types && st == TranslateKind(k, ids)
  {
    hide Plain, AllNamesKnown, NameIds.Ok;
    assert Given(defs, ids, ref, true);
    def :| def in defs && Gives(def, ids, ref, true);
    m :| m in def.members && RefOf(def.name, m, ids) == ref && m.Relation?;
    assert Collects(d, RefOf(def.name, m, ids), m, ids);
    var i :| 0 <= i < |d.allowed[ref]| && d.allowed[ref][i] == st;
    k := m.types[i];
  }

  lemma RelationTaken(defs: seq<Grammar.Definition>, ids: NameIds, d: Defs, def: Grammar.Definition, m: Grammar.Member)
    requires Built(defs, ids, d) && def in defs && m in def.members && m.Relation?
    ensures var ref := RefOf(def.name, m, ids);
            ref in d.rewrites && d.rewrites[ref] == ThisRewrite() && DefinitionOk(d, ref)
  {
    var ref := RefOf(def.name, m, ids);
    assert Collects(d, ref, m, ids) && MemberGood(defs, def, m);
    MemberNames(defs, ids, def, m);
    ListTaken(defs, ids, d, def, m);
    hide AllNamesKnown, Given, DefinitionOk, PicksUpWildcard, Plain, MemberGood, Acceptance.EntryRight, TranslateKinds;
    Acceptance.RelationRight(d, ref);
    assert d.Accepted(ref) == TranslateKinds(m.types, ids);
  }

  /** A listed kind with its names known: it may be told apart from any other, and may be accepted. */
  ghost predicate KindTaken(defs: seq<Grammar.Definition>, ids: NameIds, k: Tuples.Kind) {
    && Grammar.GoodKind(k) && k.typ in ids.types
    && (k.relation != "" ==> k.relation in ids.relations && Offers(defs, k.typ, k.relation) && NoKind(defs, true))
  }

  lemma KindsTaken(defs: seq<Grammar.Definition>, ids: NameIds, def: Grammar.Definition, m: Grammar.Member)
    requires Plain(defs) && AllNamesKnown(defs, ids) && def in defs && m in def.members && m.Relation?
    ensures m.types != [] && (forall i, j :: 0 <= i < j < |m.types| ==> m.types[i] != m.types[j])
    ensures forall k :: k in m.types ==> KindTaken(defs, ids, k)
  {
    assert MemberGood(defs, def, m);
    MemberNames(defs, ids, def, m);
    hide Offers, Names.IsRelation, Names.IsType, Grammar.GoodKind, Defines, OnceEach, AllNamesKnown;
  }

  lemma ListApart(defs: seq<Grammar.Definition>, ids: NameIds, kinds: seq<Tuples.Kind>)
    requires ids.Ok() && forall k :: k in kinds ==> KindTaken(defs, ids, k)
    requires forall i, j :: 0 <= i < j < |kinds| ==> kinds[i] != kinds[j]
    ensures var types := TranslateKinds(kinds, ids); forall i, j :: 0 <= i < j < |types| ==> types[i] != types[j]
  {
    hide KindTaken, TranslateKind, NameIds.Ok;
    var types := TranslateKinds(kinds, ids);
    forall i, j | 0 <= i < j < |types| ensures types[i] != types[j] { KindsApart(defs, ids, kinds[i], kinds[j]); }
  }

  lemma ListTaken(defs: seq<Grammar.Definition>, ids: NameIds, d: Defs, def: Grammar.Definition, m: Grammar.Member)
    requires Built(defs, ids, d) && def in defs && m in def.members && m.Relation?
    ensures var types := TranslateKinds(m.types, ids);
            && types != [] && (forall i, j :: 0 <= i < j < |types| ==> types[i] != types[j])
            && forall st :: st in types ==> Acceptance.EntryRight(d, st)
  {
    hide Collects, Given, ListsOk, MemberGood, OnceEach, NoKind, MemberKnown, NameIds.Ok, TranslateKind;
    KindsTaken(defs, ids, def, m);
    ListApart(defs, ids, m.types);
    hide Built, KindTaken, Acceptance.EntryRight, TranslateKind, NameIds.Ok;
    var types := TranslateKinds(m.types, ids);
    forall st | st in types ensures Acceptance.EntryRight(d, st) {
      var i :| 0 <= i < |types| && types[i] == st;
      EntryTaken(defs, ids, d, m.types[i]);
    }
  }

  lemma KindsApart(defs: seq<Grammar.Definition>, ids: NameIds, k: Tuples.Kind, l: Tuples.Kind)
    requires ids.Ok() && k != l && KindTaken(defs, ids, k) && KindTaken(defs, ids, l)
    ensures TranslateKind(k, ids) != TranslateKind(l, ids)
  {
    hide Offers, NoKind;
  }

  lemma EntryTaken(defs: seq<Grammar.Definition>, ids: NameIds, d: Defs, k: Tuples.Kind)
    requires Built(defs, ids, d) && KindTaken(defs, ids, k)
    ensures Acceptance.EntryRight(d, TranslateKind(k, ids))
  {
    hide Plain, AllNamesKnown, Given, Offers, PicksUpWildcard;
    if k.relation != "" {
      OfferedIsDefined(defs, ids, d, k.typ, k.relation);
      forall r, st | r in d.allowed && st in d.allowed[r] ensures !st.wildcard {
        var def, m, l := ListIsGiven(defs, ids, d, r, st);
      }
      NothingGathered(d, TranslateKind(k, ids).Target());
    }
  }

  lemma PermissionTaken(defs: seq<Grammar.Definition>, ids: NameIds, d: Defs, def: Grammar.Definition, m: Grammar.Member)
    requires Built(defs, ids, d) && def in defs && m in def.members && m.Permission?
    ensures var ref := RefOf(def.name, m, ids);
            ref in d.rewrites && d.rewrites[ref] == Translate(m.expr, ids.relations) && DefinitionOk(d, ref)
            && !Acceptance.Excludes(d.rewrites[ref])
  {
    var ref := RefOf(def.name, m, ids);
    assert Collects(d, ref, m, ids) && MemberGood(defs, def, m);
    MemberNames(defs, ids, def, m);
    hide AllNamesKnown, Given, Plain, Reads, ReferencesOk, PicksUpWildcard, Names.IsType, Names.IsRelation, NamesOf;
    ReadsResolve(defs, ids, d, def, ref, m.expr);
    ArityIsRight(d, ref, m.expr, ids.relations);
    NothingSubtracted(defs, def, m.expr, ids.relations);
    assert Translate(m.expr, ids.relations).op != This;
  }

  /** Every plain source compiles, however its permissions recur: only a full dictionary can be in the way. */
  lemma PlainSourceIsTaken(defs: seq<Grammar.Definition>, ids: NameIds)
    requires Plain(defs) && ids.Ok() && Interned(defs, ids)
    ensures !Unfit(defs, ids)
  {
    PlainIsChecked(defs);
    PlainIsBuilt(defs, ids);
    hide Plain, Interned, Checked, AddDefinitions, NameIds.Ok, DefinitionOk, AllNamesKnown, Collects, Acceptance.Excludes, Accepts;
    var d := AddDefinitions(defs, ids).d;
    forall ref | ref in d.rewrites ensures DefinitionOk(d, ref) && !Acceptance.Excludes(d.rewrites[ref]) {
      assert Given(defs, ids, ref, false);
      var def :| def in defs && Gives(def, ids, ref, false);
      var m :| m in def.members && RefOf(def.name, m, ids) == ref;
      if m.Relation? { RelationTaken(defs, ids, d, def, m); ThisExcludesNothing(); } else { PermissionTaken(defs, ids, d, def, m); }
    }
    Acceptance.RecursionAccepted(d);
  }

  lemma ThisExcludesNothing()
    ensures !Acceptance.Excludes(ThisRewrite())
  {
  }
}
