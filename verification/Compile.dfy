/** From the definitions of a source to a built schema: names checked, interned and handed to the builder. */
module Compile {
  import opened Refs
  import opened Schema
  import opened Builder
  import opened Expressions
  import opened Grammar
  import opened Dictionaries
  import Names

  // ---- What names a source must keep to ----

  function NamesOf(e: Expr): set<string> {
    match e
    case Ref(name) => {name}
    case Arrow(tupleset, relation) => {tupleset, relation}
    case Combination(_, operands) => set o, n | o in operands && n in NamesOf(o) :: n
  }

  ghost predicate Defines(defs: seq<Definition>, typ: string) { exists i :: 0 <= i < |defs| && defs[i].name == typ }

  ghost predicate Holds(d: Definition, name: string) { exists i :: 0 <= i < |d.members| && d.members[i].name == name }

  ghost predicate Declares(defs: seq<Definition>, name: string) { exists i :: 0 <= i < |defs| && Holds(defs[i], name) }

  /** Every name m refers to is given somewhere in the source. */
  ghost predicate Resolves(defs: seq<Definition>, m: Member) {
    match m
    case Relation(_, types) =>
      forall k :: k in types ==> Defines(defs, k.typ) && (k.relation != "" ==> Declares(defs, k.relation))
    case Permission(_, expr) => forall n :: n in NamesOf(expr) ==> Declares(defs, n)
  }

  ghost predicate MembersNamed(d: Definition) { forall m :: m in d.members ==> Names.IsRelation(m.name) }
  ghost predicate MembersResolve(defs: seq<Definition>, d: Definition) { forall m :: m in d.members ==> Resolves(defs, m) }

  /** Names keep the identifier rules, types are defined once, and nothing is referred to that nobody declares. */
  ghost predicate Checked(defs: seq<Definition>) {
    && (forall d :: d in defs ==> Names.IsType(d.name) && MembersNamed(d) && MembersResolve(defs, d))
    && (forall i, j :: 0 <= i < j < |defs| ==> defs[i].name != defs[j].name)
  }

  // ---- Translation ----

  /** A combination's operator; any other than "+" and "&" subtracts. */
  function OpOf(op: string): Op { if op == "+" then Union else if op == "&" then Intersection else Exclusion }

  function Translate(e: Expr, relations: Ids): Rewrite {
    match e
    case Ref(name) => Rewrite(ComputedUserset, Find(relations, name), NO_RELATION, [])
    case Arrow(tupleset, relation) => Rewrite(TupleToUserset, Find(relations, relation), Find(relations, tupleset), [])
    case Combination(op, operands) =>
      Rewrite(OpOf(op), NO_RELATION, NO_RELATION, TranslateAll(operands, relations))
  }

  function TranslateAll(es: seq<Expr>, relations: Ids): (rws: seq<Rewrite>)
    ensures |rws| == |es| && forall i :: 0 <= i < |es| ==> rws[i] == Translate(es[i], relations)
  {
    if es == [] then [] else [Translate(es[0], relations)] + TranslateAll(es[1..], relations)
  }

  function TranslateKind(k: Kind, ids: NameIds): SubjectType {
    if k.wildcard then WildcardType(Find(ids.types, k.typ))
    else if k.relation != "" then UsersetType(Find(ids.types, k.typ), Find(ids.relations, k.relation))
    else DirectType(Find(ids.types, k.typ))
  }

  function TranslateKinds(kinds: seq<Kind>, ids: NameIds): seq<SubjectType> {
    seq(|kinds|, i requires 0 <= i < |kinds| => TranslateKind(kinds[i], ids))
  }

  /** What of a permission is left for Build to refuse: references that do not resolve. */
  ghost predicate ReferencesOk(d: Defs, ref: RelationRef, e: Expr, relations: Ids) {
    match e
    case Ref(name) => d.Defined(RelationRef(ref.typ, Find(relations, name)))
    case Arrow(_, _) => ArrowOk(d, ref, Translate(e, relations))
    case Combination(_, operands) => forall o :: o in operands ==> ReferencesOk(d, ref, o, relations)
  }

  /** Every expression the parser builds has the arities Build asks for: with its names interned, only a reference can be wrong. */
  lemma {:induction false} ArityIsRight(d: Defs, ref: RelationRef, e: Expr, relations: Ids)
    requires Shaped(e) && IdsOk(relations) && forall n :: n in NamesOf(e) ==> n in relations
    ensures ShapeOk(d, ref, Translate(e, relations), false) <==> ReferencesOk(d, ref, e, relations)
  {
    if e.Combination? {
      var rw := Translate(e, relations);
      forall i | 0 <= i < |e.operands| ensures ShapeOk(d, ref, rw.children[i], false) <==> ReferencesOk(d, ref, e.operands[i], relations) {
        assert e.operands[i] in e.operands;
        forall n | n in NamesOf(e.operands[i]) ensures n in NamesOf(e) {}
        ArityIsRight(d, ref, e.operands[i], relations);
      }
      if forall o :: o in e.operands ==> ReferencesOk(d, ref, o, relations) {
        forall i | 0 <= i < |rw.children| ensures ShapeOk(d, ref, rw.children[i], false) { assert e.operands[i] in e.operands; }
      }
    }
  }

  // ---- Building ----

  /** What a builder has collected, and whether anything was defined twice. */
  datatype Collected = Collected(d: Defs, twice: bool)

  function AddMember(c: Collected, ref: RelationRef, m: Member, ids: NameIds): Collected {
    if ref in c.d.rewrites then c.(twice := true)
    else
      match m
      case Relation(_, types) =>
        c.(d := Defs(c.d.rewrites[ref := ThisRewrite()], c.d.allowed[ref := TranslateKinds(types, ids)]))
      case Permission(_, expr) => c.(d := c.d.(rewrites := c.d.rewrites[ref := Translate(expr, ids.relations)]))
  }

  function RefOf(typ: string, m: Member, ids: NameIds): RelationRef { RelationRef(Find(ids.types, typ), Find(ids.relations, m.name)) }

  function AddMembers(c: Collected, typ: string, ms: seq<Member>, ids: NameIds): Collected {
    if ms == [] then c
    else
      var last := ms[|ms| - 1];
      AddMember(AddMembers(c, typ, ms[..|ms| - 1], ids), RefOf(typ, last, ids), last, ids)
  }

  function AddDefinitions(defs: seq<Definition>, ids: NameIds): Collected {
    if defs == [] then Collected(Defs(map[], map[]), false)
    else
      var last := defs[|defs| - 1];
      AddMembers(AddDefinitions(defs[..|defs| - 1], ids), last.name, last.members, ids)
  }

  /** Every name defs gives is known. */
  ghost predicate Interned(defs: seq<Definition>, ids: NameIds) {
    && (forall typ :: Defines(defs, typ) ==> typ in ids.types)
    && (forall name :: Declares(defs, name) ==> name in ids.relations)
  }

  /** d is what defs say, with the ids of names. */
  ghost predicate Means(defs: seq<Definition>, ids: NameIds, d: Defs) {
    Checked(defs) && Interned(defs, ids) && AddDefinitions(defs, ids) == Collected(d, false)
  }

  // ---- check ----

  /** The first definitions have good names, all different. */
  ghost predicate NamedSoFar(defs: seq<Definition>, n: nat)
    requires n <= |defs|
  {
    && (forall j :: 0 <= j < n ==> Names.IsType(defs[j].name) && MembersNamed(defs[j]))
    && forall j, k :: 0 <= j < k < n ==> defs[j].name != defs[k].name
  }

  method CheckNames(defs: seq<Definition>) returns (ok: bool)
    ensures ok <==> Checked(defs)
  {
    hide Names.IsType, MembersNamed, MembersResolve, Defines, Declares;
    var named, types, declared := CheckDeclarations(defs);
    ok := named;
    for i := 0 to |defs|
      invariant ok <==> named && forall j :: 0 <= j < i ==> MembersResolve(defs, defs[j])
    {
      var resolved := CheckReferences(defs, defs[i], types, declared);
      ok := ok && resolved;
    }
  }

  method CheckDeclarations(defs: seq<Definition>) returns (ok: bool, types: set<string>, declared: set<string>)
    ensures ok <==> NamedSoFar(defs, |defs|)
    ensures forall n :: n in types <==> Defines(defs, n)
    ensures forall n :: n in declared <==> Declares(defs, n)
  {
    hide Names.IsType, MembersNamed, Holds;
    ok, types, declared := true, {}, {};
    for i := 0 to |defs|
      invariant forall n :: n in types <==> Defines(defs[..i], n)
      invariant forall n :: n in declared <==> Declares(defs[..i], n)
      invariant ok <==> NamedSoFar(defs, i)
    {
      var d := defs[i];
      DefinesMore(defs, i);
      DefinedBefore(defs, i, d.name);
      hide Defines, Declares;
      var named, here := CheckMembers(d);
      ok := ok && Names.IsType(d.name) && d.name !in types && named;
      types := types + {d.name};
      declared := declared + here;
    }
    assert defs[..|defs|] == defs;
  }

  lemma DefinedBefore(defs: seq<Definition>, i: nat, name: string)
    requires i <= |defs|
    ensures Defines(defs[..i], name) <==> exists j :: 0 <= j < i && defs[j].name == name
  {
  }

  lemma DefinesMore(defs: seq<Definition>, i: nat)
    requires i < |defs|
    ensures forall n :: Defines(defs[..i + 1], n) <==> Defines(defs[..i], n) || n == defs[i].name
    ensures forall n :: Declares(defs[..i + 1], n) <==> Declares(defs[..i], n) || Holds(defs[i], n)
  {
    hide Holds;
    var less, more := defs[..i], defs[..i + 1];
    assert more == less + [defs[i]];
    forall n ensures Defines(more, n) <==> Defines(less, n) || n == defs[i].name {
      if Defines(less, n) { var j :| 0 <= j < |less| && less[j].name == n; assert more[j].name == n; }
      if n == defs[i].name { assert more[i].name == n; }
      if Defines(more, n) { var j :| 0 <= j < |more| && more[j].name == n; assert j < i ==> less[j].name == n; }
    }
    forall n ensures Declares(more, n) <==> Declares(less, n) || Holds(defs[i], n) {
      if Declares(less, n) { var j :| 0 <= j < |less| && Holds(less[j], n); assert Holds(more[j], n); }
      if Holds(defs[i], n) { assert Holds(more[i], n); }
      if Declares(more, n) { var j :| 0 <= j < |more| && Holds(more[j], n); assert j < i ==> Holds(less[j], n); }
    }
  }

  method CheckMembers(d: Definition) returns (ok: bool, declared: set<string>)
    ensures ok <==> MembersNamed(d)
    ensures forall n :: n in declared <==> Holds(d, n)
  {
    hide Names.IsRelation;
    ok, declared := true, {};
    for i := 0 to |d.members|
      invariant ok <==> forall j :: 0 <= j < i ==> Names.IsRelation(d.members[j].name)
      invariant forall n :: n in declared <==> exists j :: 0 <= j < i && d.members[j].name == n
    {
      ok := ok && Names.IsRelation(d.members[i].name);
      declared := declared + {d.members[i].name};
    }
  }

  method CheckReferences(ghost defs: seq<Definition>, d: Definition, types: set<string>, declared: set<string>) returns (ok: bool)
    requires forall n :: n in types <==> Defines(defs, n)
    requires forall n :: n in declared <==> Declares(defs, n)
    ensures ok <==> MembersResolve(defs, d)
  {
    hide Defines, Declares, NamesOf;
    ok := true;
    for i := 0 to |d.members|
      invariant ok <==> forall j :: 0 <= j < i ==> Resolves(defs, d.members[j])
    {
      var resolves := match d.members[i]
        case Relation(_, kinds) =>
          forall k | k in kinds :: k.typ in types && (k.relation != "" ==> k.relation in declared)
        case Permission(_, expr) => NamesOf(expr) <= declared;
      assert resolves <==> Resolves(defs, d.members[i]);
      ok := ok && resolves;
    }
  }

  // ---- build ----

  method InternNames(defs: seq<Definition>, dict: Dictionary) returns (ok: bool)
    requires dict.Valid() && Checked(defs)
    modifies dict.types, dict.relations
    ensures dict.Valid() && Grew(old(dict.Known()), dict.Known())
    ensures if ok then Interned(defs, dict.Known()) else dict.Full()
  {
    hide Holds, Dictionary.Valid;
    for i := 0 to |defs|
      invariant dict.Valid() && Grew(old(dict.Known()), dict.Known())
      invariant Interned(defs[..i], dict.Known())
    {
      assert Names.IsType(defs[i].name) && MembersNamed(defs[i]);
      var id: nat;
      ok, id := dict.InternType(defs[i].name);
      if !ok { return; }
      ok := InternMembers(defs[i], dict);
      if !ok { return; }
      DefinesMore(defs, i);
    }
    assert defs[..|defs|] == defs;
    return true;
  }

  method InternMembers(d: Definition, dict: Dictionary) returns (ok: bool)
    requires dict.Valid() && MembersNamed(d)
    modifies dict.relations
    ensures dict.Valid() && Grew(old(dict.Known()), dict.Known())
    ensures if ok then forall n :: Holds(d, n) ==> n in dict.Known().relations else dict.Full()
  {
    for i := 0 to |d.members|
      invariant dict.Valid() && Grew(old(dict.Known()), dict.Known())
      invariant forall j :: 0 <= j < i ==> d.members[j].name in dict.Known().relations
    {
      var id: nat;
      ok, id := dict.InternRelation(d.members[i].name);
      if !ok { return; }
    }
    return true;
  }

  /** Hands defs to a builder, definition by definition and member by member. */
  method FillBuilder(b: SchemaBuilder, defs: seq<Definition>, dict: Dictionary)
    requires dict.Valid() && b.Valid() && b.Collected() == Defs(map[], map[]) && b.twice == []
    modifies b
    ensures b.Valid() && Collected(b.Collected(), b.twice != []) == AddDefinitions(defs, dict.Known())
  {
    hide Dictionary.Valid;
    for i := 0 to |defs|
      invariant b.Valid() && Collected(b.Collected(), b.twice != []) == AddDefinitions(defs[..i], dict.Known())
    {
      FillMembers(b, defs[i].name, defs[i].members, dict);
      assert defs[..i + 1][..i] == defs[..i];
    }
    assert defs[..|defs|] == defs;
  }

  method FillMembers(b: SchemaBuilder, typ: string, members: seq<Member>, dict: Dictionary)
    requires dict.Valid() && b.Valid()
    modifies b
    ensures b.Valid()
    ensures Collected(b.Collected(), b.twice != []) ==
            AddMembers(Collected(old(b.Collected()), old(b.twice) != []), typ, members, dict.Known())
  {
    hide Dictionary.Valid, Translate;
    ghost var start := Collected(b.Collected(), b.twice != []);
    for i := 0 to |members|
      invariant b.Valid()
      invariant Collected(b.Collected(), b.twice != []) == AddMembers(start, typ, members[..i], dict.Known())
    {
      var m, ids := members[i], dict.Known();
      var r := RefOf(typ, m, ids);
      match m {
        case Relation(_, types) => b.Relation(r, TranslateKinds(types, ids));
        case Permission(_, expr) => b.Permission(r, Translate(expr, ids.relations));
      }
      assert members[..i + 1][..i] == members[..i];
    }
    assert members[..|members|] == members;
  }

  /** Build has something against what was collected. */
  ghost predicate Refused(c: Collected) { c.twice || !Accepts(c.d) }

  /** The definitions break a naming rule, or Build has something against them. */
  ghost predicate Unfit(defs: seq<Definition>, ids: NameIds) { !Checked(defs) || Refused(AddDefinitions(defs, ids)) }

  /** Builds the schema defs mean, with their names interned in dict, or nothing where a check or Build refuses them
      or an id space is full. */
  method Compile(defs: seq<Definition>, dict: Dictionary) returns (s: Option<BuiltSchema>)
    requires dict.Valid()
    modifies dict.types, dict.relations
    ensures dict.Valid() && Grew(old(dict.Known()), dict.Known())
    ensures s.Some? ==> Means(defs, dict.Known(), s.value.d) && Accepts(s.value.d)
    ensures s.None? ==> dict.Full() || Unfit(defs, dict.Known())
    ensures s.Some? ==> !Unfit(defs, dict.Known())
    ensures s.None? && Checked(defs) && !dict.Full() ==> Interned(defs, dict.Known())
  {
    hide Checked, Interned, AddDefinitions, Accepts, Dictionary.Valid;
    var ok := CheckNames(defs);
    if !ok { return None; }
    ok := InternNames(defs, dict);
    if !ok { return None; }
    var b := new SchemaBuilder();
    FillBuilder(b, defs, dict);
    s := b.Build();
  }

  // ---- What was collected ----

  /** d holds m's definition under ref. */
  ghost predicate Collects(d: Defs, ref: RelationRef, m: Member, ids: NameIds) {
    && ref in d.rewrites
    && match m
       case Relation(_, types) => d.rewrites[ref] == ThisRewrite() && ref in d.allowed && d.allowed[ref] == TranslateKinds(types, ids)
       case Permission(_, expr) => d.rewrites[ref] == Translate(expr, ids.relations)
  }

  /** Accepted lists belong to relations. */
  ghost predicate ListsOk(d: Defs) { forall ref :: ref in d.allowed ==> ref in d.rewrites && d.rewrites[ref] == ThisRewrite() }

  /** Where nothing is defined twice, what was collected stays. */
  ghost predicate Stays(c: Collected, c': Collected) {
    && (ListsOk(c.d) ==> ListsOk(c'.d))
    && (!c'.twice ==>
          && !c.twice
          && (forall ref :: ref in c.d.rewrites ==> ref in c'.d.rewrites && c'.d.rewrites[ref] == c.d.rewrites[ref])
          && (forall ref :: ref in c.d.allowed ==> ref in c'.d.allowed && c'.d.allowed[ref] == c.d.allowed[ref]))
  }

  lemma MemberStays(c: Collected, ref: RelationRef, m: Member, ids: NameIds)
    requires ListsOk(c.d)
    ensures Stays(c, AddMember(c, ref, m, ids))
    ensures !AddMember(c, ref, m, ids).twice ==> Collects(AddMember(c, ref, m, ids).d, ref, m, ids)
  {
    hide Translate, TranslateKinds;
  }

  lemma {:induction false} MembersStay(c: Collected, typ: string, ms: seq<Member>, ids: NameIds)
    requires ListsOk(c.d)
    ensures Stays(c, AddMembers(c, typ, ms, ids))
    ensures !AddMembers(c, typ, ms, ids).twice ==>
      forall m :: m in ms ==> Collects(AddMembers(c, typ, ms, ids).d, RefOf(typ, m, ids), m, ids)
  {
    hide AddMember, Translate, TranslateKinds, RefOf;
    if ms != [] {
      var init, last := ms[..|ms| - 1], ms[|ms| - 1];
      MembersStay(c, typ, init, ids);
      MemberStays(AddMembers(c, typ, init, ids), RefOf(typ, last, ids), last, ids);
    }
  }

  /** Where nothing was defined twice, every member of every definition is held as it was given. */
  lemma {:induction false} EveryMemberCollected(defs: seq<Definition>, ids: NameIds)
    ensures ListsOk(AddDefinitions(defs, ids).d)
    ensures !AddDefinitions(defs, ids).twice ==>
      forall def, m :: def in defs && m in def.members ==> Collects(AddDefinitions(defs, ids).d, RefOf(def.name, m, ids), m, ids)
  {
    hide AddMembers, Translate, TranslateKinds, RefOf;
    if defs != [] {
      var init, last := defs[..|defs| - 1], defs[|defs| - 1];
      EveryMemberCollected(init, ids);
      MembersStay(AddDefinitions(init, ids), last.name, last.members, ids);
    }
  }

  /** Some member of defs, of that kind, is where ref comes from. */
  ghost predicate Given(defs: seq<Definition>, ids: NameIds, ref: RelationRef, lists: bool) {
    exists def :: def in defs && Gives(def, ids, ref, lists)
  }

  ghost predicate Gives(def: Definition, ids: NameIds, ref: RelationRef, lists: bool) {
    exists m :: m in def.members && RefOf(def.name, m, ids) == ref && (lists ==> m.Relation?)
  }

  lemma {:induction false} MembersGiven(c: Collected, typ: string, ms: seq<Member>, ids: NameIds, ref: RelationRef)
    ensures var c' := AddMembers(c, typ, ms, ids);
            && (ref in c'.d.rewrites && ref !in c.d.rewrites ==> exists m :: m in ms && RefOf(typ, m, ids) == ref)
            && (ref in c'.d.allowed && ref !in c.d.allowed ==> exists m :: m in ms && RefOf(typ, m, ids) == ref && m.Relation?)
  {
    hide Translate, TranslateKinds, RefOf;
    if ms != [] {
      var init, last := ms[..|ms| - 1], ms[|ms| - 1];
      MembersGiven(c, typ, init, ids, ref);
      assert last in ms && forall m :: m in init ==> m in ms;
    }
  }

  /** Nothing was collected but what some member gives. */
  lemma {:induction false} EveryRefGiven(defs: seq<Definition>, ids: NameIds, ref: RelationRef)
    ensures ref in AddDefinitions(defs, ids).d.rewrites ==> Given(defs, ids, ref, false)
    ensures ref in AddDefinitions(defs, ids).d.allowed ==> Given(defs, ids, ref, true)
  {
    hide AddMembers, RefOf;
    if defs != [] {
      var init, last := defs[..|defs| - 1], defs[|defs| - 1];
      EveryRefGiven(init, ids, ref);
      MembersGiven(AddDefinitions(init, ids), last.name, last.members, ids, ref);
      assert last in defs && forall def :: def in init ==> def in defs;
    }
  }

  // ---- A dictionary that grows ----

  /** Every name the member gives or refers to is known. */
  ghost predicate MemberKnown(m: Member, ids: NameIds) {
    && m.name in ids.relations
    && match m
       case Relation(_, types) => forall k :: k in types ==> k.typ in ids.types && (k.relation != "" ==> k.relation in ids.relations)
       case Permission(_, expr) => forall n :: n in NamesOf(expr) ==> n in ids.relations
  }

  ghost predicate MembersKnown(ms: seq<Member>, ids: NameIds) { forall i :: 0 <= i < |ms| ==> MemberKnown(ms[i], ids) }

  ghost predicate AllNamesKnown(defs: seq<Definition>, ids: NameIds) {
    forall i :: 0 <= i < |defs| ==> defs[i].name in ids.types && MembersKnown(defs[i].members, ids)
  }

  lemma CheckedIsKnown(defs: seq<Definition>, ids: NameIds)
    requires Checked(defs) && Interned(defs, ids)
    ensures AllNamesKnown(defs, ids)
  {
    hide Names.IsType, Names.IsRelation, NamesOf;
    forall i | 0 <= i < |defs| ensures defs[i].name in ids.types && MembersKnown(defs[i].members, ids) {
      assert defs[i] in defs && Defines(defs, defs[i].name);
      forall j | 0 <= j < |defs[i].members| ensures MemberKnown(defs[i].members[j], ids) {
        var m := defs[i].members[j];
        assert Holds(defs[i], m.name) && Declares(defs, m.name);
        assert m in defs[i].members && Resolves(defs, m);
      }
    }
  }

  lemma {:induction false} TranslateGrows(e: Expr, relations: Ids, later: Ids)
    requires Keeps(relations, later) && forall n :: n in NamesOf(e) ==> n in relations
    ensures Translate(e, later) == Translate(e, relations)
  {
    if e.Combination? {
      forall i | 0 <= i < |e.operands| ensures Translate(e.operands[i], later) == Translate(e.operands[i], relations) {
        forall n | n in NamesOf(e.operands[i]) ensures n in NamesOf(e) {}
        TranslateGrows(e.operands[i], relations, later);
      }
      assert TranslateAll(e.operands, later) == TranslateAll(e.operands, relations);
    }
  }

  lemma {:induction false} MembersGrow(c: Collected, typ: string, ms: seq<Member>, ids: NameIds, later: NameIds)
    requires Grew(ids, later) && typ in ids.types && MembersKnown(ms, ids)
    ensures AddMembers(c, typ, ms, later) == AddMembers(c, typ, ms, ids)
  {
    if ms != [] {
      var init, last := ms[..|ms| - 1], ms[|ms| - 1];
      MembersGrow(c, typ, init, ids, later);
      assert MemberKnown(last, ids);
      if last.Permission? { TranslateGrows(last.expr, ids.relations, later.relations); }
      else { assert TranslateKinds(last.types, later) == TranslateKinds(last.types, ids); }
    }
  }

  lemma {:induction false} DefinitionsGrow(defs: seq<Definition>, ids: NameIds, later: NameIds)
    requires Grew(ids, later) && AllNamesKnown(defs, ids)
    ensures AddDefinitions(defs, later) == AddDefinitions(defs, ids)
  {
    if defs != [] {
      var init, last := defs[..|defs| - 1], defs[|defs| - 1];
      DefinitionsGrow(init, ids, later);
      MembersGrow(AddDefinitions(init, ids), last.name, last.members, ids, later);
    }
  }

  /** A built schema goes on meaning its source however many names are added after. */
  lemma MeansGrows(defs: seq<Definition>, ids: NameIds, later: NameIds, d: Defs)
    requires Means(defs, ids, d) && Grew(ids, later)
    ensures Means(defs, later, d)
  {
    CheckedIsKnown(defs, ids);
    DefinitionsGrow(defs, ids, later);
    hide Checked, Defines, Declares, AddDefinitions;
  }
}
