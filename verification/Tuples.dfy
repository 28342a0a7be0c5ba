/** What the store keeps, in strings: tuples, filters and schemas, and the checks that tie them together. */
module Tuples {
  import opened Names

  /** One relationship, in strings. */
  datatype Tuple = Tuple(resourceType: string, resourceID: string, relation: string,
                         subjectType: string, subjectID: string, subjectRelation: string)
  {
    predicate Valid() {
      IsObject(resourceType, resourceID) && IsRelation(relation) && IsSubject(subjectType, subjectID, subjectRelation)
    }

    /** The text the tuple locks hash. */
    function Format(): string {
      Join(resourceType, ':', Join(resourceID, '#', Join(relation, '@', Join(subjectType, ':', Tail()))))
    }

    function Tail(): string {
      if subjectRelation == "" then subjectID else Join(subjectID, '#', subjectRelation)
    }
  }

  lemma NoSeparator(s: string, c: char)
    requires c in ":#@"
    ensures IsObjectID(s) || s == WILDCARD_MARKER ==> c !in s
    ensures IsType(s) ==> c !in s
  {
  }

  /** No two valid tuples format alike. */
  lemma FormatInjective(t: Tuple, u: Tuple)
    requires t.Valid() && u.Valid() && t.Format() == u.Format()
    ensures t == u
  {
    hide IsDSLName, IsObjectID;
    NoSeparator(t.resourceType, ':'); NoSeparator(u.resourceType, ':');
    NoSeparator(t.resourceID, '#'); NoSeparator(u.resourceID, '#');
    NoSeparator(t.relation, '@'); NoSeparator(u.relation, '@');
    NoSeparator(t.subjectType, ':'); NoSeparator(u.subjectType, ':');
    var t1, u1 := Join(t.relation, '@', Join(t.subjectType, ':', t.Tail())), Join(u.relation, '@', Join(u.subjectType, ':', u.Tail()));
    JoinUnique(t.resourceType, Join(t.resourceID, '#', t1), ':', u.resourceType, Join(u.resourceID, '#', u1));
    JoinUnique(t.resourceID, t1, '#', u.resourceID, u1);
    JoinUnique(t.relation, Join(t.subjectType, ':', t.Tail()), '@', u.relation, Join(u.subjectType, ':', u.Tail()));
    JoinUnique(t.subjectType, t.Tail(), ':', u.subjectType, u.Tail());
    TailInjective(t, u);
  }

  lemma TailInjective(t: Tuple, u: Tuple)
    requires t.Valid() && u.Valid() && t.Tail() == u.Tail()
    ensures t.subjectID == u.subjectID && t.subjectRelation == u.subjectRelation
    decreases u.subjectRelation != "" && t.subjectRelation == ""
  {
    hide IsDSLName, IsObjectID;
    NoSeparator(t.subjectID, '#'); NoSeparator(u.subjectID, '#');
    if t.subjectRelation != "" {
      assert t.Tail()[|t.subjectID|] == '#';
      if u.subjectRelation != "" { JoinUnique(t.subjectID, t.subjectRelation, '#', u.subjectID, u.subjectRelation); }
    } else if u.subjectRelation != "" {
      TailInjective(u, t);
    }
  }

  // ---- Updates and filters ----

  datatype Op = Touch | Delete | Unknown(code: nat)
  datatype Update = Update(op: Op, tuple: Tuple)

  /** Which tuples a delete or a dropped-data check looks for. */
  datatype Filter = Filter(resourceType: string, relation: string, subjectType: string, subjectRelation: string, wildcard: bool)
  {
    /** Its names are well-formed, and what it says of subjects is a single kind. */
    predicate Valid() {
      && IsType(resourceType) && IsRelation(relation)
      && if subjectType == "" then subjectRelation == "" && !wildcard
         else if subjectRelation == "" then IsType(subjectType)
         else !wildcard && IsType(subjectType) && IsRelation(subjectRelation)
    }

    /** The condition the filter puts on tuples. */
    predicate Matches(t: Tuple) {
      && t.resourceType == resourceType && t.relation == relation
      && (subjectType != "" ==>
            && t.subjectType == subjectType && t.subjectRelation == subjectRelation
            && (wildcard <==> t.subjectID == WILDCARD_MARKER))
    }
  }

  // ---- Schemas as the store checks them ----

  /** A relation or permission, by name. */
  datatype Member = Member(typ: string, relation: string)

  /** A kind of subject by name; relation is "" for plain objects and the wildcard. */
  datatype Kind = Kind(typ: string, relation: string, wildcard: bool)

  /** A schema's text, with the relations that store tuples, each with its kinds, and the permissions, which store none. */
  datatype NamedSchema = NamedSchema(source: string, accepted: map<Member, seq<Kind>>, permissions: set<Member>)
  {
    /** No relation is also a permission, and every accepted kind has a type. */
    predicate WellFormed() {
      && (forall m :: m in accepted ==> m !in permissions)
      && (forall m, k :: m in accepted && k in accepted[m] ==> k.typ != "")
    }

    predicate Allows(m: Member, k: Kind) { m in accepted && k in accepted[m] }

    /** The schema lets a tuple like t be stored. */
    predicate Accepts(t: Tuple) { Allows(Member(t.resourceType, t.relation), KindOf(t)) }
  }

  function KindOf(t: Tuple): Kind { Kind(t.subjectType, t.subjectRelation, t.subjectID == WILDCARD_MARKER) }

  predicate AllAccepted(schema: NamedSchema, tuples: set<Tuple>) { forall t :: t in tuples ==> schema.Accepts(t) }

  datatype Verdict = Fine | Undefined | IsPermission | NotAccepted | BadNames | UnknownOp | Repeats(first: nat)

  /** The refusal f meets, if it meets one. */
  function CheckFilter(schema: NamedSchema, f: Filter): (v: Verdict) {
    var m := Member(f.resourceType, f.relation);
    if m !in schema.accepted && m !in schema.permissions then Undefined
    else if m !in schema.accepted then IsPermission
    else if f.subjectType == "" then Fine
    else if !schema.Allows(m, Kind(f.subjectType, f.subjectRelation, f.wildcard)) then NotAccepted
    else Fine
  }

  /** Why schema refuses u, taken alone. */
  function CheckUpdate(schema: NamedSchema, u: Update): Verdict {
    var t := u.tuple;
    if !u.op.Touch? && !u.op.Delete? then UnknownOp
    else if !t.Valid() then BadNames
    else CheckFilter(schema, Filter(t.resourceType, t.relation, t.subjectType, t.subjectRelation, t.subjectID == WILDCARD_MARKER))
  }

  /** What a write must be for schema to take it: known operations on valid, accepted, distinct tuples. */
  ghost predicate Acceptable(schema: NamedSchema, updates: seq<Update>) {
    && (forall i :: 0 <= i < |updates| ==> Sound(schema, updates[i]))
    && (forall i, j :: 0 <= i < j < |updates| ==> updates[i].tuple != updates[j].tuple)
  }

  predicate Sound(schema: NamedSchema, u: Update) { !u.op.Unknown? && u.tuple.Valid() && schema.Accepts(u.tuple) }

  lemma CheckedUpdateIsSound(schema: NamedSchema, u: Update)
    ensures CheckUpdate(schema, u).Fine? <==> Sound(schema, u)
  {
  }

  lemma RefusalIs(schema: NamedSchema, u: Update)
    ensures var v := CheckUpdate(schema, u);
            match v
            case Fine => true
            case Repeats(_) => false
            case UnknownOp => u.op != Touch && u.op != Delete
            case BadNames => !u.tuple.Valid()
            case _ => !schema.Accepts(u.tuple)
  {
  }

  /** Touching and deleting are both operations: all an update is asked is a valid tuple of a kind the schema accepts. */
  lemma AcceptableIs(schema: NamedSchema, updates: seq<Update>)
    ensures Acceptable(schema, updates) <==>
            && (forall u :: u in updates ==> (u.op == Touch || u.op == Delete) && u.tuple.Valid() && schema.Accepts(u.tuple))
            && (forall i, j :: 0 <= i < j < |updates| ==> updates[i].tuple != updates[j].tuple)
  {
    hide Tuple.Valid, NamedSchema.Accepts;
    if Acceptable(schema, updates) {
      forall u | u in updates ensures Sound(schema, u) { var i :| 0 <= i < |updates| && updates[i] == u; }
    }
  }

  /** What v says is wrong is wrong of updates. */
  ghost predicate Blames(schema: NamedSchema, updates: seq<Update>, v: Verdict) {
    match v
    case Fine => true
    case Repeats(first) => exists i :: first < i < |updates| && updates[i].tuple == updates[first].tuple
    case UnknownOp => exists u :: u in updates && u.op != Touch && u.op != Delete
    case BadNames => exists u :: u in updates && !u.tuple.Valid()
    case _ => exists u :: u in updates && !schema.Accepts(u.tuple)
  }

  /** Why schema refuses updates: the first that is refused, or that repeats an earlier one. */
  method CheckUpdates(schema: NamedSchema, updates: seq<Update>) returns (v: Verdict)
    ensures v.Fine? <==> Acceptable(schema, updates)
    ensures Blames(schema, updates, v)
  {
    hide CheckUpdate, Sound, Tuple.Valid, NamedSchema.Accepts;
    var seen: map<Tuple, nat> := map[];
    for i := 0 to |updates|
      invariant forall j :: 0 <= j < i ==> Sound(schema, updates[j])
      invariant forall j, k :: 0 <= j < k < i ==> updates[j].tuple != updates[k].tuple
      invariant forall j :: 0 <= j < i ==> updates[j].tuple in seen
      invariant forall t :: t in seen ==> seen[t] < i && updates[seen[t]].tuple == t
    {
      CheckedUpdateIsSound(schema, updates[i]);
      var why := CheckUpdate(schema, updates[i]);
      if !why.Fine? {
        RefusalIs(schema, updates[i]);
        return why;
      }
      if updates[i].tuple in seen { return Repeats(seen[updates[i].tuple]); }
      seen := seen[updates[i].tuple := i];
    }
    return Fine;
  }

  // ---- What a new schema drops ----

  ghost predicate SomeMatches(filters: seq<Filter>, t: Tuple) { exists i :: 0 <= i < |filters| && filters[i].Matches(t) }

  /** filters match, among the tuples prev accepts, exactly those next refuses. */
  ghost predicate Covers(prev: NamedSchema, next: NamedSchema, filters: seq<Filter>) {
    forall t :: prev.Accepts(t) ==> (SomeMatches(filters, t) <==> !next.Accepts(t))
  }

  /** Names in a filter that matches one kind of subject of m, or all of them. */
  function WholeFilter(m: Member): Filter { Filter(m.typ, m.relation, "", "", false) }
  function KindFilter(m: Member, k: Kind): Filter { Filter(m.typ, m.relation, k.typ, k.relation, k.wildcard) }

  /** The filters for what next drops of member m. */
  ghost predicate DroppedFor(next: NamedSchema, m: Member, kinds: seq<Kind>, f: Filter) {
    if m !in next.accepted then f == WholeFilter(m)
    else exists i :: 0 <= i < |kinds| && !next.Allows(m, kinds[i]) && f == KindFilter(m, kinds[i])
  }

  /** What a schema change must find no tuples for: together the filters match exactly the tuples prev accepts
      and next refuses. */
  method Dropped(prev: NamedSchema, next: NamedSchema) returns (out: seq<Filter>)
    requires prev.WellFormed()
    ensures Covers(prev, next, out)
  {
    out := [];
    var members := prev.accepted.Keys;
    while members != {}
      invariant members <= prev.accepted.Keys
      invariant forall f :: f in out <==> DroppedAmong(prev, next, prev.accepted.Keys - members, f)
    {
      var m :| m in members;
      members := members - {m};
      ghost var before := out;
      if m !in next.accepted {
        out := out + [WholeFilter(m)];
      } else {
        var kinds := prev.accepted[m];
        for i := 0 to |kinds|
          invariant forall f :: f in out <==> f in before || DroppedFor(next, m, kinds[..i], f)
        {
          DroppedStep(next, m, kinds, i);
          if !next.Allows(m, kinds[i]) { out := out + [KindFilter(m, kinds[i])]; }
        }
        assert kinds[..|kinds|] == kinds;
      }
    }
    DroppedCovers(prev, next, out);
  }

  /** A filter that names a relation whole is sound where the relation is, and one kind where the kind is besides. */
  lemma FiltersTaken(schema: NamedSchema, m: Member, k: Kind)
    requires m in schema.accepted && IsType(m.typ) && IsRelation(m.relation)
    ensures WholeFilter(m).Valid() && CheckFilter(schema, WholeFilter(m)).Fine?
    ensures k in schema.accepted[m] && IsType(k.typ) && (k.relation == "" || (IsRelation(k.relation) && !k.wildcard)) ==>
              KindFilter(m, k).Valid() && CheckFilter(schema, KindFilter(m, k)).Fine?
  {
  }

  /** The whole filter takes every tuple of the relation, a kind's filter those of that kind. */
  lemma FiltersMatch(m: Member, k: Kind, t: Tuple)
    requires k.typ != ""
    ensures WholeFilter(m).Matches(t) <==> Member(t.resourceType, t.relation) == m
    ensures KindFilter(m, k).Matches(t) <==> Member(t.resourceType, t.relation) == m && KindOf(t) == k
  {
  }

  lemma DroppedStep(next: NamedSchema, m: Member, kinds: seq<Kind>, i: nat)
    requires m in next.accepted && i < |kinds|
    ensures forall f :: DroppedFor(next, m, kinds[..i + 1], f) <==>
                          DroppedFor(next, m, kinds[..i], f) || (!next.Allows(m, kinds[i]) && f == KindFilter(m, kinds[i]))
  {
    assert kinds[..i + 1] == kinds[..i] + [kinds[i]];
    forall f ensures DroppedFor(next, m, kinds[..i + 1], f) <==>
                       DroppedFor(next, m, kinds[..i], f) || (!next.Allows(m, kinds[i]) && f == KindFilter(m, kinds[i])) {
      if DroppedFor(next, m, kinds[..i], f) {
        var j :| 0 <= j < i && !next.Allows(m, kinds[j]) && f == KindFilter(m, kinds[j]);
        assert kinds[..i + 1][j] == kinds[j];
      }
      if !next.Allows(m, kinds[i]) && f == KindFilter(m, kinds[i]) { assert kinds[..i + 1][i] == kinds[i]; }
    }
  }

  ghost predicate DroppedAmong(prev: NamedSchema, next: NamedSchema, members: set<Member>, f: Filter)
    requires members <= prev.accepted.Keys
  {
    exists m :: m in members && DroppedFor(next, m, prev.accepted[m], f)
  }

  ghost predicate DroppedSomewhere(prev: NamedSchema, next: NamedSchema, f: Filter) {
    exists m :: m in prev.accepted && DroppedFor(next, m, prev.accepted[m], f)
  }

  /** A tuple prev accepts matches a filter exactly where next refuses it. */
  lemma DroppedCovers(prev: NamedSchema, next: NamedSchema, filters: seq<Filter>)
    requires prev.WellFormed() && forall f :: f in filters <==> DroppedSomewhere(prev, next, f)
    ensures Covers(prev, next, filters)
  {
    forall t | prev.Accepts(t) ensures SomeMatches(filters, t) <==> !next.Accepts(t) {
      var m, k := Member(t.resourceType, t.relation), KindOf(t);
      if !next.Accepts(t) {
        var f := if m !in next.accepted then WholeFilter(m) else KindFilter(m, k);
        assert DroppedFor(next, m, prev.accepted[m], f);
        assert DroppedSomewhere(prev, next, f);
        var i :| 0 <= i < |filters| && filters[i] == f;
        assert filters[i].Matches(t);
      }
      if SomeMatches(filters, t) {
        var i :| 0 <= i < |filters| && filters[i].Matches(t);
        assert filters[i] in filters;
        var m' :| m' in prev.accepted && DroppedFor(next, m', prev.accepted[m'], filters[i]);
      }
    }
  }
}
