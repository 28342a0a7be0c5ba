/** Interning: strings to ids and back. Ids start at one, and none is ever the one that stands for the unknown. */
module Dictionaries {
  import opened Refs
  import Names

  const MAX_UINT32: nat := 0xFFFF_FFFF

  /** The id every unseen name looks up to; Intern never hands it out. */
  const UNKNOWN_OBJECT: ObjectId := MAX_UINT32

  /** The highest id handed out. */
  const DEFAULT_LIMIT: nat := MAX_UINT32 - 1

  /** The ids of one table, by name. */
  type Ids = map<string, nat>

  /** Each name has an id of its own, neither zero nor above the limit. */
  ghost predicate IdsOk(ids: Ids) {
    && "" !in ids
    && (forall s :: s in ids ==> 0 < ids[s] <= DEFAULT_LIMIT)
    && (forall s, t :: s in ids && t in ids && ids[s] == ids[t] ==> s == t)
  }

  function Find(ids: Ids, s: string): nat { if s in ids then ids[s] else 0 }

  /** later keeps every id of earlier. */
  ghost predicate Keeps(earlier: Ids, later: Ids) { forall s :: s in earlier ==> s in later && later[s] == earlier[s] }

  class Table {
    var ids: Ids
    var names: seq<string>   // Slot 0 holds no name, so ids start at 1.

    ghost predicate Valid() reads this {
      && 1 <= |names| <= DEFAULT_LIMIT + 1 && names[0] == "" && "" !in ids
      && (forall i :: 1 <= i < |names| ==> names[i] in ids && ids[names[i]] == i)
      && (forall s :: s in ids ==> 1 <= ids[s] < |names| && names[ids[s]] == s)
    }

    constructor ()
      ensures ids == map[] && names == [""] && Valid()
    {
      ids, names := map[], [""];
    }

    /** s would need an id, and none up to limit is left. */
    ghost predicate Refuses(s: string, limit: nat) reads this { s != "" && s !in ids && |names| > limit }

    /** The id of s, given out now if s is new; it fails only where the table is full. */
    method Intern(s: string, limit: nat) returns (ok: bool, id: nat)
      requires Valid() && limit <= DEFAULT_LIMIT
      modifies this
      ensures Valid() && Keeps(old(ids), ids)
      ensures ok ==> id == Find(ids, s) && ids.Keys == old(ids).Keys + if s == "" then {} else {s}
      ensures !ok ==> ids == old(ids) && Refuses(s, limit)
    {
      if s == "" { return true, 0; }
      if s in ids { return true, ids[s]; }
      var next := |names|;
      if next > limit || next > MAX_UINT32 { return false, 0; }
      names := names + [s];
      ids := ids[s := next];
      return true, next;
    }

    /** The id Intern gave s, or Unknown. */
    function Lookup(s: string): (id: nat)
      reads this
      requires Valid()
      ensures id != 0 <==> s in ids
      ensures id != UNKNOWN_OBJECT
    {
      Find(ids, s)
    }

    /** Names and ids undo each other. */
    function NameOf(id: nat): (r: Option<string>)
      reads this
      requires Valid()
      ensures r.Some? ==> Lookup(r.value) == id != 0
      ensures r.None? ==> forall s :: s in ids ==> ids[s] != id
    {
      if id == 0 || id >= |names| then None else Some(names[id])
    }
  }

  // ---- Three tables ----

  /** What a dictionary knows. */
  datatype NameIds = NameIds(types: Ids, relations: Ids, objects: Ids) {
    ghost predicate Ok() { IdsOk(types) && IdsOk(relations) && IdsOk(objects) }

    /** Zero stands in for every name not known. */
    function Object(typ: string, id: string): ObjectRef { ObjectRef(Find(types, typ), Find(objects, id)) }

    function Subject(typ: string, id: string, relation: string): SubjectRef {
      var wildcard := id == Names.WILDCARD_MARKER;
      SubjectRef(Find(types, typ), if wildcard then 0 else Find(objects, id),
                 if relation == "" then NO_RELATION else Find(relations, relation), wildcard)
    }
  }

  ghost predicate Grew(earlier: NameIds, later: NameIds) {
    Keeps(earlier.types, later.types) && Keeps(earlier.relations, later.relations) && Keeps(earlier.objects, later.objects)
  }

  /** later keeps what earlier knows, and knows beyond it none but the names given. */
  ghost predicate Learned(earlier: NameIds, later: NameIds, types: set<string>, relations: set<string>, objects: set<string>) {
    && Grew(earlier, later)
    && later.types.Keys <= earlier.types.Keys + types
    && later.relations.Keys <= earlier.relations.Keys + relations
    && later.objects.Keys <= earlier.objects.Keys + objects
  }

  /** Learning some of the names and then some more. */
  lemma LearnedOn(a: NameIds, b: NameIds, c: NameIds, types: set<string>, relations: set<string>, objects: set<string>,
                  types': set<string>, relations': set<string>, objects': set<string>)
    requires a == b || Learned(a, b, types, relations, objects)
    requires Learned(b, c, types', relations', objects') && types' <= types && relations' <= relations && objects' <= objects
    ensures Learned(a, c, types, relations, objects) && Grew(b, c)
  {
  }

  class Dictionary {
    const limit: nat
    const types: Table
    const relations: Table
    const objects: Table

    ghost predicate Valid() reads this, types, relations, objects {
      && limit <= DEFAULT_LIMIT
      && types != relations && types != objects && relations != objects
      && types.Valid() && relations.Valid() && objects.Valid()
    }

    function Known(): NameIds reads this, types, relations, objects { NameIds(types.ids, relations.ids, objects.ids) }

    constructor (limit: nat)
      requires limit <= DEFAULT_LIMIT
      ensures Valid() && this.limit == limit && Known() == NameIds(map[], map[], map[])
      ensures fresh(types) && fresh(relations) && fresh(objects)
    {
      this.limit := limit;
      types := new Table();
      relations := new Table();
      objects := new Table();
    }

    /** Some table has no id left. */
    ghost predicate Full() reads this, types, relations, objects {
      |types.names| > limit || |relations.names| > limit || |objects.names| > limit
    }

    lemma KnownOk()
      requires Valid()
      ensures Known().Ok()
    {
    }

    method InternType(name: string) returns (ok: bool, id: TypeId)
      requires Valid()
      modifies types
      ensures Valid() && Learned(old(Known()), Known(), {name}, {}, {}) && (ok <==> !types.Refuses(name, limit))
      ensures ok ==> id == Find(types.ids, name) && (name != "" ==> name in types.ids)
    {
      ok, id := types.Intern(name, limit);
    }

    method InternRelation(name: string) returns (ok: bool, id: RelationId)
      requires Valid()
      modifies relations
      ensures Valid() && Learned(old(Known()), Known(), {}, {name}, {}) && (ok <==> !relations.Refuses(name, limit))
      ensures ok ==> id == Find(relations.ids, name) && (name != "" ==> name in relations.ids)
    {
      ok, id := relations.Intern(name, limit);
    }

    /** Resolves a resource, adding what was not known. */
    method InternObjectRef(typ: string, id: string) returns (ok: bool, obj: ObjectRef)
      requires Valid()
      modifies types, objects
      ensures Valid() && Learned(old(Known()), Known(), {typ}, {}, {id})
      ensures ok <==> !types.Refuses(typ, limit) && !objects.Refuses(id, limit)
      ensures ok ==> obj == Known().Object(typ, id) && (typ != "" ==> typ in types.ids) && (id != "" ==> id in objects.ids)
    {
      var t, o: nat;
      obj := ObjectRef(0, 0);
      ok, t := types.Intern(typ, limit);
      if !ok { return; }
      ok, o := objects.Intern(id, limit);
      if !ok { return; }
      return true, ObjectRef(t, o);
    }

    /** Resolves a subject, adding what was not known; the marker yields the type's wildcard. */
    method InternSubjectRef(typ: string, id: string, relation: string) returns (ok: bool, s: SubjectRef)
      requires Valid()
      modifies types, objects, relations
      ensures Valid() && Learned(old(Known()), Known(), {typ}, {relation}, {id} - {Names.WILDCARD_MARKER})
      ensures ok <==> !types.Refuses(typ, limit) && !relations.Refuses(relation, limit)
                      && (id == Names.WILDCARD_MARKER || !objects.Refuses(id, limit))
      ensures ok ==> s == Known().Subject(typ, id, relation) && (typ != "" ==> typ in types.ids)
      ensures ok ==> (id != "" && id != Names.WILDCARD_MARKER ==> id in objects.ids) && (relation != "" ==> relation in relations.ids)
    {
      var t, o, r: nat;
      s := SubjectRef(0, 0, 0, false);
      ok, t := types.Intern(typ, limit);
      if !ok { return; }
      var wildcard := id == Names.WILDCARD_MARKER;
      o := 0;
      if !wildcard {
        ok, o := objects.Intern(id, limit);
        if !ok { return; }
      }
      r := NO_RELATION;
      if relation != "" {
        ok, r := relations.Intern(relation, limit);
        if !ok { return; }
      }
      return true, SubjectRef(t, o, r, wildcard);
    }

    method LookupObjectRef(typ: string, id: string) returns (obj: ObjectRef)
      requires Valid()
      ensures obj == Known().Object(typ, id)
    {
      obj := ObjectRef(types.Lookup(typ), objects.Lookup(id));
    }

    method LookupSubjectRef(typ: string, id: string, relation: string) returns (s: SubjectRef)
      requires Valid()
      ensures s == Known().Subject(typ, id, relation)
    {
      var o, r := 0, NO_RELATION;
      if id != Names.WILDCARD_MARKER { o := objects.Lookup(id); }
      if relation != "" { r := relations.Lookup(relation); }
      s := SubjectRef(types.Lookup(typ), o, r, id == Names.WILDCARD_MARKER);
    }
  }
}
