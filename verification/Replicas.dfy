/** A replica: a tuple set held as sorted lists under ids it gives out itself. */
module Replicas {
  import opened Refs
  import opened Schema
  import opened Builder
  import opened Evaluator
  import opened Dictionaries
  import opened Naming
  import opened Merging
  import opened Entries
  import Grammar
  import Parsing
  import Compile
  import Names
  import Tuples

  /** Opaque to its holder, who returns it to ask what came after. */
  type Revision = string

  /** One line of a change list: the tuple is there afterwards, or it is not. */
  datatype Change = Change(tuple: Tuples.Tuple, present: bool)

  /** Every tuple valid, and each at most once. */
  ghost predicate OneEach(changes: seq<Change>) {
    && (forall c :: c in changes ==> c.tuple.Valid())
    && (forall i, j :: 0 <= i < j < |changes| ==> changes[i].tuple != changes[j].tuple)
  }

  /** The named tuples after a change list. */
  ghost function After(held: set<Tuples.Tuple>, changes: seq<Change>): set<Tuples.Tuple> {
    held - Part(changes, false) + Part(changes, true)
  }

  ghost function Part(changes: seq<Change>, present: bool): set<Tuples.Tuple> {
    set c | c in changes && c.present == present :: c.tuple
  }

  /** The entries hold exactly the ids of the tuples held. */
  ghost predicate Represents(entries: Store, ids: NameIds, held: set<Tuples.Tuple>) {
    && AllKnown(ids, held)
    && forall k, s: SubjectRef :: s.Valid() ==> (Stored(entries, k, s) <==> HeldAs(ids, held, k, s))
  }

  /** All kinds' types over all relations, without regard to wildcard or relation. */
  ghost predicate AcceptedSomewhere(d: Defs, st: SubjectType) {
    exists ref, a :: ref in d.allowed && a in d.allowed[ref] && st == SubjectType(a.typ, a.relation, false)
  }

  // ---- From changes to items ----

  function ItemOf(ids: NameIds, c: Change): Item { Item(KeyOf(ids, c.tuple), SubjectOf(ids, c.tuple), c.present) }

  ghost predicate FromChange(ids: NameIds, changes: seq<Change>, it: Item) {
    exists i :: 0 <= i < |changes| && Naming.Known(ids, changes[i].tuple) && it == ItemOf(ids, changes[i])
  }

  /** items are the changes' ids; a change left out is of a tuple not held. */
  ghost predicate Covers(ids: NameIds, changes: seq<Change>, held: set<Tuples.Tuple>, items: seq<Item>) {
    && (forall it :: it in items ==> FromChange(ids, changes, it))
    && (forall c :: c in changes ==>
          (Naming.Known(ids, c.tuple) && ItemOf(ids, c) in items) || (!c.present && c.tuple !in held))
    && (forall i, j :: 0 <= i < j < |items| ==> items[i] != items[j])
  }

  lemma CoversGrow(ids: NameIds, later: NameIds, changes: seq<Change>, held: set<Tuples.Tuple>, items: seq<Item>)
    requires Grew(ids, later) && Covers(ids, changes, held, items)
    ensures Covers(later, changes, held, items)
  {
  }

  lemma CoversAdd(ids: NameIds, changes: seq<Change>, n: nat, held: set<Tuples.Tuple>, items: seq<Item>)
    requires n < |changes| && ids.Ok() && OneEach(changes) && Covers(ids, changes[..n], held, items)
    requires Naming.Known(ids, changes[n].tuple)
    ensures Covers(ids, changes[..n + 1], held, items + [ItemOf(ids, changes[n])])
  {
    hide NameIds.Ok;
    var it, more := ItemOf(ids, changes[n]), changes[..n + 1];
    assert more == changes[..n] + [changes[n]];
    assert changes[n] in changes;
    forall x | x in items ensures x != it && FromChange(ids, more, x) {
      var i :| 0 <= i < |changes[..n]| && Naming.Known(ids, changes[..n][i].tuple) && x == ItemOf(ids, changes[..n][i]);
      assert changes[i] in changes && more[i] == changes[i];
      TupleInjective(ids, changes[i].tuple, changes[n].tuple);
    }
    assert FromChange(ids, more, it) by { assert more[n] == changes[n]; }
  }

  lemma CoversSkip(ids: NameIds, changes: seq<Change>, n: nat, held: set<Tuples.Tuple>, items: seq<Item>)
    requires n < |changes| && Covers(ids, changes[..n], held, items)
    requires !changes[n].present && changes[n].tuple !in held
    ensures Covers(ids, changes[..n + 1], held, items)
  {
  }

  /** No two items speak of one tuple. */
  lemma ItemsAreChanges(ids: NameIds, changes: seq<Change>, held: set<Tuples.Tuple>, items: seq<Item>)
    requires ids.Ok() && OneEach(changes) && Covers(ids, changes, held, items)
    ensures Changes(Elements(items))
  {
    hide NameIds.Ok;
    forall a | a in items ensures a.subject.Valid() {
      var i :| 0 <= i < |changes| && Naming.Known(ids, changes[i].tuple) && a == ItemOf(ids, changes[i]);
      assert changes[i] in changes;
      KnownIsValid(ids, changes[i].tuple);
    }
    forall a, b | a in items && b in items && a.key == b.key && a.subject == b.subject ensures a == b {
      var i :| 0 <= i < |changes| && Naming.Known(ids, changes[i].tuple) && a == ItemOf(ids, changes[i]);
      var j :| 0 <= j < |changes| && Naming.Known(ids, changes[j].tuple) && b == ItemOf(ids, changes[j]);
      assert changes[i] in changes && changes[j] in changes;
      TupleInjective(ids, changes[i].tuple, changes[j].tuple);
    }
  }

  /** Landing the items is applying the changes. */
  lemma LandedIsAfter(ids: NameIds, changes: seq<Change>, held: set<Tuples.Tuple>, items: seq<Item>, entries: Store, entries': Store)
    requires ids.Ok() && OneEach(changes) && Covers(ids, changes, held, items) && Represents(entries, ids, held)
    requires Landed(entries, Elements(items), entries')
    ensures Represents(entries', ids, After(held, changes))
  {
    hide NameIds.Ok, Stored;
    var held' := After(held, changes);
    forall t | t in held' ensures t.Valid() && Naming.Known(ids, t) {
      if t !in held { var c :| c in changes && c.present && c.tuple == t; }
    }
    forall k, s: SubjectRef | s.Valid() ensures Stored(entries', k, s) <==> HeldAs(ids, held', k, s) {
      assert Stored(entries', k, s) <==> Lands(entries, Elements(items), k, s);
      OneLands(ids, changes, held, items, entries, k, s);
    }
  }

  lemma OneLands(ids: NameIds, changes: seq<Change>, held: set<Tuples.Tuple>, items: seq<Item>, entries: Store, k: Key, s: SubjectRef)
    requires ids.Ok() && OneEach(changes) && Covers(ids, changes, held, items) && Represents(entries, ids, held) && s.Valid()
    ensures Lands(entries, Elements(items), k, s) <==> HeldAs(ids, After(held, changes), k, s)
  {
    hide NameIds.Ok, Stored, Tuples.Tuple.Valid;
    var held' := After(held, changes);
    if p: bool :| Item(k, s, p) in items {
      var i :| 0 <= i < |changes| && Naming.Known(ids, changes[i].tuple) && Item(k, s, p) == ItemOf(ids, changes[i]);
      var t := changes[i].tuple;
      assert changes[i] in changes;
      ItemsAreChanges(ids, changes, held, items);
      assert t in Part(changes, p) && t !in Part(changes, !p) by { OnlyChange(changes, i); }
      assert t in held' <==> p;
      forall u | u in held' && KeyOf(ids, u) == k && SubjectOf(ids, u) == s ensures u == t {
        AfterKnown(ids, held, changes, items, u);
        TupleInjective(ids, t, u);
      }
      if p { assert KeyOf(ids, t) == k && SubjectOf(ids, t) == s; }
    } else {
      forall c | c in changes && KeyOf(ids, c.tuple) == k && SubjectOf(ids, c.tuple) == s ensures !c.present && c.tuple !in held {
        assert ItemOf(ids, c) == Item(k, s, c.present) && Item(k, s, c.present) !in items;
      }
      forall u | KeyOf(ids, u) == k && SubjectOf(ids, u) == s ensures u in held <==> u in held' {}
    }
  }

  lemma OnlyChange(changes: seq<Change>, i: nat)
    requires OneEach(changes) && i < |changes|
    ensures changes[i].tuple in Part(changes, changes[i].present) && changes[i].tuple !in Part(changes, !changes[i].present)
  {
  }

  lemma AfterKnown(ids: NameIds, held: set<Tuples.Tuple>, changes: seq<Change>, items: seq<Item>, u: Tuples.Tuple)
    requires AllKnown(ids, held) && OneEach(changes) && Covers(ids, changes, held, items) && u in After(held, changes)
    ensures u.Valid() && Naming.Known(ids, u)
  {
  }

  // ---- The replica ----

  method CollectSubjects(d: Defs) returns (subjects: set<SubjectType>)
    ensures forall st :: st in subjects <==> AcceptedSomewhere(d, st)
  {
    subjects := {};
    var refs := d.allowed.Keys;
    while refs != {}
      invariant refs <= d.allowed.Keys
      invariant forall st :: st in subjects <==>
        exists ref, a :: ref in d.allowed.Keys - refs && a in d.allowed[ref] && st == SubjectType(a.typ, a.relation, false)
    {
      var ref :| ref in refs;
      refs := refs - {ref};
      ghost var before := subjects;
      for i := 0 to |d.allowed[ref]|
        invariant forall st :: st in subjects <==>
          st in before || exists j :: 0 <= j < i && st == SubjectType(d.allowed[ref][j].typ, d.allowed[ref][j].relation, false)
      {
        var a := d.allowed[ref][i];
        subjects := subjects + {SubjectType(a.typ, a.relation, false)};
      }
    }
  }

  class Replica {
    var revision: Revision
    const names: Dictionary
    var schema: BuiltSchema
    var subjects: set<SubjectType>
    var entries: Store
    ghost var held: set<Tuples.Tuple>
    ghost var defs: seq<Grammar.Definition>

    /** The schema is what the source in force means, and the entries are the tuples held, key by key. */
    ghost predicate Valid()
      reads this, names, names.types, names.relations, names.objects
    {
      && names.Valid() && StoreOk(entries)
      && Represents(entries, names.Known(), held)
      && Compile.Means(defs, names.Known(), schema.d) && Accepts(schema.d)
      && forall st :: st in subjects <==> AcceptedSomewhere(schema.d, st)
    }

    constructor (revision: Revision, names: Dictionary, schema: BuiltSchema, subjects: set<SubjectType>, ghost defs: seq<Grammar.Definition>)
      requires names.Valid() && Compile.Means(defs, names.Known(), schema.d) && Accepts(schema.d)
      requires forall st :: st in subjects <==> AcceptedSomewhere(schema.d, st)
      ensures Valid() && held == {} && this.defs == defs && this.names == names && this.revision == revision
    {
      this.revision, this.names, this.schema, this.subjects := revision, names, schema, subjects;
      entries, held, this.defs := map[], {}, defs;
    }

    /** Moves to a revision: the schema in force there where one came along, and each changed tuple as it stands there. */
    method Apply(revision: Revision, source: Option<string>, changes: seq<Change>) returns (ok: bool)
      requires Valid() && OneEach(changes)
      modifies this, names.types, names.relations, names.objects
      ensures ok ==> Valid() && this.revision == revision && held == After(old(held), changes)
      ensures ok ==> if source.None? then defs == old(defs) else Parsing.Meaning(source.value) == Parsing.Definitions(defs)
      ensures !ok ==> names.Full() || (source.Some? && SourceRefused(source.value, names.Known()))
    {
      hide Parsing.Meaning, Compile.Means, Accepts, Dictionary.Valid, NameIds.Ok, Covers, Represents, StoreOk;
      ghost var start := names.Known();
      if source.Some? {
        var s, read := CompileSource(source.value, names);
        if s.None? { return false; }
        var accepted := CollectSubjects(s.value.d);
        schema, subjects, defs := s.value, accepted, read;
      }
      ghost var mid := names.Known();
      RepresentsGrow(entries, start, mid, held);
      MeansLater(defs, start, mid, schema.d, source.None?);
      var items: seq<Item>;
      ok, items := ItemsOf(names, changes, held);
      if !ok { return; }
      RepresentsGrow(entries, mid, names.Known(), held);
      Compile.MeansGrows(defs, mid, names.Known(), schema.d);
      Land(items, changes);
      this.revision := revision;
    }

    /** Merges the items of a change list. */
    method Land(items: seq<Item>, ghost changes: seq<Change>)
      requires names.Valid() && StoreOk(entries) && OneEach(changes)
      requires Represents(entries, names.Known(), held) && Covers(names.Known(), changes, held, items)
      modifies this`entries, this`held
      ensures StoreOk(entries) && held == After(old(held), changes) && Represents(entries, names.Known(), held)
    {
      hide Dictionary.Valid, NameIds.Ok, Represents, StoreOk, After;
      names.KnownOk();
      ItemsAreChanges(names.Known(), changes, held, items);
      assert forall i, j :: 0 <= i < j < |items| ==> items[i] != items[j];
      hide Covers;
      var merged := Merge(entries, items);
      LandedIsAfter(names.Known(), changes, held, items, entries, merged);
      entries, held := merged, After(held, changes);
    }

    // ---- What the evaluator asks ----

    method Lookup(k: Key, s: SubjectRef) returns (res: LookupResult)
      requires Valid() && s.Valid()
      ensures res == SourceOf(entries).lookup(k, s)
      ensures res.direct <==> !s.wildcard && Tuple(k.obj, k.relation, s) in IdTuples(names.Known(), held)
    {
      names.KnownOk();
      AnswersAsSet(entries, names.Known(), held);
      hide Represents, Compile.Means, Accepts, Entry.Ok;
      if k !in entries { return LookupResult(false, []); }
      var direct := NamesItself(entries[k], s);
      return LookupResult(direct, entries[k].usersets);
    }

    method Subjects(k: Key) returns (out: seq<SubjectRef>)
      requires Valid()
      ensures out == SourceOf(entries).subjects(k)
      ensures forall s: SubjectRef :: s.relation == NO_RELATION && !s.wildcard ==>
        (s in out <==> Tuple(k.obj, k.relation, s) in IdTuples(names.Known(), held))
    {
      names.KnownOk();
      AnswersAsSet(entries, names.Known(), held);
      hide Represents, Compile.Means, Accepts, Entry.Ok;
      out := [];
      if k !in entries { return; }
      var e := entries[k];
      for i := 0 to |e.direct|
        invariant out == AsSubjects(e.direct[..i])
      {
        assert e.direct[..i + 1][..i] == e.direct[..i];
        out := out + [SubjectRef(e.direct[i].typ, e.direct[i].id, NO_RELATION, false)];
      }
      assert e.direct[..|e.direct|] == e.direct;
      out := out + e.usersets;
    }

    method HasWildcard(k: Key, typ: TypeId) returns (granted: bool)
      requires Valid()
      ensures granted <==> Tuple(k.obj, k.relation, WildcardSubject(typ)) in IdTuples(names.Known(), held)
    {
      hide Represents, Compile.Means, Accepts, Entry.Ok, Faithful, IdTuples, NameIds.Ok, Dictionary.Valid, StoreOk;
      names.KnownOk();
      AnswersAsSet(entries, names.Known(), held);
      FaithfulWildcards(SourceOf(entries), IdTuples(names.Known(), held), k, typ);
      granted := k in entries && typ in entries[k].wildcards;
    }
  }

  lemma RepresentsGrow(entries: Store, ids: NameIds, later: NameIds, held: set<Tuples.Tuple>)
    requires Represents(entries, ids, held) && Grew(ids, later)
    ensures Represents(entries, later, held) && AllKnown(later, held)
  {
  }

  lemma MeansLater(defs: seq<Grammar.Definition>, ids: NameIds, later: NameIds, d: Defs, same: bool)
    requires Grew(ids, later) && Compile.Means(defs, if same then ids else later, d)
    ensures Compile.Means(defs, later, d)
  {
    if same { Compile.MeansGrows(defs, ids, later, d); }
  }

  /** Binary search for s among e's subjects; a wildcard is sought by its own question only. */
  method NamesItself(e: Entry, s: SubjectRef) returns (found: bool)
    requires e.Ok() && s.Valid()
    ensures found <==> !s.wildcard && e.Has(s)
  {
    if s.relation != NO_RELATION {
      ghost var dom := Elements(e.usersets) + {s};
      SubjectsOrdered(dom);
      hide Orders, Sorted;
      found := BinarySearch(e.usersets, s, CompareSubjects, dom);
    } else {
      ghost var dom := Elements(e.direct) + {s.Object()};
      ObjectsOrdered(dom);
      hide Orders, Sorted;
      found := BinarySearch(e.direct, s.Object(), CompareObjects, dom);
    }
  }

  // ---- The entries as the evaluator's source ----

  function AsSubjects(direct: seq<ObjectRef>): seq<SubjectRef> {
    if direct == [] then []
    else
      var last := direct[|direct| - 1];
      AsSubjects(direct[..|direct| - 1]) + [SubjectRef(last.typ, last.id, NO_RELATION, false)]
  }

  function LookupIn(entries: Store, k: Key, s: SubjectRef): LookupResult {
    if k in entries then LookupResult(!s.wildcard && entries[k].Has(s), entries[k].usersets) else LookupResult(false, [])
  }

  function SubjectsIn(entries: Store, k: Key): seq<SubjectRef> {
    if k in entries then AsSubjects(entries[k].direct) + entries[k].usersets else []
  }

  function SourceOf(entries: Store): Source {
    Source((k, s) => LookupIn(entries, k, s), k => SubjectsIn(entries, k),
           (k: Key, typ: TypeId) => k in entries && typ in entries[k].wildcards)
  }

  lemma {:induction false} AsSubjectsHas(direct: seq<ObjectRef>, s: SubjectRef)
    requires !s.wildcard && s.relation == NO_RELATION
    ensures s in AsSubjects(direct) <==> s.Object() in direct
  {
    if direct != [] {
      AsSubjectsHas(direct[..|direct| - 1], s);
      assert direct == direct[..|direct| - 1] + [direct[|direct| - 1]];
    }
  }

  lemma FaithfulWildcards(src: Source, tuples: set<Tuple>, k: Key, typ: TypeId)
    requires Faithful(src, tuples)
    ensures src.hasWildcard(k, typ) <==> Tuple(k.obj, k.relation, WildcardSubject(typ)) in tuples
  {
  }

  /** Each of the three questions comes to membership in the set of tuples held. */
  lemma AnswersAsSet(entries: Store, ids: NameIds, held: set<Tuples.Tuple>)
    requires ids.Ok() && StoreOk(entries) && Represents(entries, ids, held)
    ensures Faithful(SourceOf(entries), IdTuples(ids, held))
  {
    hide NameIds.Ok;
    var tuples := IdTuples(ids, held);
    forall k, s: SubjectRef ensures Stored(entries, k, s) <==> Tuple(k.obj, k.relation, s) in tuples {
      HeldIsTuple(ids, held, k, s);
      if HeldAs(ids, held, k, s) { HeldValid(ids, held, k, s); }
      if Stored(entries, k, s) { HasValid(entries[k], s); }
    }
    forall k, s: SubjectRef | s.relation == NO_RELATION && !s.wildcard
      ensures s in SubjectsIn(entries, k) <==> Tuple(k.obj, k.relation, s) in tuples {
      assert Stored(entries, k, s) <==> Tuple(k.obj, k.relation, s) in tuples;
      if k in entries { AsSubjectsHas(entries[k].direct, s); }
    }
    forall k, typ ensures SourceOf(entries).hasWildcard(k, typ) <==> Tuple(k.obj, k.relation, WildcardSubject(typ)) in tuples {
      assert Stored(entries, k, WildcardSubject(typ)) <==> Tuple(k.obj, k.relation, WildcardSubject(typ)) in tuples;
    }
    forall k, s, us: SubjectRef | us.relation != NO_RELATION && !us.wildcard
      ensures us in LookupIn(entries, k, s).usersets <==> Tuple(k.obj, k.relation, us) in tuples {
      assert Stored(entries, k, us) <==> Tuple(k.obj, k.relation, us) in tuples;
    }
  }

  lemma HeldValid(ids: NameIds, held: set<Tuples.Tuple>, k: Key, s: SubjectRef)
    requires ids.Ok() && AllKnown(ids, held) && HeldAs(ids, held, k, s)
    ensures s.Valid()
  {
  }

  lemma HasValid(e: Entry, s: SubjectRef)
    requires e.Ok() && e.Has(s)
    ensures s.Valid()
  {
  }

  // ---- A new replica ----

  method NewReplica(revision: Revision, source: string, tuples: seq<Tuples.Tuple>) returns (r: Replica?, ghost names: Dictionary)
    requires OneEach(AllPresent(tuples))
    ensures fresh(names) && names.limit == DEFAULT_LIMIT && (r != null ==> r.names == names)
    ensures r == null ==> names.Full() || SourceRefused(source, names.Known())
    ensures r != null ==> fresh(r) && fresh(r.names) && fresh(r.names.types) && fresh(r.names.relations) && fresh(r.names.objects)
    ensures r != null ==> r.Valid() && r.revision == revision && r.held == (set t | t in tuples)
    ensures r != null ==> Parsing.Meaning(source) == Parsing.Definitions(r.defs)
  {
    hide Parsing.Meaning, Compile.Means, Accepts, Dictionary.Valid, NameIds.Ok, Covers, Represents, StoreOk;
    var table := new Dictionary(DEFAULT_LIMIT);
    names := table;
    var s, defs := CompileSource(source, table);
    if s.None? { return null, names; }
    var subjects := CollectSubjects(s.value.d);
    r := new Replica(revision, table, s.value, subjects, defs);
    var changes := AllPresent(tuples);
    ghost var before := names.Known();
    var ok, items := ItemsOf(table, changes, {});
    if !ok { return null, names; }
    RepresentsGrow(r.entries, before, names.Known(), {});
    Compile.MeansGrows(defs, before, names.Known(), r.schema.d);
    r.Land(items, changes);
    AfterAll(tuples);
  }

  function AllPresent(tuples: seq<Tuples.Tuple>): seq<Change> {
    seq(|tuples|, i requires 0 <= i < |tuples| => Change(tuples[i], true))
  }

  lemma AfterAll(tuples: seq<Tuples.Tuple>)
    ensures After({}, AllPresent(tuples)) == set t | t in tuples
  {
    forall t | t in tuples ensures t in Part(AllPresent(tuples), true) {
      var i :| 0 <= i < |tuples| && tuples[i] == t;
      assert AllPresent(tuples)[i] == Change(t, true);
    }
  }

  /** No schema comes of the source: it cannot be read, or its definitions are unfit. */
  ghost predicate SourceRefused(source: string, ids: NameIds) {
    var read := Parsing.Meaning(source);
    read.SyntaxError? || Compile.Unfit(read.defs, ids)
  }

  /** Reads and builds a source, its names interned in names. */
  method CompileSource(source: string, names: Dictionary) returns (s: Option<BuiltSchema>, ghost defs: seq<Grammar.Definition>)
    requires names.Valid()
    modifies names.types, names.relations
    ensures names.Valid() && Grew(old(names.Known()), names.Known())
    ensures s.Some? ==> Parsing.Meaning(source) == Parsing.Definitions(defs)
                        && Compile.Means(defs, names.Known(), s.value.d) && Accepts(s.value.d)
    ensures if s.None? then names.Full() || SourceRefused(source, names.Known()) else !SourceRefused(source, names.Known())
  {
    hide Parsing.Meaning, Dictionary.Valid, Compile.Means, Compile.Unfit, Accepts;
    defs := [];
    var read := Parsing.Parse(source);
    if read.SyntaxError? { return None, defs; }
    defs := read.defs;
    s := Compile.Compile(read.defs, names);
  }

  method InternTuple(names: Dictionary, t: Tuples.Tuple) returns (ok: bool, it: Item)
    requires names.Valid() && t.Valid()
    modifies names.types, names.relations, names.objects
    ensures names.Valid() && (ok <==> Naming.Known(names.Known(), t)) && (!ok ==> names.Full())
    ensures Learned(old(names.Known()), names.Known(), {t.resourceType, t.subjectType}, {t.relation, t.subjectRelation},
                    {t.resourceID, t.subjectID} - {Names.WILDCARD_MARKER})
    ensures ok ==> it == ItemOf(names.Known(), Change(t, true))
  {
    NamesNonEmpty(t);
    hide Tuples.Tuple.Valid, Learned, Dictionary.Valid;
    ghost var before := names.Known();
    ghost var ts, rs := {t.resourceType, t.subjectType}, {t.relation, t.subjectRelation};
    ghost var os := {t.resourceID, t.subjectID} - {Names.WILDCARD_MARKER};
    var obj, rel, subj := ObjectRef(0, 0), 0, SubjectRef(0, 0, 0, false);
    it := Item(Key(obj, rel), subj, true);
    ok, obj := names.InternObjectRef(t.resourceType, t.resourceID);
    LearnedOn(before, before, names.Known(), ts, rs, os, {t.resourceType}, {}, {t.resourceID});
    if !ok { return; }
    ghost var first := names.Known();
    ok, rel := names.InternRelation(t.relation);
    LearnedOn(before, first, names.Known(), ts, rs, os, {}, {t.relation}, {});
    if !ok { return; }
    ghost var second := names.Known();
    ok, subj := names.InternSubjectRef(t.subjectType, t.subjectID, t.subjectRelation);
    LearnedOn(before, second, names.Known(), ts, rs, os, {t.subjectType}, {t.subjectRelation},
              {t.subjectID} - {Names.WILDCARD_MARKER});
    if !ok { return; }
    it := Item(Key(obj, rel), subj, true);
    assert KeyOf(names.Known(), t) == Key(obj, rel);
  }

  lemma NamesNonEmpty(t: Tuples.Tuple)
    requires t.Valid()
    ensures t.resourceType != "" && t.resourceID != "" && t.relation != "" && t.subjectType != "" && t.subjectID != ""
    ensures t.resourceID != Names.WILDCARD_MARKER
  {
    assert Names.ObjectIDChar(t.resourceID[0]);
  }

  /** Looks t's names up. Where one is missing, no tuple with that name can be held. */
  method ResolveTuple(names: Dictionary, t: Tuples.Tuple) returns (ok: bool, it: Item)
    requires names.Valid() && t.Valid()
    ensures ok <==> Naming.Known(names.Known(), t)
    ensures ok ==> it == ItemOf(names.Known(), Change(t, false))
  {
    var obj := names.LookupObjectRef(t.resourceType, t.resourceID);
    var rel := names.relations.Lookup(t.relation);
    var subj := names.LookupSubjectRef(t.subjectType, t.subjectID, t.subjectRelation);
    names.KnownOk();
    ResolvesKnown(names.Known(), t);
    ok := obj.Valid() && rel != NO_RELATION && subj.Valid() && !(t.subjectRelation != "" && subj.relation == NO_RELATION);
    it := Item(Key(obj, rel), subj, false);
  }

  /** The items of a change list, in order. */
  method ItemsOf(names: Dictionary, changes: seq<Change>, ghost held: set<Tuples.Tuple>) returns (ok: bool, items: seq<Item>)
    requires names.Valid() && OneEach(changes) && AllKnown(names.Known(), held)
    modifies names.types, names.relations, names.objects
    ensures names.Valid() && Grew(old(names.Known()), names.Known())
    ensures ok ==> Covers(names.Known(), changes, held, items)
    ensures !ok ==> names.Full() && exists c :: c in changes && c.present && !Naming.Known(names.Known(), c.tuple)
  {
    hide Covers, Dictionary.Valid;
    items := [];
    CoversNone(names.Known(), changes, held);
    for i := 0 to |changes|
      invariant names.Valid() && Grew(old(names.Known()), names.Known())
      invariant Covers(names.Known(), changes[..i], held, items)
    {
      var c := changes[i];
      assert c in changes;
      ghost var before := names.Known();
      var it: Item;
      if c.present {
        ok, it := InternTuple(names, c.tuple);
        if !ok { return; }
        CoversGrow(before, names.Known(), changes[..i], held, items);
        names.KnownOk();
        CoversAdd(names.Known(), changes, i, held, items);
        items := items + [it];
      } else {
        ok, it := ResolveTuple(names, c.tuple);
        names.KnownOk();
        if ok {
          CoversAdd(names.Known(), changes, i, held, items);
          items := items + [it];
        } else {
          assert c.tuple !in held by { HeldGrows(old(names.Known()), names.Known(), held); }
          CoversSkip(names.Known(), changes, i, held, items);
        }
      }
    }
    assert changes[..|changes|] == changes;
    return true, items;
  }

  lemma CoversNone(ids: NameIds, changes: seq<Change>, held: set<Tuples.Tuple>)
    ensures Covers(ids, changes[..0], held, [])
  {
  }
}
