/** A replica's entries: three sorted lists under each key, and what merging a change list does to them. */
module Entries {
  import opened Refs
  import opened Merging

  // ---- Orders ----

  function CompareIds(a: nat, b: nat): int { if a < b then -1 else if a > b then 1 else 0 }
  function Or(a: int, b: int): int { if a != 0 then a else b }
  function CompareObjects(a: ObjectRef, b: ObjectRef): int { Or(CompareIds(a.typ, b.typ), CompareIds(a.id, b.id)) }

  /** The order of a tuple list's subjects; wildcards come first within their type. */
  function CompareSubjects(a: SubjectRef, b: SubjectRef): int {
    Or(CompareIds(a.typ, b.typ), Or(CompareIds(a.id, b.id), CompareIds(a.relation, b.relation)))
  }

  function CompareKeys(a: Key, b: Key): int { Or(CompareObjects(a.obj, b.obj), CompareIds(a.relation, b.relation)) }

  lemma IdsOrdered(dom: set<nat>)
    ensures Orders(CompareIds, dom)
  {
  }

  lemma ObjectsOrdered(dom: set<ObjectRef>)
    ensures Orders(CompareObjects, dom)
  {
  }

  lemma SubjectsOrdered(dom: set<SubjectRef>)
    requires forall s :: s in dom ==> s.Valid()
    ensures Orders(CompareSubjects, dom)
  {
  }

  // ---- One key's subjects ----

  /** What is stored under one key: all of it, and split by the evaluator's questions. */
  datatype Entry = Entry(direct: seq<ObjectRef>, usersets: seq<SubjectRef>, wildcards: seq<TypeId>) {
    /** The entry names s. */
    predicate Has(s: SubjectRef) {
      if s.wildcard then s == WildcardSubject(s.typ) && s.typ in wildcards
      else if s.relation != NO_RELATION then s in usersets
      else s.Object() in direct
    }

    predicate Empty() { direct == [] && usersets == [] && wildcards == [] }

    /** Every list is strictly sorted, and holds what belongs in it. */
    ghost predicate Ok() {
      && Sorted(direct, CompareObjects) && Sorted(usersets, CompareSubjects) && Sorted(wildcards, CompareIds)
      && (forall o :: o in direct ==> o.Valid())
      && (forall s :: s in usersets ==> s.Valid() && !s.wildcard && s.relation != NO_RELATION)
      && (forall t :: t in wildcards ==> t != 0)
    }

    /** The list s belongs in, with s at its end. */
    function Put(s: SubjectRef): Entry {
      if s.wildcard then this.(wildcards := wildcards + [s.typ])
      else if s.relation != NO_RELATION then this.(usersets := usersets + [s])
      else this.(direct := direct + [s.Object()])
    }
  }

  const NOTHING := Entry([], [], [])

  lemma EmptyHasNone(e: Entry)
    requires e.Ok()
    ensures e.Empty() <==> forall s: SubjectRef :: s.Valid() ==> !e.Has(s)
  {
    if !e.Empty() {
      if e.direct != [] {
        var o := e.direct[0];
        assert o in e.direct;
        assert e.Has(SubjectRef(o.typ, o.id, NO_RELATION, false));
      } else if e.usersets != [] {
        assert e.Has(e.usersets[0]);
      } else {
        assert e.wildcards[0] in e.wildcards;
        assert e.Has(WildcardSubject(e.wildcards[0]));
      }
    }
  }

  lemma PutKeeps(e: Entry, s: SubjectRef)
    requires e.Ok() && s.Valid() && forall t: SubjectRef :: t.Valid() && e.Has(t) ==> CompareSubjects(t, s) < 0
    ensures e.Put(s).Ok()
    ensures forall t: SubjectRef :: t.Valid() ==> (e.Put(s).Has(t) <==> e.Has(t) || t == s)
  {
    forall o | o in e.direct && !s.wildcard && s.relation == NO_RELATION ensures CompareObjects(o, s.Object()) < 0 {
      assert e.Has(SubjectRef(o.typ, o.id, NO_RELATION, false));
    }
    forall u | u in e.usersets && !s.wildcard && s.relation != NO_RELATION ensures CompareSubjects(u, s) < 0 { assert e.Has(u); }
    forall t | t in e.wildcards && s.wildcard ensures CompareIds(t, s.typ) < 0 { assert e.Has(WildcardSubject(t)); }
  }

  /** Each of the three lists merged, given which subjects come and which go. */
  method MergeEntry(base: Entry, adds: Entry, drops: Entry) returns (e: Entry)
    requires base.Ok() && adds.Ok() && drops.Ok()
    ensures e.Ok()
    ensures forall s: SubjectRef :: s.Valid() ==> (e.Has(s) <==> (base.Has(s) || adds.Has(s)) && !drops.Has(s))
  {
    hide Entry.Has, ObjectRef.Valid, SubjectRef.Valid;
    ghost var objects := Elements(base.direct) + Elements(adds.direct) + Elements(drops.direct);
    ghost var subjects := Elements(base.usersets) + Elements(adds.usersets) + Elements(drops.usersets);
    ghost var ids := Elements(base.wildcards) + Elements(adds.wildcards) + Elements(drops.wildcards);
    ObjectsOrdered(objects);
    SubjectsOrdered(subjects);
    IdsOrdered(ids);
    hide Orders, Sorted;
    var direct := MergeSorted(base.direct, adds.direct, drops.direct, CompareObjects, objects);
    var usersets := MergeSorted(base.usersets, adds.usersets, drops.usersets, CompareSubjects, subjects);
    var wildcards := MergeSorted(base.wildcards, adds.wildcards, drops.wildcards, CompareIds, ids);
    e := Entry(direct, usersets, wildcards);
    MergedHas(base, adds, drops, e);
  }

  /** What is merged list by list is merged subject by subject. */
  lemma MergedHas(base: Entry, adds: Entry, drops: Entry, e: Entry)
    requires forall x :: x in e.direct <==> (x in base.direct || x in adds.direct) && x !in drops.direct
    requires forall x :: x in e.usersets <==> (x in base.usersets || x in adds.usersets) && x !in drops.usersets
    requires forall x :: x in e.wildcards <==> (x in base.wildcards || x in adds.wildcards) && x !in drops.wildcards
    ensures forall s: SubjectRef :: s.Valid() ==> (e.Has(s) <==> (base.Has(s) || adds.Has(s)) && !drops.Has(s))
  {
  }

  ghost function Elements<T>(s: seq<T>): set<T> { set x | x in s }

  // ---- Items ----

  /** A change with its names replaced by ids. */
  datatype Item = Item(key: Key, subject: SubjectRef, present: bool)

  function CompareItems(a: Item, b: Item): int { Or(CompareKeys(a.key, b.key), CompareSubjects(a.subject, b.subject)) }

  /** No tuple twice, and no malformed subject. */
  ghost predicate Changes(items: set<Item>) {
    && (forall a :: a in items ==> a.subject.Valid())
    && (forall a, b :: a in items && b in items && a.key == b.key && a.subject == b.subject ==> a == b)
  }

  lemma ItemsOrdered(items: set<Item>)
    requires Changes(items)
    ensures Orders(CompareItems, items)
  {
    forall a, b | a in items && b in items ensures CompareItems(a, b) == 0 <==> a == b { OneItem(items, a, b); }
  }

  lemma OneItem(items: set<Item>, a: Item, b: Item)
    requires Changes(items) && a in items && b in items
    ensures CompareItems(a, b) == 0 <==> a == b
  {
    assert a.subject.wildcard <==> a.subject.id == 0;
    assert b.subject.wildcard <==> b.subject.id == 0;
  }

  /** The items in order; any sort would do. */
  method SortItems(items: seq<Item>) returns (sorted: seq<Item>)
    requires Changes(Elements(items))
    requires forall i, j :: 0 <= i < j < |items| ==> items[i] != items[j]
    ensures Sorted(sorted, CompareItems) && Elements(sorted) == Elements(items)
  {
    ghost var dom := Elements(items);
    ItemsOrdered(dom);
    hide Orders, Changes;
    sorted := [];
    for i := 0 to |items|
      invariant Sorted(sorted, CompareItems) && forall x :: x in sorted <==> x in items[..i]
    {
      assert items[..i + 1] == items[..i] + [items[i]];
      assert items[i] in items;
      assert Within(sorted, dom);
      sorted := MergeSorted(sorted, [items[i]], [], CompareItems, dom);
    }
    assert items[..|items|] == items;
  }

  // ---- All keys ----

  type Store = map<Key, Entry>

  /** A key is there exactly while it holds something. */
  ghost predicate StoreOk(entries: Store) { forall k :: k in entries ==> entries[k].Ok() && !entries[k].Empty() }

  predicate Stored(entries: Store, k: Key, s: SubjectRef) { k in entries && entries[k].Has(s) }

  /** s holds on k after items land on entries: as an item says, or as before where none does. */
  ghost predicate Lands(entries: Store, items: set<Item>, k: Key, s: SubjectRef) {
    if Item(k, s, true) in items then true
    else if Item(k, s, false) in items then false
    else Stored(entries, k, s)
  }

  ghost predicate Landed(entries: Store, items: set<Item>, entries': Store) {
    forall k, s: SubjectRef :: s.Valid() ==> (Stored(entries', k, s) <==> Lands(entries, items, k, s))
  }

  /** The part of an item list that stands for present tuples, or for absent ones, sorted into lists. */
  ghost predicate Sorts(items: seq<Item>, k: Key, present: bool, e: Entry) {
    e.Ok() && forall s: SubjectRef :: s.Valid() ==> (e.Has(s) <==> Item(k, s, present) in items)
  }

  /** Gives k the subjects its items ask for; an entry left empty has no place in the map. */
  method MergeKey(entries: Store, k: Key, items: seq<Item>) returns (entries': Store)
    requires StoreOk(entries) && Changes(Elements(items)) && Sorted(items, CompareItems)
    requires forall i :: 0 <= i < |items| ==> items[i].key == k
    ensures StoreOk(entries') && Landed(entries, Elements(items), entries')
  {
    hide Entry.Ok, Entry.Put, Entry.Has, CompareItems, Landed, Lands, Stored;
    var adds, drops := NOTHING, NOTHING;
    NothingSorted(k);
    for i := 0 to |items|
      invariant Sorts(items[..i], k, true, adds) && Sorts(items[..i], k, false, drops)
    {
      var it := items[i];
      assert items[..i + 1] == items[..i] + [it];
      assert it in items;
      SortsMore(items, i, k, true, adds);
      SortsMore(items, i, k, false, drops);
      if it.present { adds := adds.Put(it.subject); } else { drops := drops.Put(it.subject); }
    }
    assert items[..|items|] == items;
    var base := if k in entries then entries[k] else NOTHING;
    var e := MergeEntry(base, adds, drops);
    EmptyHasNone(e);
    KeyLanded(entries, k, items, base, adds, drops, e);
    entries' := if e.Empty() then entries - {k} else entries[k := e];
  }

  lemma NothingSorted(k: Key)
    ensures NOTHING.Ok() && Sorts([], k, true, NOTHING) && Sorts([], k, false, NOTHING)
  {
  }

  lemma SameKey(a: Item, b: Item)
    requires a.key == b.key
    ensures CompareItems(a, b) == CompareSubjects(a.subject, b.subject)
  {
  }

  lemma SortsMore(items: seq<Item>, i: nat, k: Key, present: bool, e: Entry)
    requires i < |items| && Sorts(items[..i], k, present, e) && Sorted(items, CompareItems) && Changes(Elements(items))
    requires forall j :: 0 <= j < |items| ==> items[j].key == k
    ensures Sorts(items[..i + 1], k, present, if items[i].present == present then e.Put(items[i].subject) else e)
  {
    hide Entry.Ok, Entry.Put, Entry.Has, CompareSubjects, CompareItems, SubjectRef.Valid, Sorted, Changes;
    var it := items[i];
    SubjectsValid(items, i);
    if it.present == present {
      forall t: SubjectRef | t.Valid() && e.Has(t) ensures CompareSubjects(t, it.subject) < 0 { ComesBefore(items, i, k, t); }
      PutKeeps(e, it.subject);
    }
    forall s: SubjectRef ensures Item(k, s, present) in items[..i + 1] <==> Item(k, s, present) in items[..i] || Item(k, s, present) == it {
      OneMore(items, i, Item(k, s, present));
    }
    assert it == Item(k, it.subject, it.present);
  }

  lemma SubjectsValid(items: seq<Item>, i: nat)
    requires Changes(Elements(items)) && i < |items|
    ensures items[i].subject.Valid()
  {
    assert items[i] in Elements(items);
  }

  lemma OneMore(items: seq<Item>, i: nat, x: Item)
    requires i < |items|
    ensures x in items[..i + 1] <==> x in items[..i] || x == items[i]
  {
    assert items[..i + 1] == items[..i] + [items[i]];
  }

  /** A subject of an earlier item on the same key comes earlier. */
  lemma ComesBefore(items: seq<Item>, i: nat, k: Key, t: SubjectRef)
    requires i < |items| && Sorted(items, CompareItems) && items[i].key == k
    requires exists p :: Item(k, t, p) in items[..i]
    ensures CompareSubjects(t, items[i].subject) < 0
  {
    hide CompareItems, CompareSubjects;
    var p :| Item(k, t, p) in items[..i];
    var j :| 0 <= j < i && items[..i][j] == Item(k, t, p);
    SameKey(items[j], items[i]);
  }

  lemma KeyLanded(entries: Store, k: Key, items: seq<Item>, base: Entry, adds: Entry, drops: Entry, e: Entry)
    requires Changes(Elements(items)) && forall i :: 0 <= i < |items| ==> items[i].key == k
    requires Sorts(items, k, true, adds) && Sorts(items, k, false, drops)
    requires base == if k in entries then entries[k] else NOTHING
    requires forall s: SubjectRef :: s.Valid() ==> (e.Has(s) <==> (base.Has(s) || adds.Has(s)) && !drops.Has(s))
    requires e.Empty() <==> forall s: SubjectRef :: s.Valid() ==> !e.Has(s)
    ensures Landed(entries, Elements(items), if e.Empty() then entries - {k} else entries[k := e])
  {
  }

  /** Every item's tuple stands afterwards as the item says. Runs of equal keys go to MergeKey together. */
  method Merge(entries: Store, items: seq<Item>) returns (entries': Store)
    requires StoreOk(entries) && Changes(Elements(items))
    requires forall i, j :: 0 <= i < j < |items| ==> items[i] != items[j]
    ensures StoreOk(entries') && Landed(entries, Elements(items), entries')
  {
    hide Landed, StoreOk, Changes, Sorted, Elements;
    var sorted := SortItems(items);
    entries' := entries;
    var done := 0;
    LandedNone(entries, sorted);
    while done < |sorted|
      invariant done <= |sorted| && StoreOk(entries') && Landed(entries, Elements(sorted[..done]), entries')
      invariant done < |sorted| ==> forall i :: 0 <= i < done ==> sorted[i].key != sorted[done].key
    {
      var n := RunLength(sorted, done);
      var mid := entries';
      RunSorted(sorted, done, n, items);
      entries' := MergeKey(mid, sorted[done].key, sorted[done..n]);
      LandedMore(entries, sorted, done, n, mid, entries');
      done := n;
    }
    assert sorted[..|sorted|] == sorted;
  }

  /** Where the run of items on sorted[from]'s key ends. */
  method RunLength(sorted: seq<Item>, from: nat) returns (n: nat)
    requires from < |sorted| && Sorted(sorted, CompareItems)
    requires forall i :: 0 <= i < from ==> sorted[i].key != sorted[from].key
    ensures from < n <= |sorted| && forall i :: from <= i < n ==> sorted[i].key == sorted[from].key
    ensures n < |sorted| ==> forall i :: 0 <= i < n ==> sorted[i].key != sorted[n].key
  {
    n := from + 1;
    while n < |sorted| && sorted[n].key == sorted[from].key
      invariant from < n <= |sorted| && forall i :: from <= i < n ==> sorted[i].key == sorted[from].key
    {
      n := n + 1;
    }
    if n < |sorted| {
      forall i | 0 <= i < n ensures sorted[i].key != sorted[n].key {
        if i < from {
          assert CompareItems(sorted[i], sorted[from]) < 0 && CompareItems(sorted[from], sorted[n]) < 0;
        }
      }
    }
  }

  lemma RunSorted(sorted: seq<Item>, from: nat, n: nat, items: seq<Item>)
    requires from <= n <= |sorted| && Sorted(sorted, CompareItems) && Changes(Elements(items)) && Elements(sorted) == Elements(items)
    ensures Sorted(sorted[from..n], CompareItems) && Changes(Elements(sorted[from..n]))
  {
  }

  lemma LandedNone(entries: Store, sorted: seq<Item>)
    ensures Landed(entries, Elements(sorted[..0]), entries)
  {
  }

  lemma LandedMore(entries: Store, sorted: seq<Item>, from: nat, n: nat, mid: Store, entries': Store)
    requires from <= n <= |sorted| && forall i, j :: 0 <= i < from <= j < n ==> sorted[i].key != sorted[j].key
    requires Landed(entries, Elements(sorted[..from]), mid) && Landed(mid, Elements(sorted[from..n]), entries')
    ensures Landed(entries, Elements(sorted[..n]), entries')
  {
  }
}
