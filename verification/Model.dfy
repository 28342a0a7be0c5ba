/** What a check should answer: the stratified least fixed point of the schema's rewrites over a set of tuples. */
module Model {
  import opened Refs
  import opened Schema

  /** One question's fixed surroundings. objs are the objects keys range over. */
  datatype World = World(d: Defs, tuples: set<Tuple>, subject: SubjectRef, objs: set<ObjectRef>) {
    /** Every object a tuple leads to is one of objs. */
    ghost predicate Closed() {
      forall t :: t in tuples && !t.subject.wildcard ==> t.subject.Object() in objs
    }

    /** The finitely many keys: objects times the relations their type defines. */
    ghost function Keys(): set<Key> { KeysOver(objs, d.rewrites.Keys) }
  }

  ghost function KeysOver(objs: set<ObjectRef>, refs: set<RelationRef>): (keys: set<Key>)
    ensures forall k: Key :: k in keys <==> k.obj in objs && k.Ref() in refs
  {
    if objs == {} then {}
    else
      var o :| o in objs;
      var rest := KeysOver(objs - {o}, refs);
      var here := set ref | ref in refs && ref.typ == o.typ :: Key(o, ref.relation);
      assert forall k: Key :: k in here <==> k.obj == o && k.Ref() in refs by {
        forall k: Key | k.obj == o && k.Ref() in refs ensures k in here { assert k == Key(o, k.Ref().relation); }
      }
      here + rest
  }

  // ---- What one rewrite entails, given the keys held ----

  /** Tuple t, stored on k, grants k to the subject: by a wildcard, by naming it, or by a userset in held. */
  ghost predicate Grants(w: World, k: Key, t: Tuple, held: set<Key>) {
    var s := t.subject;
    && t.obj == k.obj && t.relation == k.relation
    && (|| (s == WildcardSubject(w.subject.typ) && w.subject.relation == NO_RELATION
            && w.d.Allows(k.Ref(), WildcardType(s.typ)))
        || (s == w.subject && w.d.Allows(k.Ref(), SubjectType(s.typ, s.relation, false)))
        || (!s.wildcard && s.relation != NO_RELATION
            && w.d.Allows(k.Ref(), UsersetType(s.typ, s.relation)) && s.UsersetKey() in held))
  }

  /** Tuple t, stored on the tupleset of k's object, leads to an object that holds rel. */
  ghost predicate Leads(w: World, k: Key, tupleset: RelationId, rel: RelationId, t: Tuple, held: set<Key>) {
    var s := t.subject;
    && t.obj == k.obj && t.relation == tupleset
    && !s.wildcard && s.relation == NO_RELATION
    && w.d.Allows(RelationRef(k.obj.typ, tupleset), DirectType(s.typ))
    && w.d.Defined(RelationRef(s.typ, rel))
    && Key(s.Object(), rel) in held
  }

  /** rw holds for k, reading held, with everything under a subtract side read from settled instead. */
  ghost predicate Entails(w: World, rw: Rewrite, k: Key, held: set<Key>, settled: set<Key>)
    decreases rw
  {
    match rw.op
    case This => exists t :: t in w.tuples && Grants(w, k, t, held)
    case ComputedUserset => Key(k.obj, rw.relation) in held
    case TupleToUserset => exists t :: t in w.tuples && Leads(w, k, rw.tupleset, rw.relation, t, held)
    case Union => exists i :: 0 <= i < |rw.children| && Entails(w, rw.children[i], k, held, settled)
    case Intersection => forall i :: 0 <= i < |rw.children| ==> Entails(w, rw.children[i], k, held, settled)
    case Exclusion =>
      && |rw.children| == 2
      && Entails(w, rw.children[0], k, held, settled)
      && !Entails(w, rw.children[1], k, settled, settled)
    case Other(_) => false
  }

  ghost predicate EntailsKey(w: World, k: Key, held: set<Key>, settled: set<Key>) {
    k.Ref() in w.d.rewrites && Entails(w, w.d.rewrites[k.Ref()], k, held, settled)
  }

  // ---- Levels ----

  type Levels = RelationRef -> nat

  ghost predicate NoHigher(lv: Levels, from: RelationRef, to: RelationRef, negated: bool) {
    if negated then lv(from) > lv(to) else lv(from) >= lv(to)
  }

  /** Every relation is no lower than what it reads, and strictly above what it reads through a subtract. */
  ghost predicate Leveled(edges: set<Edge>, lv: Levels) {
    forall e :: e in edges ==> NoHigher(lv, e.src, e.dst, e.negated)
  }

  /** rw is well formed and its reads respect lv: what Build's checks give for one rewrite. */
  ghost predicate Sound(d: Defs, lv: Levels, from: RelationRef, rw: Rewrite, negated: bool)
    decreases rw
  {
    match rw.op
    case This =>
      && !negated
      && forall st :: st in d.Accepted(from) && st.relation != NO_RELATION ==>
           d.Defined(st.Target()) && NoHigher(lv, from, st.Target(), false)
    case ComputedUserset =>
      var target := RelationRef(from.typ, rw.relation);
      d.Defined(target) && NoHigher(lv, from, target, negated)
    case TupleToUserset =>
      && d.Defined(RelationRef(from.typ, rw.tupleset))
      && (forall st :: st in d.Accepted(RelationRef(from.typ, rw.tupleset)) ==>
            st == DirectType(st.typ)
            && (d.Defined(RelationRef(st.typ, rw.relation)) ==>
                  NoHigher(lv, from, RelationRef(st.typ, rw.relation), negated)))
    case Union => forall i :: 0 <= i < |rw.children| ==> Sound(d, lv, from, rw.children[i], negated)
    case Intersection =>
      && |rw.children| >= 2
      && forall i :: 0 <= i < |rw.children| ==> Sound(d, lv, from, rw.children[i], negated)
    case Exclusion =>
      && |rw.children| == 2
      && Sound(d, lv, from, rw.children[0], negated)
      && Sound(d, lv, from, rw.children[1], true)
    case Other(_) => false
  }

  ghost predicate SoundDefs(d: Defs, lv: Levels) {
    forall ref :: ref in d.rewrites ==> Sound(d, lv, ref, d.rewrites[ref], false)
  }

  // ---- The fixed point ----

  ghost predicate ClosedOn(w: World, keys: set<Key>, held: set<Key>, settled: set<Key>) {
    forall k :: k in keys && EntailsKey(w, k, held, settled) ==> k in held
  }

  /** m holds exactly what it entails, and nothing it could do without: the least set closed under the
      rewrites once m itself answers the subtract sides. */
  ghost predicate IsModel(w: World, m: set<Key>) {
    && m <= w.Keys()
    && ClosedOn(w, w.Keys(), m, m)
    && forall x: set<Key> :: ClosedOn(w, w.Keys(), x, m) ==> m <= x
  }

  ghost function LevelKeys(w: World, lv: Levels, n: nat): set<Key> {
    set k | k in w.Keys() && lv(k.Ref()) == n
  }

  /** The keys of one level held once nothing more follows, over what the levels below hold. */
  ghost function Least(w: World, keys: set<Key>, below: set<Key>): (held: set<Key>)
    ensures held <= keys
  {
    set k | k in keys && InEvery(w, keys, below, k)
  }

  ghost predicate InEvery(w: World, keys: set<Key>, below: set<Key>, k: Key) {
    forall x: set<Key> :: below <= x && ClosedOn(w, keys, x, below) ==> k in x
  }

  /** The keys held on the levels under n, each level answered over the finished ones below it. */
  ghost function Stratum(w: World, lv: Levels, n: nat): (held: set<Key>)
    ensures held <= w.Keys()
  {
    if n == 0 then {}
    else
      var below := Stratum(w, lv, n - 1);
      below + Least(w, LevelKeys(w, lv, n - 1), below)
  }

  ghost function Top(lv: Levels, keys: set<Key>): (n: nat)
    ensures forall k :: k in keys ==> lv(k.Ref()) < n
  {
    if keys == {} then 0
    else
      var k :| k in keys;
      var n := Top(lv, keys - {k});
      assert forall j :: j in keys ==> j == k || j in keys - {k};
      if lv(k.Ref()) < n then n else lv(k.Ref()) + 1
  }

  /** The stratified least fixed point, level by level from the bottom. */
  ghost function FixedPoint(w: World, lv: Levels): (held: set<Key>)
    ensures held <= w.Keys()
  {
    Stratum(w, lv, Top(lv, w.Keys()))
  }

  // ---- Entailment is monotone, and local ----

  lemma {:induction false} Monotone(w: World, rw: Rewrite, k: Key, x: set<Key>, y: set<Key>, settled: set<Key>)
    requires x <= y && Entails(w, rw, k, x, settled)
    ensures Entails(w, rw, k, y, settled)
    decreases rw
  {
    match rw.op
    case This =>
      var t :| t in w.tuples && Grants(w, k, t, x);
      assert Grants(w, k, t, y);
    case ComputedUserset =>
    case TupleToUserset =>
      var t :| t in w.tuples && Leads(w, k, rw.tupleset, rw.relation, t, x);
      assert Leads(w, k, rw.tupleset, rw.relation, t, y);
    case Union =>
      var i :| 0 <= i < |rw.children| && Entails(w, rw.children[i], k, x, settled);
      Monotone(w, rw.children[i], k, x, y, settled);
    case Intersection =>
      forall i | 0 <= i < |rw.children| ensures Entails(w, rw.children[i], k, y, settled) {
        Monotone(w, rw.children[i], k, x, y, settled);
      }
    case Exclusion =>
      Monotone(w, rw.children[0], k, x, y, settled);
  }

  /** rw, on from, reads relations of region only, the tuplesets it follows included. */
  ghost predicate Confined(d: Defs, region: set<RelationRef>, from: RelationRef, rw: Rewrite)
    decreases rw
  {
    match rw.op
    case This => from in region && forall st :: st in d.Accepted(from) && st.relation != NO_RELATION ==> st.Target() in region
    case ComputedUserset => RelationRef(from.typ, rw.relation) in region
    case TupleToUserset =>
      var tupleset := RelationRef(from.typ, rw.tupleset);
      && tupleset in region
      && forall st :: st in d.Accepted(tupleset) && d.Defined(RelationRef(st.typ, rw.relation)) ==>
           RelationRef(st.typ, rw.relation) in region
    case Union => forall i :: 0 <= i < |rw.children| ==> Confined(d, region, from, rw.children[i])
    case Intersection => forall i :: 0 <= i < |rw.children| ==> Confined(d, region, from, rw.children[i])
    case Exclusion => forall i :: 0 <= i < |rw.children| ==> Confined(d, region, from, rw.children[i])
    case Other(_) => true
  }

  /** The worlds w and v ask the same question of objs, and store the same tuples on the relations of region. */
  ghost predicate SameOn(w: World, v: World, objs: set<ObjectRef>, region: set<RelationRef>) {
    && w.d == v.d && w.subject == v.subject && objs <= w.objs && objs <= v.objs
    && forall t: Tuple :: RelationRef(t.obj.typ, t.relation) in region ==>
         (t in w.tuples <==> t in v.tuples) && (t in w.tuples && !t.subject.wildcard ==> t.subject.Object() in objs)
  }

  /** x and y hold the same keys of region on levels up to n; with strict, on levels under n. */
  ghost predicate Agree(keys: set<Key>, lv: Levels, region: set<RelationRef>, n: nat, strict: bool, x: set<Key>, y: set<Key>) {
    forall k :: k in keys && k.Ref() in region && (if strict then lv(k.Ref()) < n else lv(k.Ref()) <= n)
      ==> (k in x <==> k in y)
  }

  /** A rewrite's answer depends only on the relations it reads, on nothing above its own level, and under a
      subtract on nothing of its own level. */
  lemma {:induction false} Local(w: World, v: World, objs: set<ObjectRef>, lv: Levels, region: set<RelationRef>, rw: Rewrite,
                                 k: Key, negated: bool, x: set<Key>, y: set<Key>, s: set<Key>, s': set<Key>)
    requires SameOn(w, v, objs, region) && k in KeysOver(objs, w.d.rewrites.Keys)
    requires Sound(w.d, lv, k.Ref(), rw, negated) && Confined(w.d, region, k.Ref(), rw)
    requires Agree(KeysOver(objs, w.d.rewrites.Keys), lv, region, lv(k.Ref()), negated, x, y)
    requires Agree(KeysOver(objs, w.d.rewrites.Keys), lv, region, lv(k.Ref()), true, s, s')
    requires Entails(w, rw, k, x, s)
    ensures Entails(v, rw, k, y, s')
    decreases rw
  {
    match rw.op
    case This =>
      var t :| t in w.tuples && Grants(w, k, t, x);
      assert Grants(v, k, t, y);
    case ComputedUserset =>
      assert Key(k.obj, rw.relation).Ref() in region;
    case TupleToUserset =>
      var t :| t in w.tuples && Leads(w, k, rw.tupleset, rw.relation, t, x);
      assert Leads(v, k, rw.tupleset, rw.relation, t, y);
    case Union =>
      var i :| 0 <= i < |rw.children| && Entails(w, rw.children[i], k, x, s);
      Local(w, v, objs, lv, region, rw.children[i], k, negated, x, y, s, s');
    case Intersection =>
      forall i | 0 <= i < |rw.children| ensures Entails(v, rw.children[i], k, y, s') {
        Local(w, v, objs, lv, region, rw.children[i], k, negated, x, y, s, s');
      }
    case Exclusion =>
      Local(w, v, objs, lv, region, rw.children[0], k, negated, x, y, s, s');
      if Entails(v, rw.children[1], k, s', s') {
        Local(v, w, objs, lv, region, rw.children[1], k, true, s', s, s', s);
      }
  }

  /** Local, both ways, for a key's own definition. */
  lemma LocalKey(w: World, v: World, objs: set<ObjectRef>, lv: Levels, region: set<RelationRef>, k: Key,
                 x: set<Key>, y: set<Key>, s: set<Key>, s': set<Key>)
    requires SameOn(w, v, objs, region) && k in KeysOver(objs, w.d.rewrites.Keys) && SoundDefs(w.d, lv)
    requires Confined(w.d, region, k.Ref(), w.d.rewrites[k.Ref()])
    requires Agree(KeysOver(objs, w.d.rewrites.Keys), lv, region, lv(k.Ref()), false, x, y)
    requires Agree(KeysOver(objs, w.d.rewrites.Keys), lv, region, lv(k.Ref()), true, s, s')
    ensures EntailsKey(w, k, x, s) <==> EntailsKey(v, k, y, s')
  {
    hide Entails, Sound, Confined, SameOn;
    SameOnFlips(w, v, objs, region);
    if EntailsKey(w, k, x, s) { Local(w, v, objs, lv, region, w.d.rewrites[k.Ref()], k, false, x, y, s, s'); }
    if EntailsKey(v, k, y, s') { Local(v, w, objs, lv, region, w.d.rewrites[k.Ref()], k, false, y, x, s', s); }
  }

  lemma SameOnFlips(w: World, v: World, objs: set<ObjectRef>, region: set<RelationRef>)
    requires SameOn(w, v, objs, region)
    ensures SameOn(v, w, objs, region) && v.d == w.d
  {
  }

  /** Sound definitions are confined to what they define. */
  lemma {:induction false} SoundConfined(d: Defs, lv: Levels, from: RelationRef, rw: Rewrite, negated: bool)
    requires Sound(d, lv, from, rw, negated) && d.Defined(from)
    ensures Confined(d, d.rewrites.Keys, from, rw)
    decreases rw
  {
    if rw.op == Union || rw.op == Intersection {
      forall i | 0 <= i < |rw.children| ensures Confined(d, d.rewrites.Keys, from, rw.children[i]) {
        SoundConfined(d, lv, from, rw.children[i], negated);
      }
    } else if rw.op == Exclusion {
      SoundConfined(d, lv, from, rw.children[0], negated);
      SoundConfined(d, lv, from, rw.children[1], true);
    }
  }

  /** Within one world: agreeing up to k's level is enough. */
  lemma LocalHere(w: World, lv: Levels, k: Key, x: set<Key>, y: set<Key>, s: set<Key>, s': set<Key>)
    requires w.Closed() && SoundDefs(w.d, lv) && k in w.Keys()
    requires Agree(w.Keys(), lv, w.d.rewrites.Keys, lv(k.Ref()), false, x, y)
    requires Agree(w.Keys(), lv, w.d.rewrites.Keys, lv(k.Ref()), true, s, s')
    ensures EntailsKey(w, k, x, s) <==> EntailsKey(w, k, y, s')
  {
    SoundConfined(w.d, lv, k.Ref(), w.d.rewrites[k.Ref()], false);
    LocalKey(w, w, w.objs, lv, w.d.rewrites.Keys, k, x, y, s, s');
  }

  // ---- The fixed point is a model ----

  /** What a model holds, it entails. */
  lemma ModelSupported(w: World, m: set<Key>, k: Key)
    requires IsModel(w, m) && k in m
    ensures EntailsKey(w, k, m, m)
  {
    if !EntailsKey(w, k, m, m) {
      var x := m - {k};
      forall j | j in w.Keys() && EntailsKey(w, j, x, m) ensures j in x {
        Monotone(w, w.d.rewrites[j.Ref()], j, x, m, m);
      }
      assert ClosedOn(w, w.Keys(), x, m);
    }
  }

  /** A finished level is closed under its own rewrites. */
  lemma LeastClosed(w: World, keys: set<Key>, below: set<Key>)
    ensures ClosedOn(w, keys, below + Least(w, keys, below), below)
  {
    var held := below + Least(w, keys, below);
    forall k | k in keys && EntailsKey(w, k, held, below) ensures k in held {
      forall x: set<Key> | below <= x && ClosedOn(w, keys, x, below) ensures k in x {
        assert held <= x;
        Monotone(w, w.d.rewrites[k.Ref()], k, held, x, below);
      }
    }
  }

  /** A step of the construction touches one level only. */
  lemma StratumStep(w: World, lv: Levels, n: nat, k: Key)
    requires k in w.Keys() && lv(k.Ref()) != n
    ensures k in Stratum(w, lv, n + 1) <==> k in Stratum(w, lv, n)
  {
  }

  lemma {:induction false} StratumLow(w: World, lv: Levels, n: nat, k: Key)
    requires k in w.Keys() && lv(k.Ref()) >= n
    ensures k !in Stratum(w, lv, n)
  {
    hide Least;
    if n > 0 {
      StratumLow(w, lv, n - 1, k);
      StratumStep(w, lv, n - 1, k);
    }
  }

  lemma {:induction false} StratumKeep(w: World, lv: Levels, n: nat, p: nat, k: Key)
    requires lv(k.Ref()) < n <= p && k in w.Keys()
    ensures k in Stratum(w, lv, n) <==> k in Stratum(w, lv, p)
    decreases p
  {
    hide *;
    if n < p {
      StratumKeep(w, lv, n, p - 1, k);
      StratumStep(w, lv, p - 1, k);
    }
  }

  /** Going up, the construction never revisits a finished level. */
  lemma StratumStable(w: World, lv: Levels, n: nat, p: nat)
    requires n <= p
    ensures Agree(w.Keys(), lv, w.d.rewrites.Keys, n, true, Stratum(w, lv, n), Stratum(w, lv, p))
    ensures n > 0 ==> Agree(w.Keys(), lv, w.d.rewrites.Keys, n - 1, false, Stratum(w, lv, n), Stratum(w, lv, p))
  {
  }

  /** What is closed on a level's keys, over everything finished below, holds what the level adds. */
  lemma LeastIsLeast(w: World, keys: set<Key>, below: set<Key>, x: set<Key>)
    requires below <= x && ClosedOn(w, keys, x, below)
    ensures below + Least(w, keys, below) <= x
  {
  }

  lemma {:induction false} StratumLeast(w: World, lv: Levels, n: nat, p: nat, x: set<Key>)
    requires w.Closed() && SoundDefs(w.d, lv) && n <= p
    requires ClosedOn(w, w.Keys(), x, Stratum(w, lv, p))
    ensures Stratum(w, lv, n) <= x
  {
    hide Entails, Sound, Agree, Least;
    if n > 0 {
      StratumLeast(w, lv, n - 1, p, x);
      StratumStable(w, lv, n - 1, p);
      var keys, below := LevelKeys(w, lv, n - 1), Stratum(w, lv, n - 1);
      forall k | k in keys && EntailsKey(w, k, x, below) ensures k in x {
        SameSet(w, lv, k, x);
        LocalHere(w, lv, k, x, x, below, Stratum(w, lv, p));
      }
      LeastIsLeast(w, keys, below, x);
    }
  }

  lemma SameSet(w: World, lv: Levels, k: Key, x: set<Key>)
    ensures Agree(w.Keys(), lv, w.d.rewrites.Keys, lv(k.Ref()), false, x, x)
  {
  }

  lemma StratumOwn(w: World, lv: Levels, k: Key)
    requires k in w.Keys() && EntailsKey(w, k, Stratum(w, lv, lv(k.Ref()) + 1), Stratum(w, lv, lv(k.Ref())))
    ensures k in Stratum(w, lv, lv(k.Ref()) + 1)
  {
    hide Least, Entails;
    var keys, below := LevelKeys(w, lv, lv(k.Ref())), Stratum(w, lv, lv(k.Ref()));
    LeastClosed(w, keys, below);
    assert Stratum(w, lv, lv(k.Ref()) + 1) == below + Least(w, keys, below);
  }

  lemma AgreeBack(w: World, lv: Levels, n: nat, strict: bool, x: set<Key>, y: set<Key>)
    requires Agree(w.Keys(), lv, w.d.rewrites.Keys, n, strict, x, y)
    ensures Agree(w.Keys(), lv, w.d.rewrites.Keys, n, strict, y, x)
  {
  }

  lemma StratumClosed(w: World, lv: Levels, p: nat, k: Key)
    requires w.Closed() && SoundDefs(w.d, lv) && k in w.Keys() && lv(k.Ref()) < p
    requires EntailsKey(w, k, Stratum(w, lv, p), Stratum(w, lv, p))
    ensures k in Stratum(w, lv, p)
  {
    hide Entails, Least, SoundDefs;
    var n := lv(k.Ref());
    StratumStable(w, lv, n, p);
    StratumStable(w, lv, n + 1, p);
    AgreeBack(w, lv, n, true, Stratum(w, lv, n), Stratum(w, lv, p));
    AgreeBack(w, lv, n, false, Stratum(w, lv, n + 1), Stratum(w, lv, p));
    hide Agree, Stratum;
    LocalHere(w, lv, k, Stratum(w, lv, p), Stratum(w, lv, n + 1), Stratum(w, lv, p), Stratum(w, lv, n));
    StratumOwn(w, lv, k);
    StratumKeep(w, lv, n + 1, p, k);
  }

  /** Levelled definitions have a model, and the level-by-level construction is it. */
  lemma FixedPointIsModel(w: World, lv: Levels)
    requires w.Closed() && SoundDefs(w.d, lv)
    ensures IsModel(w, FixedPoint(w, lv))
  {
    var p := Top(lv, w.Keys());
    var m := Stratum(w, lv, p);
    forall k | k in w.Keys() && EntailsKey(w, k, m, m) ensures k in m {
      StratumClosed(w, lv, p, k);
    }
    forall x: set<Key> | ClosedOn(w, w.Keys(), x, m) ensures m <= x {
      StratumLeast(w, lv, p, p, x);
    }
  }

  // ---- Models agree wherever their worlds do, so there is only one ----

  ghost predicate RegionClosed(d: Defs, region: set<RelationRef>) {
    forall ref :: ref in region && d.Defined(ref) ==> Confined(d, region, ref, d.rewrites[ref])
  }

  /** One level of one direction of ModelsAgree. */
  lemma ModelsAgreeAt(w: World, v: World, objs: set<ObjectRef>, lv: Levels, region: set<RelationRef>,
                      m: set<Key>, m': set<Key>, n: nat)
    requires SameOn(w, v, objs, region) && SoundDefs(w.d, lv) && RegionClosed(w.d, region)
    requires IsModel(w, m) && IsModel(v, m')
    requires Agree(KeysOver(objs, w.d.rewrites.Keys), lv, region, n, true, m, m')
    ensures forall k :: k in KeysOver(objs, w.d.rewrites.Keys) && k in m && k.Ref() in region && lv(k.Ref()) == n ==> k in m'
  {
    hide Entails, Sound, Confined;
    var keys := KeysOver(objs, w.d.rewrites.Keys);
    var x := set k | k in m && (k in keys && k.Ref() in region && lv(k.Ref()) == n ==> k in m');
    forall k | k in w.Keys() && EntailsKey(w, k, x, m) ensures k in x {
      Monotone(w, w.d.rewrites[k.Ref()], k, x, m, m);
      if k in keys && k.Ref() in region && lv(k.Ref()) == n {
        LocalKey(w, v, objs, lv, region, k, x, x * m', m, m');
        Monotone(v, v.d.rewrites[k.Ref()], k, x * m', m', m');
        assert k in v.Keys();
      }
    }
    assert ClosedOn(w, w.Keys(), x, m);
  }

  /** Two worlds that agree on a region closed under reading have models that agree on it. */
  lemma {:induction false} ModelsAgree(w: World, v: World, objs: set<ObjectRef>, lv: Levels, region: set<RelationRef>,
                                       m: set<Key>, m': set<Key>, n: nat)
    requires SameOn(w, v, objs, region) && SoundDefs(w.d, lv) && RegionClosed(w.d, region)
    requires IsModel(w, m) && IsModel(v, m')
    ensures Agree(KeysOver(objs, w.d.rewrites.Keys), lv, region, n, true, m, m')
  {
    hide SameOn, SoundDefs, RegionClosed, IsModel;
    if n > 0 {
      ModelsAgree(w, v, objs, lv, region, m, m', n - 1);
      SameOnFlips(w, v, objs, region);
      ModelsAgreeAt(w, v, objs, lv, region, m, m', n - 1);
      ModelsAgreeAt(v, w, objs, lv, region, m', m, n - 1);
    }
  }

  lemma AllConfined(d: Defs, lv: Levels)
    requires SoundDefs(d, lv)
    ensures RegionClosed(d, d.rewrites.Keys)
  {
    forall ref | d.Defined(ref) ensures Confined(d, d.rewrites.Keys, ref, d.rewrites[ref]) {
      SoundConfined(d, lv, ref, d.rewrites[ref], false);
    }
  }

  /** There is exactly one model, so the fixed point does not depend on the levels it is built by. */
  lemma ModelUnique(w: World, lv: Levels, m: set<Key>)
    requires w.Closed() && SoundDefs(w.d, lv)
    ensures IsModel(w, m) <==> m == FixedPoint(w, lv)
  {
    FixedPointIsModel(w, lv);
    if IsModel(w, m) {
      AllConfined(w.d, lv);
      hide Stratum;
      ModelsAgree(w, w, w.objs, lv, w.d.rewrites.Keys, m, FixedPoint(w, lv), Top(lv, w.Keys()));
    }
  }

  /** Objects no question reaches do not matter: a larger world holds the same keys of a smaller one. */
  lemma ObjectsIrrelevant(w: World, v: World, lv: Levels, k: Key)
    requires w.Closed() && v.Closed() && SoundDefs(w.d, lv) && k in w.Keys()
    requires v == w.(objs := v.objs) && w.objs <= v.objs
    ensures k in FixedPoint(w, lv) <==> k in FixedPoint(v, lv)
  {
    FixedPointIsModel(w, lv);
    FixedPointIsModel(v, lv);
    AllConfined(w.d, lv);
    hide Stratum;
    ModelsAgree(w, v, w.objs, lv, w.d.rewrites.Keys, FixedPoint(w, lv), FixedPoint(v, lv), lv(k.Ref()) + 1);
  }

  // ---- Finite sets ----

  lemma SubsetSize<T>(a: set<T>, b: set<T>)
    requires a <= b
    ensures |a| <= |b|
    ensures a != b ==> |a| < |b|
  {
    assert b == a + (b - a);
    assert |b| == |a| + |b - a|;
    if a != b { var x :| x in b - a; }
  }
}
