/** The store's requests and the advisory locks they take: what conflicts, what does not, and that nobody waits in a circle. */
module Locks {
  import opened Names
  import opened Tuples

  // ---- Locks ----

  /** Above this size a request takes its relations' locks whole. */
  const MAX_TUPLE_LOCKS := 64

  datatype Lock = Lock(name: string, exclusive: bool)

  predicate Conflict(a: Lock, b: Lock) { a.name == b.name && (a.exclusive || b.exclusive) }

  const PREFIX := "datastore.postgres."

  function SchemaLock(exclusive: bool): Lock { Lock(PREFIX + "schema", exclusive) }
  function RelationLock(typ: string, rel: string, exclusive: bool): Lock {
    Lock(PREFIX + "relation:" + Join(typ, '#', rel), exclusive)
  }
  /** The lock on a single tuple, present or not. */
  function TupleLock(t: Tuple): Lock { Lock(PREFIX + "tuple:" + t.Format(), true) }
  function PruneLock(): Lock { Lock(PREFIX + "prune", true) }

  predicate Large(updates: seq<Update>) { |updates| > MAX_TUPLE_LOCKS }

  /** The locks of the first n updates of a write. */
  ghost function UpdateLocks(updates: seq<Update>, n: nat, whole: bool): set<Lock>
    requires n <= |updates|
  {
    if n == 0 then {}
    else
      var t := updates[n - 1].tuple;
      UpdateLocks(updates, n - 1, whole) + {RelationLock(t.resourceType, t.relation, whole)} + if whole then {} else {TupleLock(t)}
  }

  ghost function WriteLockSet(updates: seq<Update>): set<Lock> {
    {SchemaLock(false)} + UpdateLocks(updates, |updates|, Large(updates))
  }

  ghost function LockSet(locks: seq<Lock>): set<Lock> { set l | l in locks }

  /** The locks a write takes for its updates. */
  method WriteLocks(updates: seq<Update>) returns (locks: seq<Lock>)
    ensures LockSet(locks) == WriteLockSet(updates)
  {
    hide RelationLock, TupleLock, SchemaLock, Large, LockSet;
    var whole := Large(updates);
    locks := [SchemaLock(false)];
    LockSetAppend([], SchemaLock(false));
    assert [] + locks == locks;
    for i := 0 to |updates|
      invariant LockSet(locks) == {SchemaLock(false)} + UpdateLocks(updates, i, whole)
    {
      var t := updates[i].tuple;
      LockSetAppend(locks, RelationLock(t.resourceType, t.relation, whole));
      locks := locks + [RelationLock(t.resourceType, t.relation, whole)];
      if !whole {
        LockSetAppend(locks, TupleLock(t));
        locks := locks + [TupleLock(t)];
      }
    }
  }

  lemma LockSetAppend(locks: seq<Lock>, l: Lock)
    ensures LockSet(locks + [l]) == LockSet(locks) + {l}
    ensures LockSet([]) == {}
  {
  }

  ghost predicate Asked(asked: set<Lock>, name: string) { exists l :: l in asked && l.name == name }
  ghost predicate AskedExclusive(asked: set<Lock>, name: string) { Lock(name, true) in asked }
  ghost predicate Taken(out: seq<Lock>, name: string) { exists i :: 0 <= i < |out| && out[i].name == name }

  /** The two lists ask for the same locks, but out names each once, at the stronger mode, ascending. */
  ghost predicate IsOrdered(asked: set<Lock>, out: seq<Lock>) {
    && (forall i, j :: 0 <= i < j < |out| ==> Less(out[i].name, out[j].name))
    && (forall n :: Asked(asked, n) <==> Taken(out, n))
    && (forall i :: 0 <= i < |out| ==> (out[i].exclusive <==> AskedExclusive(asked, out[i].name)))
  }

  method Ordered(locks: seq<Lock>) returns (out: seq<Lock>)
    ensures IsOrdered(LockSet(locks), out)
  {
    var exclusive: map<string, bool> := map[];
    for i := 0 to |locks|
      invariant forall n :: n in exclusive <==> Asked(LockSet(locks[..i]), n)
      invariant forall n :: n in exclusive ==> (exclusive[n] <==> AskedExclusive(LockSet(locks[..i]), n))
    {
      var l := locks[i];
      Another(locks, i);
      exclusive := exclusive[l.name := (l.name in exclusive && exclusive[l.name]) || l.exclusive];
    }
    assert locks[..|locks|] == locks;
    var names := SortedNames(exclusive.Keys);
    out := [];
    for i := 0 to |names|
      invariant |out| == i && forall j :: 0 <= j < i ==> out[j].name == names[j]
      invariant forall j :: 0 <= j < i ==> names[j] in exclusive && out[j] == Lock(names[j], exclusive[names[j]])
    {
      assert names[i] in names;
      out := out + [Lock(names[i], exclusive[names[i]])];
    }
    AllTaken(names, out);
  }

  lemma Another(locks: seq<Lock>, i: nat)
    requires i < |locks|
    ensures LockSet(locks[..i + 1]) == LockSet(locks[..i]) + {locks[i]}
    ensures forall n :: Asked(LockSet(locks[..i + 1]), n) <==> Asked(LockSet(locks[..i]), n) || n == locks[i].name
  {
    assert locks[..i + 1] == locks[..i] + [locks[i]];
    assert LockSet(locks[..i + 1]) == LockSet(locks[..i]) + {locks[i]};
    forall n ensures Asked(LockSet(locks[..i + 1]), n) <==> Asked(LockSet(locks[..i]), n) || n == locks[i].name {
      assert locks[i] in LockSet(locks[..i + 1]);
    }
  }

  lemma AllTaken(names: seq<string>, out: seq<Lock>)
    requires |out| == |names| && forall j :: 0 <= j < |names| ==> out[j].name == names[j]
    ensures forall n :: n in names <==> Taken(out, n)
  {
    forall n ensures n in names <==> Taken(out, n) {
      if n in names { var j :| 0 <= j < |names| && names[j] == n; assert out[j].name == n; }
    }
  }

  // ---- Requests and what they may change ----

  datatype Request =
    | Write(updates: seq<Update>)
    | DeleteMatching(filter: Filter)
    | WriteSchema(schema: NamedSchema)
    | Prune(now: int, keep: int)

  ghost function AskedBy(r: Request): set<Lock> {
    match r
    case Write(updates) => WriteLockSet(updates)
    case DeleteMatching(f) => {RelationLock(f.resourceType, f.relation, true)}
    case WriteSchema(_) => {SchemaLock(true)}
    case Prune(_, _) => {PruneLock()}
  }

  predicate Updated(updates: seq<Update>, t: Tuple) { exists i :: 0 <= i < |updates| && updates[i].tuple == t }

  /** A request may store or remove t. */
  predicate MayChange(r: Request, t: Tuple) {
    match r
    case Write(updates) => Updated(updates, t)
    case DeleteMatching(f) => f.Matches(t)
    case WriteSchema(_) => false
    case Prune(_, _) => false
  }

  ghost predicate Clash(a: seq<Lock>, b: seq<Lock>) {
    exists i, j :: 0 <= i < |a| && 0 <= j < |b| && Conflict(a[i], b[j])
  }

  /** Ordering loses nothing: requests that ask for conflicting locks take conflicting locks, and no others do. */
  lemma OrderedClash(a: set<Lock>, b: set<Lock>, outA: seq<Lock>, outB: seq<Lock>)
    requires IsOrdered(a, outA) && IsOrdered(b, outB)
    ensures Clash(outA, outB) <==> exists k, l :: k in a && l in b && Conflict(k, l)
  {
    if Clash(outA, outB) {
      var i, j :| 0 <= i < |outA| && 0 <= j < |outB| && Conflict(outA[i], outB[j]);
      var n := outA[i].name;
      assert Taken(outA, n) && Taken(outB, n);
      var k := Strongest(a, outA, i);
      var l := Strongest(b, outB, j);
      assert Conflict(k, l);
    }
    if k, l :| k in a && l in b && Conflict(k, l) {
      var i := TakenFor(a, outA, k);
      var j := TakenFor(b, outB, l);
      assert Conflict(outA[i], outB[j]);
    }
  }

  lemma Strongest(asked: set<Lock>, out: seq<Lock>, i: nat) returns (k: Lock)
    requires IsOrdered(asked, out) && i < |out|
    ensures k in asked && k.name == out[i].name && (out[i].exclusive ==> k.exclusive)
  {
    assert Taken(out, out[i].name);
    assert Asked(asked, out[i].name);
    if out[i].exclusive { k := Lock(out[i].name, true); } else { k :| k in asked && k.name == out[i].name; }
  }

  lemma TakenFor(asked: set<Lock>, out: seq<Lock>, k: Lock) returns (i: nat)
    requires IsOrdered(asked, out) && k in asked
    ensures i < |out| && out[i].name == k.name && (k.exclusive ==> out[i].exclusive)
  {
    assert Asked(asked, k.name);
    assert Taken(out, k.name);
    i :| 0 <= i < |out| && out[i].name == k.name;
  }

  lemma {:induction false} InUpdateLocks(updates: seq<Update>, n: nat, whole: bool, i: nat)
    requires i < n <= |updates|
    ensures RelationLock(updates[i].tuple.resourceType, updates[i].tuple.relation, whole) in UpdateLocks(updates, n, whole)
    ensures !whole ==> TupleLock(updates[i].tuple) in UpdateLocks(updates, n, whole)
  {
    if i < n - 1 { InUpdateLocks(updates, n - 1, whole, i); }
  }

  /** The strongest lock a request asks for that stands for t: its own, or its relation's. */
  lemma LocksFor(r: Request, t: Tuple)
    requires MayChange(r, t)
    ensures r.Write? && !Large(r.updates) ==>
              TupleLock(t) in AskedBy(r) && RelationLock(t.resourceType, t.relation, false) in AskedBy(r)
    ensures !(r.Write? && !Large(r.updates)) ==> RelationLock(t.resourceType, t.relation, true) in AskedBy(r)
  {
    hide RelationLock, TupleLock;
    match r {
      case Write(updates) =>
        var i :| 0 <= i < |updates| && updates[i].tuple == t;
        InUpdateLocks(updates, |updates|, Large(updates), i);
      case _ =>
    }
  }

  /** Any two requests that may change the same tuple take conflicting locks, whatever their kinds and sizes. */
  lemma MutualExclusion(r: Request, q: Request, t: Tuple, locksR: seq<Lock>, locksQ: seq<Lock>)
    requires MayChange(r, t) && MayChange(q, t)
    requires IsOrdered(AskedBy(r), locksR) && IsOrdered(AskedBy(q), locksQ)
    ensures Clash(locksR, locksQ)
  {
    hide MayChange, IsOrdered, AskedBy, Clash;
    LocksFor(r, t);
    LocksFor(q, t);
    OrderedClash(AskedBy(r), AskedBy(q), locksR, locksQ);
    var shared, whole := RelationLock(t.resourceType, t.relation, false), RelationLock(t.resourceType, t.relation, true);
    assert Conflict(TupleLock(t), TupleLock(t)) && Conflict(whole, whole) && Conflict(shared, whole) && Conflict(whole, shared);
  }

  lemma {:induction false} OnlyUpdateLocks(updates: seq<Update>, n: nat, whole: bool, l: Lock) returns (t: Tuple)
    requires n <= |updates| && l in UpdateLocks(updates, n, whole)
    ensures Updated(updates, t)
    ensures l == RelationLock(t.resourceType, t.relation, whole) || (!whole && l == TupleLock(t))
  {
    t := updates[n - 1].tuple;
    if !(l == RelationLock(t.resourceType, t.relation, whole) || (!whole && l == TupleLock(t))) {
      t := OnlyUpdateLocks(updates, n - 1, whole, l);
    }
  }

  /** The four families of lock names never meet, and tuple locks are one to a valid tuple. */
  lemma NamesApart(typ: string, rel: string, t: Tuple, u: Tuple, x: bool, y: bool)
    ensures SchemaLock(x).name != RelationLock(typ, rel, y).name && SchemaLock(x).name != TupleLock(t).name
    ensures RelationLock(typ, rel, x).name != TupleLock(t).name
    ensures PruneLock().name != SchemaLock(x).name && PruneLock().name != RelationLock(typ, rel, x).name
    ensures PruneLock().name != TupleLock(t).name
    ensures t.Valid() && u.Valid() && t != u ==> TupleLock(t).name != TupleLock(u).name
  {
    hide Tuple.Valid, Tuple.Format;
    assert |PREFIX| == 19;
    assert SchemaLock(x).name[19] == 's' && RelationLock(typ, rel, x).name[19] == 'r';
    assert RelationLock(typ, rel, y).name[19] == 'r';
    assert TupleLock(t).name[19] == 't' && PruneLock().name[19] == 'p';
    if t.Valid() && u.Valid() && TupleLock(t).name == TupleLock(u).name {
      assert t.Format() == TupleLock(t).name[25..] && u.Format() == TupleLock(u).name[25..];
      FormatInjective(t, u);
    }
  }

  /** A small write's lock is the shared schema lock, a shared relation lock or the lock of one of its tuples. */
  lemma SmallLock(r: Request, l: Lock) returns (t: Tuple)
    requires r.Write? && !Large(r.updates) && l in AskedBy(r)
    ensures l == SchemaLock(false) || Updated(r.updates, t)
    ensures l == SchemaLock(false) || l == RelationLock(t.resourceType, t.relation, false) || l == TupleLock(t)
  {
    if l != SchemaLock(false) { t := OnlyUpdateLocks(r.updates, |r.updates|, false, l); } else { t :| true; }
  }

  /** Past 64 updates a write takes no tuple's own lock, and each relation it touches alone. */
  lemma LargeWritesTakeRelations(r: Request, t: Tuple)
    requires r.Write? && |r.updates| > 64
    ensures TupleLock(t) !in AskedBy(r)
    ensures Updated(r.updates, t) ==> RelationLock(t.resourceType, t.relation, true) in AskedBy(r)
    ensures RelationLock(t.resourceType, t.relation, false) !in AskedBy(r)
  {
    if Updated(r.updates, t) { LocksFor(r, t); }
    forall l | l in UpdateLocks(r.updates, |r.updates|, true)
      ensures l != TupleLock(t) && l != RelationLock(t.resourceType, t.relation, false)
    {
      var u := OnlyUpdateLocks(r.updates, |r.updates|, true, l);
      NamesApart(u.resourceType, u.relation, t, t, false, true);
      assert l.exclusive;
    }
    NamesApart(t.resourceType, t.relation, t, t, false, false);
  }

  /** Small writes on distinct valid tuples never wait for each other. */
  lemma SmallWritesIndependent(r: Request, q: Request, locksR: seq<Lock>, locksQ: seq<Lock>)
    requires r.Write? && q.Write? && |r.updates| <= 64 && |q.updates| <= 64
    requires forall u :: u in r.updates || u in q.updates ==> u.tuple.Valid()
    requires forall i, j :: 0 <= i < |r.updates| && 0 <= j < |q.updates| ==> r.updates[i].tuple != q.updates[j].tuple
    requires IsOrdered(AskedBy(r), locksR) && IsOrdered(AskedBy(q), locksQ)
    ensures !Clash(locksR, locksQ)
  {
    hide IsOrdered, Clash, TupleLock, Tuple.Valid;
    OrderedClash(AskedBy(r), AskedBy(q), locksR, locksQ);
    if k, l :| k in AskedBy(r) && l in AskedBy(q) && Conflict(k, l) {
      var t := SmallLock(r, k);
      var u := SmallLock(q, l);
      NamesApart(t.resourceType, t.relation, u, u, false, false);
      NamesApart(u.resourceType, u.relation, t, u, false, false);
    }
  }

  /** A schema write shares a lock with every write and with itself; a prune only with itself. */
  lemma SchemaExclusion(r: Request, q: Request, locksR: seq<Lock>, locksQ: seq<Lock>)
    requires (r.WriteSchema? && (q.Write? || q.WriteSchema?)) || (r.Prune? && q.Prune?)
    requires IsOrdered(AskedBy(r), locksR) && IsOrdered(AskedBy(q), locksQ)
    ensures Clash(locksR, locksQ)
  {
    hide IsOrdered, Clash;
    OrderedClash(AskedBy(r), AskedBy(q), locksR, locksQ);
    var l := if r.Prune? then PruneLock() else SchemaLock(true);
    var m := if q.Write? then SchemaLock(false) else l;
    assert l in AskedBy(r) && m in AskedBy(q) && Conflict(l, m);
  }

  // ---- Waiting ----

  /** A request part way through acquire: it holds the first got of its ordered locks and, unless it holds them all,
      waits for the next one. since is when it joined that lock's queue. */
  datatype Session = Session(locks: seq<Lock>, got: nat, since: nat) {
    ghost predicate Valid() { got <= |locks| && forall i, j :: 0 <= i < j < |locks| ==> Less(locks[i].name, locks[j].name) }
    predicate Waiting() { got < |locks| }
  }

  /** a waits for b: b holds a lock that conflicts with the one a wants, or asked for such a lock first and has not got it. */
  ghost predicate WaitsFor(a: Session, b: Session)
    requires a.Valid() && b.Valid()
  {
    && a.Waiting()
    && (|| (exists i :: 0 <= i < b.got && Conflict(a.locks[a.got], b.locks[i]))
        || (b.Waiting() && Conflict(a.locks[a.got], b.locks[b.got]) && b.since < a.since))
  }

  /** Each session on the path waits for the one after it. */
  ghost predicate WaitPath(path: seq<Session>) {
    && (forall i :: 0 <= i < |path| ==> path[i].Valid())
    && (forall i :: 0 <= i < |path| - 1 ==> WaitsFor(path[i], path[i + 1]))
  }

  /** What b wants comes after what a wants, by name and then by place in the queue. */
  predicate Before(a: Session, b: Session)
    requires a.Waiting() && b.Waiting()
  {
    var m, n := a.locks[a.got].name, b.locks[b.got].name;
    Less(m, n) || (m == n && b.since < a.since)
  }

  lemma {:induction false} WaitsRise(path: seq<Session>)
    requires WaitPath(path) && |path| >= 2 && path[|path| - 1].Waiting()
    ensures path[0].Waiting() && Before(path[0], path[|path| - 1])
  {
    var n := |path| - 1;
    var a, b := path[n - 1], path[n];
    assert WaitsFor(a, path[n - 1 + 1]);
    assert Before(a, b);
    if n > 1 {
      assert path[..n][n - 1] == a;
      forall i | 0 <= i < n - 1 ensures WaitsFor(path[..n][i], path[..n][i + 1]) { assert WaitsFor(path[i], path[i + 1]); }
      WaitsRise(path[..n]);
      BeforeTrans(path[0], a, b);
    }
  }

  lemma BeforeTrans(a: Session, b: Session, c: Session)
    requires a.Waiting() && b.Waiting() && c.Waiting() && Before(a, b) && Before(b, c)
    ensures Before(a, c)
  {
    var m, n, o := a.locks[a.got].name, b.locks[b.got].name, c.locks[c.got].name;
    if Less(m, n) && Less(n, o) { LessTrans(m, n, o); }
  }

  lemma WaitingRises(a: Session, b: Session)
    requires a.Valid() && b.Valid() && b.Waiting() && WaitsFor(a, b)
    ensures Before(a, b)
  {
    if i :| 0 <= i < b.got && Conflict(a.locks[a.got], b.locks[i]) {
      assert Less(b.locks[i].name, b.locks[b.got].name);
    }
  }

  lemma NotBeforeItself(a: Session)
    requires a.Waiting()
    ensures !Before(a, a)
  {
    LessTotal(a.locks[a.got].name, a.locks[a.got].name);
  }

  /** Of finitely many waiting sessions, one that wants what comes before nothing another wants. */
  lemma LastWaiter(sessions: set<Session>) returns (last: Session)
    requires sessions != {} && forall s :: s in sessions ==> s.Waiting()
    ensures last in sessions && forall s :: s in sessions ==> !Before(last, s)
    decreases |sessions|
  {
    hide Before;
    var first :| first in sessions;
    var later := set s | s in sessions && Before(first, s);
    assert forall s :: s in sessions && Before(first, s) ==> s in later;
    last := first;
    if later != {} {
      NotBeforeItself(first);
      assert sessions == later + (sessions - later) && first in sessions - later;
      last := LastWaiter(later);
      forall s | s in sessions ensures !Before(last, s) {
        if Before(last, s) { BeforeTrans(first, last, s); }
      }
    }
  }

  /** Among finitely many sessions one waits for none of them, whoever holds what and however the queues stand. */
  lemma WaitsForNobody(sessions: set<Session>) returns (free: Session)
    requires sessions != {} && forall s :: s in sessions ==> s.Valid()
    ensures free in sessions && forall s :: s in sessions ==> !WaitsFor(free, s)
  {
    hide Before, Session.Valid;
    if s :| s in sessions && !s.Waiting() {
      free := s;
    } else {
      free := LastWaiter(sessions);
      forall s | s in sessions ensures !WaitsFor(free, s) {
        if WaitsFor(free, s) { WaitingRises(free, s); }
      }
    }
  }

  /** Nobody waits in a circle, so no set of requests is deadlocked on advisory locks. */
  lemma NoWaitCycle(path: seq<Session>)
    requires WaitPath(path) && |path| >= 2
    ensures path[0] != path[|path| - 1]
  {
    if path[0] == path[|path| - 1] {
      assert WaitsFor(path[0], path[0 + 1]);
      WaitsRise(path);
      LessTotal(path[0].locks[path[0].got].name, path[0].locks[path[0].got].name);
    }
  }
}
