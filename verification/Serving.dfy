/** The store's steps do lead somewhere: every request it should take has a run that commits it, alone, with its effect. */
module Serving {
  import opened Names
  import opened Tuples
  import opened Locks
  import opened Database
  import Feed

  /** A run under way, and where it stands. */
  ghost predicate Reaches(states: seq<State>, steps: seq<Step>, s: State) { Run(states, steps) && states[|states| - 1] == s }

  ghost predicate Reachable(s: State) { exists states, steps :: Reaches(states, steps, s) }

  lemma GoesOn(states: seq<State>, steps: seq<Step>, s: State, step: Step)
    requires Reaches(states, steps, s) && Enabled(s, step)
    ensures Reaches(states + [Do(s, step)], steps + [step], Do(s, step))
  {
    hide Enabled, Do, Init;
    var more, taken := states + [Do(s, step)], steps + [step];
    forall i | 0 <= i < |taken| ensures Enabled(more[i], taken[i]) && more[i + 1] == Do(more[i], taken[i]) {
      if i < |steps| { assert more[i] == states[i] && more[i + 1] == states[i + 1]; } else { assert more[i] == s; }
    }
  }

  lemma Goes(s: State, step: Step)
    requires Reachable(s) && Enabled(s, step)
    ensures Reachable(Do(s, step))
  {
    hide Enabled, Do, Run;
    var states, steps :| Reaches(states, steps, s);
    GoesOn(states, steps, s, step);
  }

  lemma Starts(s: State)
    requires Init(s)
    ensures Reachable(s)
  {
    assert Reaches([s], [], s);
  }

  /** The store between requests, and with one alone in flight. */
  function Resting(db: Tables, next: Xid, nextVersion: nat, followers: map<nat, Follower>): State {
    State(db, next, nextVersion, map[], followers)
  }

  function Alone(db: Tables, next: Xid, nextVersion: nat, followers: map<nat, Follower>, tx: Tx): State {
    State(db, next, nextVersion, map[0 := tx], followers)
  }

  lemma Moves(s: State, move: Move, s': State)
    requires Reachable(s) && 0 in s.live && CanMove(s, 0, move) && s' == Do(s, Advance(0, move))
    ensures Reachable(s')
  {
    Goes(s, Advance(0, move));
  }

  /** Alone, a transaction is granted every lock it asks for. */
  lemma {:induction false} TakesLocks(db: Tables, next: Xid, nextVersion: nat, followers: map<nat, Follower>, tx: Tx)
    requires tx.got <= |tx.locks| && tx.work.Idle? && Reachable(Alone(db, next, nextVersion, followers, tx))
    ensures Reachable(Alone(db, next, nextVersion, followers, tx.(got := |tx.locks|)))
    decreases |tx.locks| - tx.got
  {
    if tx.got < |tx.locks| {
      var s, s' := Alone(db, next, nextVersion, followers, tx), Alone(db, next, nextVersion, followers, tx.(got := tx.got + 1));
      assert s'.live == s.live[0 := tx.(got := tx.got + 1)];
      Moves(s, Acquire, s');
      TakesLocks(db, next, nextVersion, followers, tx.(got := tx.got + 1));
    }
  }

  /** A request that passes its precheck begins, takes its locks and is given an id. */
  lemma Begun(db: Tables, next: Xid, nextVersion: nat, followers: map<nat, Follower>, r: Request, locks: seq<Lock>)
    requires Reachable(Resting(db, next, nextVersion, followers)) && Precheck(db, r) && IsOrdered(AskedBy(r), locks)
    ensures Reachable(Alone(db, next + 1, nextVersion, followers, Tx(r, locks, |locks|, next, Idle)))
  {
    hide Reachable, IsOrdered, AskedBy, Precheck;
    var s, tx := Resting(db, next, nextVersion, followers), Tx(r, locks, 0, NO_XID, Idle);
    Goes(s, Begin(0, r, locks));
    assert s.live[0 := tx] == map[0 := tx];
    TakesLocks(db, next, nextVersion, followers, tx);
    var held, named := tx.(got := |locks|), tx.(got := |locks|, xid := next);
    assert Alone(db, next, nextVersion, followers, held).live[0 := named] == map[0 := named];
    Moves(Alone(db, next, nextVersion, followers, held), Assign, Alone(db, next + 1, nextVersion, followers, named));
  }

  /** One statement of it that gives out no id and no version. */
  lemma Works(db: Tables, next: Xid, nextVersion: nat, followers: map<nat, Follower>, tx: Tx, move: Move, tx': Tx)
    requires Reachable(Alone(db, next, nextVersion, followers, tx)) && !move.Assign? && !move.Insert?
    requires CanMove(Alone(db, next, nextVersion, followers, tx), 0, move)
    requires Moved(Alone(db, next, nextVersion, followers, tx), 0, move) == tx'
    ensures Reachable(Alone(db, next, nextVersion, followers, tx'))
  {
    hide Reachable, CanMove, Moved;
    assert Alone(db, next, nextVersion, followers, tx).live[0 := tx'] == map[0 := tx'];
    Moves(Alone(db, next, nextVersion, followers, tx), move, Alone(db, next, nextVersion, followers, tx'));
  }

  /** Its commit. */
  lemma Ends(db: Tables, next: Xid, nextVersion: nat, followers: map<nat, Follower>, tx: Tx)
    requires Reachable(Alone(db, next, nextVersion, followers, tx)) && Finished(tx)
    ensures Reachable(Resting(Committed(db, tx), next, nextVersion, followers))
  {
    hide Reachable, Committed, Finished;
    Goes(Alone(db, next, nextVersion, followers, tx), Finish(0));
    assert Alone(db, next, nextVersion, followers, tx).live - {0} == map[];
  }

  // ---- Writes ----

  /** after is what the first n updates make of before: what they touch is there, what they delete is not, the rest is as
      it was. */
  ghost predicate Written(before: set<Tuple>, updates: seq<Update>, n: nat, after: set<Tuple>)
    requires n <= |updates|
  {
    forall t :: t in after <==>
      (exists i :: 0 <= i < n && updates[i] == Update(Touch, t)) || (t in before && forall i :: 0 <= i < n ==> updates[i] != Update(Delete, t))
  }

  lemma {:induction false} Applies(db: Tables, next: Xid, nextVersion: nat, followers: map<nat, Follower>, tx: Tx)
    returns (tx': Tx)
    requires Reachable(Alone(db, next, nextVersion, followers, tx)) && tx.request.Write? && tx.work.Writing? && tx.xid != NO_XID
    requires tx.work.done <= |tx.request.updates| && Distinct(tx.request.updates)
    requires Written(db.tuples, tx.request.updates, tx.work.done, View(db.tuples, tx))
    ensures Reachable(Alone(db, next, nextVersion, followers, tx')) && Finished(tx') && NewVersions(tx') == []
    ensures tx'.request == tx.request && Written(db.tuples, tx.request.updates, |tx.request.updates|, View(db.tuples, tx'))
    decreases |tx.request.updates| - tx.work.done
  {
    tx' := tx;
    if tx.work.done < |tx.request.updates| {
      var u := tx.request.updates[tx.work.done];
      var on := tx.(work := Applied(db.tuples, tx, u));
      Works(db, next, nextVersion, followers, tx, Apply, on);
      AppliedWritten(db.tuples, tx);
      hide Written, Reachable, Applied;
      assert on.work.Writing? && on.work.done == tx.work.done + 1 by { AppliedOn(db.tuples, tx, u); }
      tx' := Applies(db, next, nextVersion, followers, on);
    }
  }

  lemma WrittenNone(tuples: set<Tuple>, updates: seq<Update>)
    ensures Written(tuples, updates, 0, tuples)
  {
  }

  lemma AppliedOn(tuples: set<Tuple>, tx: Tx, u: Update)
    requires tx.work.Writing?
    ensures Applied(tuples, tx, u).Writing? && Applied(tuples, tx, u).done == tx.work.done + 1
  {
  }

  ghost predicate Distinct(updates: seq<Update>) {
    && (forall u :: u in updates ==> u.op == Touch || u.op == Delete)
    && forall i, j :: 0 <= i < j < |updates| ==> updates[i].tuple != updates[j].tuple
  }

  lemma AppliedWritten(tuples: set<Tuple>, tx: Tx)
    requires tx.request.Write? && tx.work.Writing? && tx.work.done < |tx.request.updates| && Distinct(tx.request.updates)
    requires Written(tuples, tx.request.updates, tx.work.done, View(tuples, tx))
    ensures var u := tx.request.updates[tx.work.done];
            Written(tuples, tx.request.updates, tx.work.done + 1, View(tuples, tx.(work := Applied(tuples, tx, u))))
  {
    var updates, n := tx.request.updates, tx.work.done;
    var u := updates[n];
    var before, after := View(tuples, tx), View(tuples, tx.(work := Applied(tuples, tx, u)));
    assert u in updates;
    assert after == if u.op.Touch? then before + {u.tuple} else before - {u.tuple};
    forall t ensures t in after <==>
      (exists i :: 0 <= i < n + 1 && updates[i] == Update(Touch, t))
      || (t in tuples && forall i :: 0 <= i < n + 1 ==> updates[i] != Update(Delete, t))
    {
      assert t == u.tuple ==> forall i :: 0 <= i < n ==> updates[i].tuple != t;
      assert u == Update(u.op, u.tuple);
    }
  }

  /** Some state at rest is reached in which the tuples are as told and the schemas as before. */
  ghost predicate CommitsTo(db: Tables, next: Xid, nextVersion: nat, followers: map<nat, Follower>, db': Tables) {
    db'.versions == db.versions && db'.marks == db.marks && Reachable(Resting(db', next + 1, nextVersion, followers))
  }

  /** A write of known operations on distinct valid tuples the newest schema accepts can be committed, and does what its
      updates say: touching stores, deleting removes. */
  lemma WriteCommits(db: Tables, next: Xid, nextVersion: nat, followers: map<nat, Follower>, updates: seq<Update>, locks: seq<Lock>)
    returns (db': Tables)
    requires Reachable(Resting(db, next, nextVersion, followers)) && next != NO_XID && db.versions != []
    requires forall u :: u in updates ==>
      (u.op == Touch || u.op == Delete) && u.tuple.Valid() && Newest(db.versions).schema.Accepts(u.tuple)
    requires forall i, j :: 0 <= i < j < |updates| ==> updates[i].tuple != updates[j].tuple
    requires IsOrdered(AskedBy(Write(updates)), locks)
    ensures CommitsTo(db, next, nextVersion, followers, db') && Written(db.tuples, updates, |updates|, db'.tuples)
  {
    AcceptableIs(Newest(db.versions).schema, updates);
    assert Distinct(updates);
    hide Reachable, IsOrdered, AskedBy, Acceptable, Newest, Distinct;
    db' := WriteRuns(db, next, nextVersion, followers, updates, locks);
  }

  lemma WriteRuns(db: Tables, next: Xid, nextVersion: nat, followers: map<nat, Follower>, updates: seq<Update>, locks: seq<Lock>)
    returns (db': Tables)
    requires Reachable(Resting(db, next, nextVersion, followers)) && next != NO_XID && db.versions != []
    requires Acceptable(Newest(db.versions).schema, updates) && Distinct(updates) && IsOrdered(AskedBy(Write(updates)), locks)
    ensures CommitsTo(db, next, nextVersion, followers, db') && Written(db.tuples, updates, |updates|, db'.tuples)
  {
    hide Reachable, IsOrdered, AskedBy, Acceptable, Newest, Written, Committed, CanMove, Moved, Distinct;
    WriteBegins(db, next, nextVersion, followers, updates, locks);
    var on := Tx(Write(updates), locks, |locks|, next, Writing(0, {}, {}));
    assert View(db.tuples, on) == db.tuples;
    WrittenNone(db.tuples, updates);
    var end := Applies(db, next + 1, nextVersion, followers, on);
    Ends(db, next + 1, nextVersion, followers, end);
    db' := Committed(db, end);
    WriteTables(db, end);
  }

  lemma WriteTables(db: Tables, tx: Tx)
    requires tx.request.Write? && Finished(tx) && NewVersions(tx) == []
    ensures Committed(db, tx).tuples == View(db.tuples, tx) && Committed(db, tx).versions == db.versions
    ensures Committed(db, tx).marks == db.marks
  {
  }

  lemma WriteBegins(db: Tables, next: Xid, nextVersion: nat, followers: map<nat, Follower>, updates: seq<Update>, locks: seq<Lock>)
    requires Reachable(Resting(db, next, nextVersion, followers)) && db.versions != []
    requires Acceptable(Newest(db.versions).schema, updates) && IsOrdered(AskedBy(Write(updates)), locks)
    ensures Reachable(Alone(db, next + 1, nextVersion, followers, Tx(Write(updates), locks, |locks|, next, Writing(0, {}, {}))))
  {
    hide Reachable, IsOrdered, AskedBy, Acceptable, Newest;
    Begun(db, next, nextVersion, followers, Write(updates), locks);
    var tx := Tx(Write(updates), locks, |locks|, next, Idle);
    Works(db, next + 1, nextVersion, followers, tx, Check, tx.(work := Writing(0, {}, {})));
  }

  /** A filter the newest schema takes can be deleted by, and removes the tuples it matches and no other. */
  lemma DeleteCommits(db: Tables, next: Xid, nextVersion: nat, followers: map<nat, Follower>, f: Filter, locks: seq<Lock>)
    returns (db': Tables)
    requires Reachable(Resting(db, next, nextVersion, followers)) && next != NO_XID && db.versions != []
    requires f.Valid() && CheckFilter(Newest(db.versions).schema, f).Fine? && IsOrdered(AskedBy(DeleteMatching(f)), locks)
    ensures CommitsTo(db, next, nextVersion, followers, db') && forall t :: t in db'.tuples <==> t in db.tuples && !f.Matches(t)
  {
    hide Reachable, IsOrdered, AskedBy, CheckFilter, Filter.Valid, Filter.Matches, Newest;
    Begun(db, next, nextVersion, followers, DeleteMatching(f), locks);
    var tx := Tx(DeleteMatching(f), locks, |locks|, next, Idle);
    var end := tx.(work := Swept(Matching(db.tuples, f)));
    Works(db, next + 1, nextVersion, followers, tx, Sweep, end);
    Ends(db, next + 1, nextVersion, followers, end);
    db' := Committed(db, end);
  }

  // ---- Schemas ----

  lemma {:induction false} Tries(db: Tables, next: Xid, nextVersion: nat, followers: map<nat, Follower>, tx: Tx)
    requires Reachable(Alone(db, next, nextVersion, followers, tx)) && tx.request.WriteSchema? && tx.work.Comparing?
    requires tx.work.tried <= |tx.work.filters| && forall i :: 0 <= i < |tx.work.filters| ==> NoneMatch(db.tuples, tx.work.filters[i])
    ensures Reachable(Alone(db, next, nextVersion, followers, tx.(work := Comparing(tx.work.filters, |tx.work.filters|))))
    decreases |tx.work.filters| - tx.work.tried
  {
    hide Reachable, NoneMatch;
    if tx.work.tried < |tx.work.filters| {
      var on := tx.(work := Comparing(tx.work.filters, tx.work.tried + 1));
      Works(db, next, nextVersion, followers, tx, Try, on);
      Tries(db, next, nextVersion, followers, on);
    }
  }

  /** A schema that accepts every tuple stored can be written over any other, whatever it drops besides. */
  lemma SchemaCommits(db: Tables, next: Xid, nextVersion: nat, followers: map<nat, Follower>, schema: NamedSchema,
                      filters: seq<Filter>, locks: seq<Lock>) returns (db': Tables)
    requires Reachable(Resting(db, next, nextVersion, followers)) && next != NO_XID
    requires schema.WellFormed() && AllAccepted(schema, db.tuples) && IsOrdered(AskedBy(WriteSchema(schema)), locks)
    requires if db.versions == [] then filters == [] else Covers(Newest(db.versions).schema, schema, filters)
    ensures Reachable(Resting(db', next + 1, nextVersion + 1, followers))
    ensures db'.tuples == db.tuples && db'.marks == db.marks && db'.versions == db.versions + [Version(nextVersion, next, schema)]
  {
    forall i | 0 <= i < |filters| ensures NoneMatch(db.tuples, filters[i]) { NoneDropped(db, next, nextVersion, followers, schema, filters, i); }
    hide Reachable, IsOrdered, AskedBy, NamedSchema.WellFormed, Covers, NoneMatch, Newest, AllAccepted;
    var r := WriteSchema(schema);
    Begun(db, next, nextVersion, followers, r, locks);
    var tx := Tx(r, locks, |locks|, next, Idle);
    var on := tx.(work := Comparing(filters, 0));
    Works(db, next + 1, nextVersion, followers, tx, Compare(filters), on);
    Tries(db, next + 1, nextVersion, followers, on);
    db' := Inserts(db, next + 1, nextVersion, followers, tx.(work := Comparing(filters, |filters|)));
  }

  lemma Inserts(db: Tables, next: Xid, nextVersion: nat, followers: map<nat, Follower>, tx: Tx) returns (db': Tables)
    requires Reachable(Alone(db, next, nextVersion, followers, tx)) && tx.request.WriteSchema? && tx.xid != NO_XID
    requires tx.work.Comparing? && tx.work.tried == |tx.work.filters|
    ensures Reachable(Resting(db', next, nextVersion + 1, followers))
    ensures db'.tuples == db.tuples && db'.marks == db.marks
    ensures db'.versions == db.versions + [Version(nextVersion, tx.xid, tx.request.schema)]
  {
    hide Reachable;
    var end := tx.(work := Inserted(nextVersion));
    assert Alone(db, next, nextVersion, followers, tx).live[0 := end] == map[0 := end];
    Moves(Alone(db, next, nextVersion, followers, tx), Insert, Alone(db, next, nextVersion + 1, followers, end));
    Ends(db, next, nextVersion + 1, followers, end);
    db' := Committed(db, end);
  }

  /** No tuple stored meets a filter for what is dropped, if the new schema accepts them all. */
  lemma NoneDropped(db: Tables, next: Xid, nextVersion: nat, followers: map<nat, Follower>, schema: NamedSchema, filters: seq<Filter>,
                    i: nat)
    requires Reachable(Resting(db, next, nextVersion, followers)) && AllAccepted(schema, db.tuples) && i < |filters|
    requires db.versions != [] && Covers(Newest(db.versions).schema, schema, filters)
    ensures NoneMatch(db.tuples, filters[i])
  {
    hide Init, Enabled, Do, Filter.Matches, NamedSchema.Accepts, Newest, Tuple.Valid;
    var states, steps :| Reaches(states, steps, Resting(db, next, nextVersion, followers));
    forall t | t in db.tuples ensures !filters[i].Matches(t) {
      Feed.NewestSchemaAcceptsAll(states, steps, |states| - 1, t);
      assert filters[i].Matches(t) ==> SomeMatches(filters, t);
    }
  }

  // ---- Prunes ----

  /** A prune can be run at any time: it changes no tuple and no schema, and cuts the log and the marks at a mark of its own
      or one made before, whichever is the newest old enough. */
  lemma PruneCommits(db: Tables, next: Xid, nextVersion: nat, followers: map<nat, Follower>, now: int, keep: int, locks: seq<Lock>)
    returns (db': Tables)
    requires Reachable(Resting(db, next, nextVersion, followers)) && next != NO_XID && IsOrdered(AskedBy(Prune(now, keep)), locks)
    ensures Reachable(Resting(db', next + 1, nextVersion, followers)) && db'.tuples == db.tuples && db'.versions == db.versions
    ensures Feed.CutAt(db, next, now, keep, db')
  {
    hide Reachable, IsOrdered, AskedBy, Feed.CutAt, CutBefore;
    var r := Prune(now, keep);
    Begun(db, next, nextVersion, followers, r, locks);
    var tx := Tx(r, locks, |locks|, next, Idle);
    OwnMark(db, next, nextVersion, followers, tx);
    var lines, gone := OldLines(db, r, next), OldMarks(db, r, next);
    var a, b, end := tx.(work := Marked(next)), tx.(work := CutLines(next, lines)), tx.(work := CutMarks(next, lines, gone));
    Works(db, next + 1, nextVersion, followers, tx, Mark, a);
    Works(db, next + 1, nextVersion, followers, a, CutLog, b);
    Works(db, next + 1, nextVersion, followers, b, CutMark, end);
    hide OldLines, OldMarks;
    Ends(db, next + 1, nextVersion, followers, end);
    PruneCuts(db, next + 1, nextVersion, followers, end);
    db' := Committed(db, end);
  }

  lemma OwnMark(db: Tables, next: Xid, nextVersion: nat, followers: map<nat, Follower>, tx: Tx)
    requires tx.xid == next != NO_XID
    ensures Now(Alone(db, next + 1, nextVersion, followers, tx)).xmin == next
  {
    var live := map[0 := tx];
    assert 0 in live && live[0].xid == next;
    assert Running(live) == {next};
  }

  lemma PruneCuts(db: Tables, next: Xid, nextVersion: nat, followers: map<nat, Follower>, tx: Tx)
    requires Reachable(Alone(db, next, nextVersion, followers, tx)) && tx.request.Prune? && Finished(tx)
    ensures Feed.CutAt(db, tx.work.mark, tx.request.now, tx.request.keep, Committed(db, tx))
  {
    hide Init, Committed, Feed.CutAt;
    var s := Alone(db, next, nextVersion, followers, tx);
    var states, steps :| Reaches(states, steps, s);
    GoesOn(states, steps, s, Finish(0));
    var more := states + [Do(s, Finish(0))];
    assert more[|steps|] == s && more[|steps| + 1] == Do(s, Finish(0));
    hide Enabled, Do;
    Feed.PruneCutsOnce(more, steps + [Finish(0)], |steps|);
  }

  // ---- Readers ----

  /** A follower that reads holds what is committed, by a snapshot at any time and by the changes as long as the first mark
      is kept. */
  lemma Reads(db: Tables, next: Xid, nextVersion: nat, followers: map<nat, Follower>, delta: bool) returns (f: Follower)
    requires Reachable(Resting(db, next, nextVersion, followers)) && (delta ==> 0 in followers && 0 in db.marks)
    ensures Reachable(Resting(db, next, nextVersion, followers[0 := f]))
    ensures f.tuples == db.tuples && f.schema == Latest(db.versions)
  {
    var s := Resting(db, next, nextVersion, followers);
    var step := if delta then ReadChanges(0) else ReadSnapshot(0);
    assert Enabled(s, step);
    Goes(s, step);
    f := Do(s, step).followers[0];
    var states, steps :| Reaches(states, steps, s);
    GoesOn(states, steps, s, step);
    hide Enabled, Do, Init;
    Feed.ReadBringsUpToDate(states + [Do(s, step)], steps + [step], |steps|);
    assert (states + [Do(s, step)])[|steps| + 1] == Do(s, step);
  }

  // ---- From the first schema on ----

  const FRESH := Tables({}, {}, map[0 := Always], [], [])

  lemma SchemaWritten(schema: NamedSchema, locks: seq<Lock>) returns (db: Tables)
    requires schema.WellFormed() && IsOrdered(AskedBy(WriteSchema(schema)), locks)
    ensures Reachable(Resting(db, FIRST_XID + 1, 1, map[])) && db.tuples == {} && db.versions == [Version(0, FIRST_XID, schema)]
    ensures 0 in db.marks
  {
    hide NamedSchema.WellFormed, IsOrdered, AskedBy;
    Starts(Resting(FRESH, FIRST_XID, 0, map[]));
    db := SchemaCommits(FRESH, FIRST_XID, 0, map[], schema, [], locks);
  }

  /** Some run writes schema, stores t under it, shows both to a follower, deletes t by a write, and shows the follower that
      it is gone, as a change. */
  ghost predicate ComesAndGoes(schema: NamedSchema, t: Tuple, held: State, gone: State) {
    && Reachable(held) && 0 in held.followers && held.followers[0].tuples == {t} && held.followers[0].schema == InForce(schema)
    && Reachable(gone) && 0 in gone.followers && gone.followers[0].tuples == {} && gone.followers[0].schema == InForce(schema)
  }

  lemma WrittenOne(before: set<Tuple>, op: Op, t: Tuple, after: set<Tuple>)
    requires (op == Touch || op == Delete) && Written(before, [Update(op, t)], 1, after)
    ensures after == if op == Touch then before + {t} else before - {t}
  {
    var updates := [Update(op, t)];
    forall x ensures x in after <==> if op == Touch then x in before || x == t else x in before && x != t {
      assert updates[0] == Update(op, t);
    }
  }

  lemma TupleComesAndGoes(schema: NamedSchema, t: Tuple, schemaLocks: seq<Lock>, touchLocks: seq<Lock>, deleteLocks: seq<Lock>)
    requires schema.WellFormed() && t.Valid() && schema.Accepts(t)
    requires IsOrdered(AskedBy(WriteSchema(schema)), schemaLocks)
    requires IsOrdered(AskedBy(Write([Update(Touch, t)])), touchLocks)
    requires IsOrdered(AskedBy(Write([Update(Delete, t)])), deleteLocks)
    ensures exists held, gone :: ComesAndGoes(schema, t, held, gone)
  {
    hide Reachable, IsOrdered, AskedBy, Tuple.Valid, NamedSchema.WellFormed, NamedSchema.Accepts;
    var a := SchemaWritten(schema, schemaLocks);
    var b := WriteCommits(a, FIRST_XID + 1, 1, map[], [Update(Touch, t)], touchLocks);
    WrittenOne({}, Touch, t, b.tuples);
    var f := Reads(b, FIRST_XID + 2, 1, map[], false);
    var held := Resting(b, FIRST_XID + 2, 1, map[0 := f]);
    assert map[][0 := f] == map[0 := f];
    var c := WriteCommits(b, FIRST_XID + 2, 1, map[0 := f], [Update(Delete, t)], deleteLocks);
    WrittenOne({t}, Delete, t, c.tuples);
    var g := Reads(c, FIRST_XID + 3, 1, map[0 := f], true);
    assert map[0 := f][0 := g] == map[0 := g];
    assert ComesAndGoes(schema, t, held, Resting(c, FIRST_XID + 3, 1, map[0 := g]));
  }
}
