/** What holds of the store in every reachable state, and that each step keeps it. */
module Invariant {
  import opened Tuples
  import opened Locks
  import opened Database

  // ---- Locks ----

  ghost predicate HeldApart(a: Tx, b: Tx)
    requires a.got <= |a.locks| && b.got <= |b.locks|
  {
    forall i, j :: 0 <= i < a.got && 0 <= j < b.got ==> !Conflict(a.locks[i], b.locks[j])
  }

  ghost predicate LockOk(tx: Tx) {
    && IsOrdered(AskedBy(tx.request), tx.locks) && tx.got <= |tx.locks|
    && (tx.work.Idle? || tx.got == |tx.locks|)
  }

  ghost predicate LocksOk(live: map<TxId, Tx>) {
    && (forall id :: id in live ==> LockOk(live[id]))
    && (forall a, b :: a in live && b in live && a != b ==> HeldApart(live[a], live[b]))
  }

  // ---- Transaction ids and marks ----

  ghost predicate XidsOk(live: map<TxId, Tx>, next: Xid) {
    && next > NO_XID
    && (forall id :: id in live ==> live[id].xid < next)
    && (forall a, b :: a in live && b in live && a != b && live[a].xid != NO_XID ==> live[a].xid != live[b].xid)
  }

  /** Every commit is older than next and none is still running. */
  ghost predicate EndedOk(history: seq<Commit>, live: map<TxId, Tx>, next: Xid) {
    forall i :: 0 <= i < |history| ==> NO_XID != history[i].xid < next && history[i].xid !in Running(live)
  }

  /** Every mark, also one not yet committed, is no later than any running transaction. */
  ghost predicate Settled(mark: Xid, running: set<Xid>, next: Xid) {
    mark <= next && forall x :: x in running ==> mark <= x
  }

  ghost predicate MarksOk(marks: map<Xid, Time>, live: map<TxId, Tx>, next: Xid) {
    && marks.Keys != {}
    && (forall m :: m in marks ==> Settled(m, Running(live), next))
    && (forall id, m :: id in live && m in live[id].Marks() ==> Settled(m, Running(live), next))
  }

  // ---- The log ----

  predicate InHistory(history: seq<Commit>, l: Line) {
    exists i :: 0 <= i < |history| && history[i].xid == l.xid && l.tuple in history[i].added + history[i].removed
  }

  /** Nothing written from the oldest mark on is missing, and every line has its writer. */
  ghost predicate LogOk(log: set<Line>, marks: map<Xid, Time>, history: seq<Commit>) {
    && (forall l :: l in log ==> InHistory(history, l))
    && (forall l, m :: InHistory(history, l) && m in marks && m <= l.xid ==> l in log)
  }

  // ---- Schemas, tuples and history ----

  ghost predicate Ascends(versions: seq<Version>) {
    forall i, j :: 0 <= i < j < |versions| ==> versions[i].version < versions[j].version
  }

  ghost predicate Below(versions: seq<Version>, version: nat) { forall v :: v in versions ==> v.version < version }

  /** Every stored tuple is valid and the newest schema accepts it; none is stored before there is a schema. */
  ghost predicate TuplesFit(tuples: set<Tuple>, schema: InForce) {
    && (forall t :: t in tuples ==> t.Valid())
    && if schema.Unwritten? then tuples == {} else AllAccepted(schema.schema, tuples)
  }

  ghost predicate SchemasOk(db: Tables, nextVersion: nat) {
    && Ascends(db.versions) && Below(db.versions, nextVersion)
    && TuplesFit(db.tuples, Latest(db.versions))
  }

  function TuplesAfter(history: seq<Commit>): set<Tuple> {
    if history == [] then {}
    else
      var last := history[|history| - 1];
      TuplesAfter(history[..|history| - 1]) - last.removed + last.added
  }

  function VersionsAfter(history: seq<Commit>): seq<Version> {
    if history == [] then []
    else VersionsAfter(history[..|history| - 1]) + history[|history| - 1].versions
  }

  ghost predicate HistoryOk(db: Tables) {
    && TuplesAfter(db.history) == db.tuples
    && VersionsAfter(db.history) == db.versions
    && (forall i, v :: 0 <= i < |db.history| && v in db.history[i].versions ==> v.xid == db.history[i].xid)
    && (forall i :: 0 <= i < |db.history| ==> AllValid(db.history[i].added) && AllValid(db.history[i].removed))
  }

  ghost predicate AllValid(tuples: set<Tuple>) { forall t :: t in tuples ==> t.Valid() }

  // ---- Work in progress ----

  function TouchedBy(updates: seq<Update>, n: nat): set<Tuple>
    requires n <= |updates|
  {
    set i | 0 <= i < n && updates[i].op.Touch? :: updates[i].tuple
  }

  function DeletedBy(updates: seq<Update>, n: nat): set<Tuple>
    requires n <= |updates|
  {
    set i | 0 <= i < n && !updates[i].op.Touch? :: updates[i].tuple
  }

  /** What each statement run so far did, against the tables as they stand now: nobody else has changed what it rests on. */
  ghost predicate WorkOk(tx: Tx, db: Tables, nextVersion: nat) {
    && (tx.Changed() != {} ==> tx.xid != NO_XID)
    && match tx.work
       case Idle => true
       case Writing(done, adds, dels) => tx.request.Write? && WritingOk(tx.request.updates, done, adds, dels, db)
       case Swept(dels) => tx.request.DeleteMatching? && dels == Matching(db.tuples, tx.request.filter)
       case Comparing(filters, tried) => tx.request.WriteSchema? && ComparingOk(tx.request.schema, filters, tried, db)
       case Inserted(version) =>
         tx.request.WriteSchema? && tx.xid != NO_XID && AllAccepted(tx.request.schema, db.tuples)
         && Below(db.versions, version) && version < nextVersion
       case Marked(mark) => tx.request.Prune? && AfterMarks(mark, db)
       case CutLines(mark, lines) => tx.request.Prune? && AfterMarks(mark, db) && lines == OldLines(db, tx.request, mark)
       case CutMarks(mark, lines, gone) =>
         tx.request.Prune? && AfterMarks(mark, db) && lines == OldLines(db, tx.request, mark) && gone == OldMarks(db, tx.request, mark)
  }

  ghost predicate WritingOk(updates: seq<Update>, done: nat, adds: set<Tuple>, dels: set<Tuple>, db: Tables) {
    && db.versions != [] && Acceptable(Newest(db.versions).schema, updates) && done <= |updates|
    && adds == TouchedBy(updates, done) - db.tuples && dels == DeletedBy(updates, done) * db.tuples
  }

  ghost predicate ComparingOk(next: NamedSchema, filters: seq<Filter>, tried: nat, db: Tables) {
    && (if db.versions == [] then filters == [] else Covers(Newest(db.versions).schema, next, filters))
    && tried <= |filters| && forall i :: 0 <= i < tried ==> NoneMatch(db.tuples, filters[i])
  }

  ghost predicate AfterMarks(mark: Xid, db: Tables) { forall m :: m in db.marks ==> m <= mark }

  ghost predicate AllWorkOk(live: map<TxId, Tx>, db: Tables, nextVersion: nat) {
    forall id :: id in live ==> WorkOk(live[id], db, nextVersion)
  }

  // ---- Followers ----

  /** A revision divides the history: it sees the first at commits, and none after. */
  ghost predicate Divides(rev: Snap, history: seq<Commit>, at: nat) {
    && at <= |history|
    && (forall i :: 0 <= i < at ==> rev.Sees(history[i].xid))
    && (forall i :: at <= i < |history| ==> !rev.Sees(history[i].xid))
  }

  /** A follower holds exactly what the commits its revision sees add up to, and that data fits its schema. */
  ghost predicate FollowerOk(f: Follower, history: seq<Commit>) {
    && Divides(f.rev, history, f.at)
    && f.tuples == TuplesAfter(history[..f.at])
    && f.schema == Latest(VersionsAfter(history[..f.at]))
    && TuplesFit(f.tuples, f.schema)
    && (forall m :: m in f.marks ==> m <= f.rev.xmin)
  }

  ghost predicate FollowersOk(followers: map<nat, Follower>, history: seq<Commit>) {
    forall r :: r in followers ==> FollowerOk(followers[r], history)
  }

  /** No running transaction, and none still to come, is seen by a revision already given out. */
  ghost predicate Unfinished(rev: Snap, running: set<Xid>, next: Xid) {
    rev.xmax <= next && rev.xmin <= next && forall x :: x in running ==> !rev.Sees(x)
  }

  ghost predicate RevisionsOk(followers: map<nat, Follower>, live: map<TxId, Tx>, next: Xid) {
    forall r :: r in followers ==> Unfinished(followers[r].rev, Running(live), next)
  }

  // ---- All of it ----

  ghost predicate Inv(s: State) {
    && LocksOk(s.live)
    && XidsOk(s.live, s.next)
    && EndedOk(s.db.history, s.live, s.next)
    && MarksOk(s.db.marks, s.live, s.next)
    && LogOk(s.db.log, s.db.marks, s.db.history)
    && SchemasOk(s.db, s.nextVersion)
    && HistoryOk(s.db)
    && AllWorkOk(s.live, s.db, s.nextVersion)
    && FollowersOk(s.followers, s.db.history)
    && RevisionsOk(s.followers, s.live, s.next)
  }
}
