/** Commits and reads keep the invariant, and so it holds in every state of every run. */
module Commits {
  import opened Tuples
  import opened Locks
  import opened Database
  import opened Invariant
  import opened Steps

  // ---- What a commit changes ----

  /** A transaction changes only tuples its request names or matches. */
  lemma ChangedMayChange(tx: Tx, db: Tables, nextVersion: nat, t: Tuple)
    requires WorkOk(tx, db, nextVersion) && t in tx.Changed()
    ensures MayChange(tx.request, t) && !tx.work.Idle? && (tx.request.Write? || tx.request.DeleteMatching?)
  {
  }

  /** What another transaction has done rests on no tuple this one changes. */
  lemma ChangesApart(live: map<TxId, Tx>, a: TxId, b: TxId, db: Tables, nextVersion: nat, t: Tuple)
    requires LocksOk(live) && AllWorkOk(live, db, nextVersion) && a in live && b in live && a != b
    requires t in live[a].Changed() && !live[b].work.Idle?
    ensures !MayChange(live[b].request, t)
  {
    hide AllWorkOk, LocksOk, Clash, MayChange, WorkOk, IsOrdered;
    assert WorkOk(live[a], db, nextVersion) by { Each(live, a, db, nextVersion); }
    ChangedMayChange(live[a], db, nextVersion, t);
    HoldsAll(live, a);
    HoldsAll(live, b);
    FullyHeldApart(live, a, b);
    if MayChange(live[b].request, t) {
      MutualExclusion(live[a].request, live[b].request, t, live[a].locks, live[b].locks);
    }
  }

  lemma Each(live: map<TxId, Tx>, id: TxId, db: Tables, nextVersion: nat)
    requires AllWorkOk(live, db, nextVersion) && id in live
    ensures WorkOk(live[id], db, nextVersion)
  {
  }

  lemma HoldsAll(live: map<TxId, Tx>, id: TxId)
    requires LocksOk(live) && id in live && !live[id].work.Idle?
    ensures live[id].got == |live[id].locks|
  {
  }

  // ---- Others' work ----

  /** A commit that changes tuples leaves standing what the others have done. */
  lemma TuplesCommitKeepsWork(s: State, a: TxId, b: TxId)
    requires LocksOk(s.live) && AllWorkOk(s.live, s.db, s.nextVersion) && a in s.live && b in s.live && a != b
    requires MarksOk(s.db.marks, s.live, s.next)
    requires Finished(s.live[a]) && (s.live[a].request.Write? || s.live[a].request.DeleteMatching?)
    ensures WorkOk(s.live[b], Committed(s.db, s.live[a]), s.nextVersion)
  {
    hide AllWorkOk, LocksOk, MarksOk;
    Each(s.live, a, s.db, s.nextVersion);
    Each(s.live, b, s.db, s.nextVersion);
    var tx, other, db, db' := s.live[a], s.live[b], s.db, Committed(s.db, s.live[a]);
    forall t | t in tx.Changed() && !other.work.Idle? ensures !MayChange(other.request, t) {
      ChangesApart(s.live, a, b, db, s.nextVersion, t);
    }
    match other.work
    case Idle =>
    case Writing(_, _, _) => WritingStands(tx, other, db, s.nextVersion);
    case Swept(_) => SweptStands(tx, other, db, s.nextVersion);
    case Comparing(_, _) => SchemaWriteAlone(s, a, b); OnlyRemoves(tx, db, s.nextVersion); ComparingStands(tx, other, db, s.nextVersion);
    case Inserted(_) => SchemaWriteAlone(s, a, b); OnlyRemoves(tx, db, s.nextVersion); ComparingStands(tx, other, db, s.nextVersion);
    case _ => PruneStands(s, a, b);
  }

  lemma WritingStands(tx: Tx, other: Tx, db: Tables, nextVersion: nat)
    requires other.work.Writing? && WorkOk(other, db, nextVersion)
    requires !tx.work.Inserted? && forall t :: t in tx.Changed() ==> !MayChange(other.request, t)
    ensures WorkOk(other, Committed(db, tx), nextVersion)
  {
    hide Acceptable;
    var db', updates, done := Committed(db, tx), other.request.updates, other.work.done;
    assert db'.versions == db.versions;
    forall t | t in TouchedBy(updates, done) + DeletedBy(updates, done) ensures t in db.tuples <==> t in db'.tuples {
      var i :| 0 <= i < done && updates[i].tuple == t;
      assert Updated(updates, t);
    }
  }

  lemma SweptStands(tx: Tx, other: Tx, db: Tables, nextVersion: nat)
    requires other.work.Swept? && WorkOk(other, db, nextVersion)
    requires !tx.work.Inserted? && forall t :: t in tx.Changed() ==> !MayChange(other.request, t)
    ensures WorkOk(other, Committed(db, tx), nextVersion)
  {
  }

  /** A schema write that has looked at the tables runs beside no write that has. */
  lemma SchemaWriteAlone(s: State, a: TxId, b: TxId)
    requires LocksOk(s.live) && AllWorkOk(s.live, s.db, s.nextVersion) && a in s.live && b in s.live && a != b
    requires !s.live[a].work.Idle? && !s.live[b].work.Idle? && s.live[b].request.WriteSchema?
    ensures !s.live[a].request.Write? && !s.live[a].request.WriteSchema?
  {
    hide AllWorkOk, LocksOk, IsOrdered, Clash;
    HoldsAll(s.live, a);
    HoldsAll(s.live, b);
    FullyHeldApart(s.live, a, b);
    if s.live[a].request.Write? || s.live[a].request.WriteSchema? {
      SchemaExclusion(s.live[b].request, s.live[a].request, s.live[b].locks, s.live[a].locks);
      ClashSymmetric(s.live[b].locks, s.live[a].locks);
    }
  }

  lemma ClashSymmetric(a: seq<Lock>, b: seq<Lock>)
    requires Clash(a, b)
    ensures Clash(b, a)
  {
  }

  lemma OnlyRemoves(tx: Tx, db: Tables, nextVersion: nat)
    requires !tx.request.Write? && WorkOk(tx, db, nextVersion)
    ensures View(db.tuples, tx) <= db.tuples
  {
  }

  lemma ComparingStands(tx: Tx, other: Tx, db: Tables, nextVersion: nat)
    requires (other.work.Comparing? || other.work.Inserted?) && WorkOk(other, db, nextVersion)
    requires !tx.work.Inserted? && View(db.tuples, tx) <= db.tuples
    ensures WorkOk(other, Committed(db, tx), nextVersion)
  {
    hide Covers, Filter.Matches, NamedSchema.Accepts;
    assert Committed(db, tx).versions == db.versions;
  }

  /** The lines a commit adds are past every cut a prune could have found. */
  lemma PruneStands(s: State, a: TxId, b: TxId)
    requires AllWorkOk(s.live, s.db, s.nextVersion) && a in s.live && b in s.live && a != b
    requires MarksOk(s.db.marks, s.live, s.next)
    requires s.live[b].work.Marked? || s.live[b].work.CutLines? || s.live[b].work.CutMarks?
    requires !s.live[a].work.CutMarks?
    ensures WorkOk(s.live[b], Committed(s.db, s.live[a]), s.nextVersion)
  {
    hide AllWorkOk, MarksOk, CutBefore;
    Each(s.live, a, s.db, s.nextVersion);
    Each(s.live, b, s.db, s.nextVersion);
    var tx, other, db, db' := s.live[a], s.live[b], s.db, Committed(s.db, s.live[a]);
    forall l | l in db'.log && l !in db.log ensures !CutBefore(db.marks, other.request, other.work.mark, l.xid) {
      assert l.xid == tx.xid && tx.xid != NO_XID;
      RunningNotCut(s, b, tx.xid);
    }
    assert db'.marks == db.marks;
    assert OldLines(db', other.request, other.work.mark) == OldLines(db, other.request, other.work.mark);
  }

  lemma RunningNotCut(s: State, b: TxId, x: Xid)
    requires b in s.live && s.live[b].request.Prune? && MarksOk(s.db.marks, s.live, s.next) && x in Running(s.live)
    requires s.live[b].work.Marked? || s.live[b].work.CutLines? || s.live[b].work.CutMarks?
    ensures !CutBefore(s.db.marks, s.live[b].request, s.live[b].work.mark, x)
  {
    hide Running;
    var r, mark := s.live[b].request, s.live[b].work.mark;
    var marks := WithMark(s.db.marks, mark, r.now);
    forall m | m in marks ensures m <= x {
      assert mark in s.live[b].Marks();
      assert Settled(m, Running(s.live), s.next);
    }
    if Eligible(marks, r.now - r.keep) != {} { assert Greatest(Eligible(marks, r.now - r.keep)) in marks; }
  }

  lemma SchemaCommitKeepsWork(s: State, a: TxId, b: TxId)
    requires LocksOk(s.live) && AllWorkOk(s.live, s.db, s.nextVersion) && a in s.live && b in s.live && a != b
    requires MarksOk(s.db.marks, s.live, s.next)
    requires Finished(s.live[a]) && s.live[a].request.WriteSchema?
    ensures WorkOk(s.live[b], Committed(s.db, s.live[a]), s.nextVersion)
  {
    hide AllWorkOk, LocksOk, MarksOk;
    Each(s.live, a, s.db, s.nextVersion);
    Each(s.live, b, s.db, s.nextVersion);
    var tx, other := s.live[a], s.live[b];
    if !other.work.Idle? { SchemaWriteAlone(s, b, a); }
    match other.work
    case Idle =>
    case Swept(_) => assert View(s.db.tuples, tx) == s.db.tuples;
    case Writing(_, _, _) =>
    case Comparing(_, _) =>
    case Inserted(_) =>
    case _ => PruneStands(s, a, b);
  }

  lemma PruneCommitKeepsWork(s: State, a: TxId, b: TxId)
    requires LocksOk(s.live) && AllWorkOk(s.live, s.db, s.nextVersion) && a in s.live && b in s.live && a != b
    requires Finished(s.live[a]) && s.live[a].request.Prune?
    ensures WorkOk(s.live[b], Committed(s.db, s.live[a]), s.nextVersion)
  {
    hide AllWorkOk, LocksOk, IsOrdered, Clash, Acceptable, Covers, AllAccepted, OldLines, OldMarks;
    Each(s.live, a, s.db, s.nextVersion);
    Each(s.live, b, s.db, s.nextVersion);
    var tx, other := s.live[a], s.live[b];
    assert View(s.db.tuples, tx) == s.db.tuples && Committed(s.db, tx).versions == s.db.versions;
    if other.request.Prune? && !other.work.Idle? {
      HoldsAll(s.live, a);
      HoldsAll(s.live, b);
      FullyHeldApart(s.live, a, b);
      SchemaExclusion(tx.request, other.request, tx.locks, other.locks);
    }
  }

  lemma FinishKeepsWork(s: State, id: TxId)
    requires LocksOk(s.live) && AllWorkOk(s.live, s.db, s.nextVersion) && id in s.live
    requires MarksOk(s.db.marks, s.live, s.next) && Finished(s.live[id])
    ensures AllWorkOk(s.live - {id}, Committed(s.db, s.live[id]), s.nextVersion)
  {
    hide AllWorkOk, LocksOk, MarksOk, WorkOk, Finished, Committed;
    var live' := s.live - {id};
    forall o | o in live' ensures WorkOk(live'[o], Committed(s.db, s.live[id]), s.nextVersion) {
      match s.live[id].request
      case WriteSchema(_) => SchemaCommitKeepsWork(s, id, o);
      case Prune(_, _) => PruneCommitKeepsWork(s, id, o);
      case _ => TuplesCommitKeepsWork(s, id, o);
    }
    Collect(live', Committed(s.db, s.live[id]), s.nextVersion);
  }

  lemma Collect(live: map<TxId, Tx>, db: Tables, nextVersion: nat)
    requires forall id :: id in live ==> WorkOk(live[id], db, nextVersion)
    ensures AllWorkOk(live, db, nextVersion)
  {
  }

  // ---- The tables after a commit ----

  lemma InHistoryAfter(history: seq<Commit>, c: Commit, l: Line)
    ensures InHistory(history + [c], l) <==> InHistory(history, l) || (l.xid == c.xid && l.tuple in c.added + c.removed)
  {
    var history' := history + [c];
    if InHistory(history, l) {
      var i :| 0 <= i < |history| && history[i].xid == l.xid && l.tuple in history[i].added + history[i].removed;
      assert history'[i] == history[i];
    }
    if l.xid == c.xid && l.tuple in c.added + c.removed { assert history'[|history|] == c; }
  }

  lemma FinishKeepsEnded(s: State, id: TxId)
    requires id in s.live && XidsOk(s.live, s.next) && EndedOk(s.db.history, s.live, s.next)
    ensures EndedOk(Committed(s.db, s.live[id]).history, s.live - {id}, s.next)
  {
  }

  lemma FinishKeepsMarks(s: State, id: TxId)
    requires id in s.live && XidsOk(s.live, s.next) && MarksOk(s.db.marks, s.live, s.next)
    requires WorkOk(s.live[id], s.db, s.nextVersion) && Finished(s.live[id])
    ensures MarksOk(Committed(s.db, s.live[id]).marks, s.live - {id}, s.next)
  {
    RunningEnded(s.live, id, s.next);
    var tx := s.live[id];
    if tx.work.CutMarks? { CutStays(s.db, tx, s.nextVersion); }
    hide XidsOk, Running, CutBefore, OldLines, OldMarks;
    var live', marks' := s.live - {id}, Committed(s.db, tx).marks;
    forall m | m in marks' ensures Settled(m, Running(live'), s.next) {
      assert m in s.db.marks || m in tx.Marks();
      assert Settled(m, Running(s.live), s.next);
    }
    forall o, m | o in live' && m in live'[o].Marks() ensures Settled(m, Running(live'), s.next) {
      assert m in s.live[o].Marks() && Settled(m, Running(s.live), s.next);
    }
  }

  /** Dropping the marks before the cut leaves the cut itself. */
  lemma CutStays(db: Tables, tx: Tx, nextVersion: nat)
    requires tx.work.CutMarks? && WorkOk(tx, db, nextVersion)
    ensures NewMarks(db.marks, tx).Keys != {}
  {
    var r := tx.request;
    var marks := WithMark(db.marks, tx.work.mark, r.now);
    var eligible := Eligible(marks, r.now - r.keep);
    var stays := if eligible == {} then tx.work.mark else Greatest(eligible);
    assert stays in marks && stays !in tx.work.gone;
    assert stays in NewMarks(db.marks, tx);
  }

  /** A prune drops no line at or after a mark it leaves, and its own mark is no earlier than the oldest. */
  lemma PruneKeepsLog(db: Tables, tx: Tx, nextVersion: nat)
    requires tx.work.CutMarks? && WorkOk(tx, db, nextVersion) && LogOk(db.log, db.marks, db.history) && db.marks.Keys != {}
    ensures LogOk(NewLog(db.log, tx), NewMarks(db.marks, tx), db.history)
  {
  }

  lemma CommitKeepsLog(db: Tables, tx: Tx)
    requires LogOk(db.log, db.marks, db.history) && !tx.work.CutMarks? && tx.xid != NO_XID
    ensures LogOk(db.log + Lines(tx.xid, tx.Changed()), db.marks, db.history + [Commit(tx.xid, tx.Adds(), tx.Dels(), NewVersions(tx))])
  {
    var c := Commit(tx.xid, tx.Adds(), tx.Dels(), NewVersions(tx));
    forall l ensures InHistory(db.history + [c], l) <==> InHistory(db.history, l) || l in Lines(tx.xid, tx.Changed()) {
      InHistoryAfter(db.history, c, l);
    }
    hide InHistory;
  }

  lemma FinishKeepsLog(db: Tables, tx: Tx, nextVersion: nat)
    requires WorkOk(tx, db, nextVersion) && LogOk(db.log, db.marks, db.history) && db.marks.Keys != {}
    ensures LogOk(Committed(db, tx).log, Committed(db, tx).marks, Committed(db, tx).history)
  {
    if tx.work.CutMarks? {
      PruneKeepsLog(db, tx, nextVersion);
      if tx.xid != NO_XID {
        var c := Commit(tx.xid, {}, {}, []);
        forall l ensures InHistory(db.history + [c], l) <==> InHistory(db.history, l) { InHistoryAfter(db.history, c, l); }
        assert NewHistory(db.history, tx) == db.history + [c];
        hide InHistory, WorkOk;
      }
    } else if tx.xid != NO_XID {
      CommitKeepsLog(db, tx);
    } else {
      assert NewLog(db.log, tx) == db.log;
    }
  }

  // ---- Schemas and stored tuples after a commit ----

  lemma NewestLast(versions: seq<Version>)
    requires versions != [] && Ascends(versions)
    ensures Newest(versions) == versions[|versions| - 1]
  {
  }

  lemma AppendVersion(versions: seq<Version>, v: Version)
    requires Ascends(versions) && Below(versions, v.version)
    ensures Ascends(versions + [v]) && Newest(versions + [v]) == v
  {
  }

  lemma FinishKeepsSchemas(db: Tables, tx: Tx, nextVersion: nat)
    requires WorkOk(tx, db, nextVersion) && SchemasOk(db, nextVersion) && Finished(tx)
    ensures SchemasOk(Committed(db, tx), nextVersion)
  {
    hide OldLines, OldMarks, Covers, Acceptable, Matching;
    var db' := Committed(db, tx);
    match tx.work
    case Inserted(version) => SchemaCommitFits(db, tx, nextVersion);
    case Writing(_, adds, _) =>
      assert db'.versions == db.versions;
      forall t | t in adds ensures t.Valid() && Newest(db.versions).schema.Accepts(t) { AddsFit(tx, db, nextVersion, t); }
    case Swept(_) => assert db'.versions == db.versions && db'.tuples <= db.tuples;
    case CutMarks(_, _, _) => assert db'.versions == db.versions && db'.tuples <= db.tuples;
    case _ =>
  }

  lemma SchemaCommitFits(db: Tables, tx: Tx, nextVersion: nat)
    requires WorkOk(tx, db, nextVersion) && SchemasOk(db, nextVersion) && tx.work.Inserted?
    ensures SchemasOk(Committed(db, tx), nextVersion)
  {
    hide AllAccepted, Tuple.Valid;
    assert View(db.tuples, tx) == db.tuples;
    var v := Version(tx.work.version, tx.xid, tx.request.schema);
    AppendVersion(db.versions, v);
    assert Committed(db, tx).versions == db.versions + [v];
  }

  lemma AddsFit(tx: Tx, db: Tables, nextVersion: nat, t: Tuple)
    requires tx.work.Writing? && WorkOk(tx, db, nextVersion) && t in tx.work.adds
    ensures t.Valid() && Newest(db.versions).schema.Accepts(t)
  {
  }

  // ---- History and followers after a commit ----

  lemma HistoryAppends(history: seq<Commit>, c: Commit)
    ensures TuplesAfter(history + [c]) == TuplesAfter(history) - c.removed + c.added
    ensures VersionsAfter(history + [c]) == VersionsAfter(history) + c.versions
  {
  }

  lemma FinishKeepsHistory(db: Tables, tx: Tx, nextVersion: nat)
    requires WorkOk(tx, db, nextVersion) && HistoryOk(db) && SchemasOk(db, nextVersion)
    ensures HistoryOk(Committed(db, tx))
  {
    hide WorkOk, SchemasOk, AllValid, TuplesAfter, VersionsAfter, NewLog, NewMarks;
    ChangesValid(tx, db, nextVersion);
    if tx.xid != NO_XID {
      HistoryAppends(db.history, Commit(tx.xid, tx.Adds(), tx.Dels(), NewVersions(tx)));
    } else {
      NothingDone(tx, db, nextVersion);
    }
  }

  /** Without an id a transaction has changed nothing. */
  lemma NothingDone(tx: Tx, db: Tables, nextVersion: nat)
    requires WorkOk(tx, db, nextVersion) && tx.xid == NO_XID
    ensures View(db.tuples, tx) == db.tuples && NewVersions(tx) == []
  {
  }

  lemma ChangesValid(tx: Tx, db: Tables, nextVersion: nat)
    requires WorkOk(tx, db, nextVersion) && SchemasOk(db, nextVersion)
    ensures AllValid(tx.Adds()) && AllValid(tx.Dels())
  {
  }

  lemma FinishKeepsFollowers(s: State, id: TxId)
    requires id in s.live && FollowersOk(s.followers, s.db.history) && RevisionsOk(s.followers, s.live, s.next)
    ensures FollowersOk(s.followers, Committed(s.db, s.live[id]).history)
  {
    hide TuplesFit, Snap.Sees;
    var history, history' := s.db.history, Committed(s.db, s.live[id]).history;
    forall r | r in s.followers ensures FollowerOk(s.followers[r], history') {
      var f := s.followers[r];
      assert FollowerOk(f, history) && Unfinished(f.rev, Running(s.live), s.next);
      assert history'[..f.at] == history[..f.at];
    }
  }

  lemma FinishKeeps(s: State, id: TxId)
    requires Inv(s) && Enabled(s, Finish(id))
    ensures Inv(Do(s, Finish(id)))
  {
    var tx := s.live[id];
    Each(s.live, id, s.db, s.nextVersion);
    assert s.db.marks.Keys != {};
    hide LocksOk, XidsOk, EndedOk, MarksOk, LogOk, SchemasOk, HistoryOk, AllWorkOk, FollowersOk, RevisionsOk, WorkOk,
         Finished, Committed;
    EndKeepsLocks(s.live, id, s.next);
    EndKeepsXids(s, id);
    FinishKeepsEnded(s, id);
    FinishKeepsMarks(s, id);
    FinishKeepsLog(s.db, tx, s.nextVersion);
    FinishKeepsSchemas(s.db, tx, s.nextVersion);
    FinishKeepsHistory(s.db, tx, s.nextVersion);
    FinishKeepsWork(s, id);
    FinishKeepsFollowers(s, id);
  }

  // ---- Reads ----

  lemma ReadsNow(s: State, f: Follower)
    requires Inv(s) && f == ReadAll(s)
    ensures FollowerOk(f, s.db.history) && Unfinished(f.rev, Running(s.live), s.next)
  {
    hide LocksOk, LogOk, AllWorkOk, FollowersOk, RevisionsOk, TuplesFit, Ascends, Below;
    RunningBelow(s.live, s.next);
    var history := s.db.history;
    assert history[..|history|] == history;
    hide Running;
    forall m | m in f.marks ensures m <= f.rev.xmin { assert Settled(m, Running(s.live), s.next); }
  }

  function TouchedSince(history: seq<Commit>, at: nat): set<Tuple>
    requires at <= |history|
  {
    if at == |history| then {}
    else TouchedSince(history[..|history| - 1], at) + history[|history| - 1].added + history[|history| - 1].removed
  }

  /** A tuple no later commit touched stands as it stood. */
  lemma {:induction false} Drift(history: seq<Commit>, at: nat, t: Tuple)
    requires at <= |history| && t !in TouchedSince(history, at)
    ensures t in TuplesAfter(history) <==> t in TuplesAfter(history[..at])
    decreases |history|
  {
    if at == |history| {
      assert history[..at] == history;
    } else {
      var before := history[..|history| - 1];
      Drift(before, at, t);
      assert before[..at] == history[..at];
    }
  }

  lemma {:induction false} TouchedSinceIs(history: seq<Commit>, at: nat, t: Tuple)
    requires at <= |history|
    ensures t in TouchedSince(history, at) <==> exists i :: at <= i < |history| && t in history[i].added + history[i].removed
    decreases |history|
  {
    if at < |history| {
      var before := history[..|history| - 1];
      TouchedSinceIs(before, at, t);
      if i :| at <= i < |history| && t in history[i].added + history[i].removed {
        if i < |before| { assert before[i] == history[i]; }
      }
    }
  }

  /** A delta names exactly the tuples touched by the commits its revision does not see. */
  lemma DeltaIsComplete(db: Tables, rev: Snap, at: nat)
    requires LogOk(db.log, db.marks, db.history) && Divides(rev, db.history, at) && !Pruned(db.marks, rev)
    ensures Touched(db.log, rev) == TouchedSince(db.history, at)
  {
    var history := db.history;
    forall t ensures t in Touched(db.log, rev) <==> t in TouchedSince(history, at) {
      TouchedSinceIs(history, at, t);
      if t in Touched(db.log, rev) {
        var l :| l in db.log && !rev.Sees(l.xid) && l.tuple == t;
        var i :| 0 <= i < |history| && history[i].xid == l.xid && l.tuple in history[i].added + history[i].removed;
        assert i >= at;
      }
      if t in TouchedSince(history, at) {
        var i :| at <= i < |history| && t in history[i].added + history[i].removed;
        var l := Line(history[i].xid, t);
        assert InHistory(history, l);
        var m :| m in db.marks && m <= rev.xmin;
        assert l in db.log;
      }
    }
  }

  lemma {:induction false} UnseenAppend(a: seq<Version>, b: seq<Version>, rev: Snap)
    ensures Unseen(a + b, rev) == Unseen(a, rev) + Unseen(b, rev)
  {
    if a != [] {
      assert (a + b)[0] == a[0] && (a + b)[1..] == a[1..] + b;
      UnseenAppend(a[1..], b, rev);
    } else {
      assert a + b == b;
    }
  }

  lemma {:induction false} UnseenAll(versions: seq<Version>, rev: Snap, seen: bool)
    requires forall v :: v in versions ==> (rev.Sees(v.xid) <==> seen)
    ensures Unseen(versions, rev) == if seen then [] else versions
  {
    if versions != [] {
      assert versions[0] in versions;
      UnseenAll(versions[1..], rev, seen);
      assert versions == [versions[0]] + versions[1..];
    }
  }

  /** The rows a revision does not see are those the later commits wrote. */
  lemma {:induction false} UnseenSince(history: seq<Commit>, rev: Snap, at: nat)
    requires Divides(rev, history, at)
    requires forall i, v :: 0 <= i < |history| && v in history[i].versions ==> v.xid == history[i].xid
    ensures VersionsAfter(history[..at]) + Unseen(VersionsAfter(history), rev) == VersionsAfter(history)
    decreases |history|
  {
    if |history| > 0 {
      var before, last := history[..|history| - 1], history[|history| - 1];
      var rows := VersionsAfter(before);
      assert VersionsAfter(history) == rows + last.versions;
      hide VersionsAfter;
      UnseenAppend(rows, last.versions, rev);
      forall v | v in last.versions ensures v.xid == last.xid { assert v in history[|history| - 1].versions; }
      UnseenAll(last.versions, rev, |history| == at);
      hide Unseen, Snap.Sees;
      if at == |history| {
        assert history[..at] == history && before[..|before|] == before;
        UnseenSince(before, rev, |before|);
        assert Unseen(rows, rev) == [];
        assert VersionsAfter(history) + [] == VersionsAfter(history);
      } else {
        assert before[..at] == history[..at];
        UnseenSince(before, rev, at);
        Associates(VersionsAfter(history[..at]), Unseen(rows, rev), last.versions);
      }
    } else {
      assert history[..at] == history && VersionsAfter(history) == [];
    }
  }

  lemma Associates(a: seq<Version>, b: seq<Version>, c: seq<Version>)
    ensures a + (b + c) == (a + b) + c
  {
  }

  lemma LatestOfTail(a: seq<Version>, b: seq<Version>)
    requires b != [] && Ascends(a + b)
    ensures Latest(a + b) == Latest(b)
  {
    assert Ascends(b) by {
      forall i, j | 0 <= i < j < |b| ensures b[i].version < b[j].version { assert b[i] == (a + b)[|a| + i] && b[j] == (a + b)[|a| + j]; }
    }
    NewestLast(a + b);
    NewestLast(b);
  }

  /** Whatever its age, a follower that is not refused comes out as a fresh snapshot would. */
  lemma DeltaIsSnapshot(s: State, f: Follower)
    requires Inv(s) && FollowerOk(f, s.db.history) && !Pruned(s.db.marks, f.rev)
    ensures ReadDelta(s, f) == ReadAll(s)
  {
    hide LocksOk, XidsOk, EndedOk, MarksOk, AllWorkOk, FollowersOk, RevisionsOk, TuplesFit, Now, Below, Ascends;
    DeltaTuples(s.db, f);
    DeltaSchema(s.db, f, s.nextVersion);
  }

  lemma DeltaTuples(db: Tables, f: Follower)
    requires LogOk(db.log, db.marks, db.history) && HistoryOk(db) && FollowerOk(f, db.history) && !Pruned(db.marks, f.rev)
    ensures f.tuples - Touched(db.log, f.rev) + Touched(db.log, f.rev) * db.tuples == db.tuples
  {
    DeltaIsComplete(db, f.rev, f.at);
    hide LogOk, Touched, Pruned, VersionsAfter, TuplesFit, TuplesAfter, TouchedSince;
    forall t ensures t in f.tuples - Touched(db.log, f.rev) + Touched(db.log, f.rev) * db.tuples <==> t in db.tuples {
      if t !in Touched(db.log, f.rev) { Drift(db.history, f.at, t); }
    }
  }

  lemma DeltaSchema(db: Tables, f: Follower, nextVersion: nat)
    requires SchemasOk(db, nextVersion) && HistoryOk(db) && FollowerOk(f, db.history)
    ensures (if Unseen(db.versions, f.rev) == [] then f.schema else Latest(Unseen(db.versions, f.rev))) == Latest(db.versions)
  {
    UnseenSince(db.history, f.rev, f.at);
    hide Unseen, VersionsAfter, TuplesFit, TuplesAfter, Ascends, Latest;
    if Unseen(db.versions, f.rev) != [] {
      LatestOfTail(VersionsAfter(db.history[..f.at]), Unseen(db.versions, f.rev));
    } else {
      assert VersionsAfter(db.history[..f.at]) + [] == VersionsAfter(db.history[..f.at]);
    }
  }

  lemma ReadKeeps(s: State, step: Step)
    requires Inv(s) && Enabled(s, step) && (step.ReadSnapshot? || step.ReadChanges?)
    ensures Inv(Do(s, step)) && Do(s, step).followers[step.reader] == ReadAll(s)
  {
    hide LocksOk, XidsOk, EndedOk, MarksOk, LogOk, SchemasOk, HistoryOk, AllWorkOk, FollowerOk, Unfinished, ReadAll,
         ReadDelta, Pruned;
    ReadsNow(s, ReadAll(s));
    if step.ReadChanges? {
      assert FollowersOk(s.followers, s.db.history);
      DeltaIsSnapshot(s, s.followers[step.reader]);
    }
    hide Inv, FollowersOk;
    NewReader(s, step.reader, ReadAll(s));
  }

  lemma NewReader(s: State, r: nat, f: Follower)
    requires Inv(s) && FollowerOk(f, s.db.history) && Unfinished(f.rev, Running(s.live), s.next)
    ensures Inv(s.(followers := s.followers[r := f]))
  {
    hide LocksOk, XidsOk, EndedOk, MarksOk, LogOk, SchemasOk, HistoryOk, AllWorkOk, FollowerOk, Unfinished;
  }

  // ---- Every step, every run ----

  lemma InitHolds(s: State)
    requires Init(s)
    ensures Inv(s)
  {
    assert Running(s.live) == {};
    assert 0 in s.db.marks;
  }

  lemma StepKeeps(s: State, step: Step)
    requires Inv(s) && Enabled(s, step)
    ensures Inv(Do(s, step))
  {
    match step
    case Begin(_, _, _) => BeginKeeps(s, step);
    case Advance(id, move) => AdvanceKeeps(s, id, move);
    case Finish(id) => FinishKeeps(s, id);
    case Fail(id) => FailKeeps(s, id);
    case _ => ReadKeeps(s, step);
  }

  lemma {:induction false} EveryState(states: seq<State>, steps: seq<Step>, i: nat)
    requires Run(states, steps) && i < |states|
    ensures Inv(states[i])
  {
    hide Inv, Enabled, Do, Init;
    if i == 0 {
      InitHolds(states[0]);
    } else {
      EveryState(states, steps, i - 1);
      StepKeeps(states[i - 1], steps[i - 1]);
      assert states[i - 1 + 1] == Do(states[i - 1], steps[i - 1]);
    }
  }
}
