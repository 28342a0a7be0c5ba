/** Each step of the store keeps the invariant. */
module Steps {
  import opened Tuples
  import opened Locks
  import opened Database
  import opened Invariant

  // ---- Running transactions ----

  lemma RunningSame(live: map<TxId, Tx>, id: TxId, tx: Tx)
    requires if id in live then tx.xid == live[id].xid else tx.xid == NO_XID
    ensures Running(live[id := tx]) == Running(live)
  {
    forall x | x in Running(live) ensures x in Running(live[id := tx]) {
      var o :| o in live && live[o].xid == x && x != NO_XID;
      assert live[id := tx][o].xid == x;
    }
  }

  lemma RunningAssigned(live: map<TxId, Tx>, id: TxId, tx: Tx)
    requires id in live && live[id].xid == NO_XID != tx.xid
    ensures Running(live[id := tx]) == Running(live) + {tx.xid}
  {
    forall x | x in Running(live) + {tx.xid} ensures x in Running(live[id := tx]) {
      if x in Running(live) {
        var o :| o in live && live[o].xid == x && x != NO_XID;
        assert live[id := tx][o].xid == x;
      } else {
        assert live[id := tx][id].xid == x;
      }
    }
  }

  lemma RunningEnded(live: map<TxId, Tx>, id: TxId, next: Xid)
    requires id in live && XidsOk(live, next)
    ensures Running(live - {id}) <= Running(live)
    ensures live[id].xid != NO_XID ==> live[id].xid in Running(live) && live[id].xid !in Running(live - {id})
  {
  }

  lemma RunningBelow(live: map<TxId, Tx>, next: Xid)
    requires XidsOk(live, next)
    ensures forall x :: x in Running(live) ==> x < next
  {
  }

  // ---- Locks ----

  lemma LocksReplaced(live: map<TxId, Tx>, id: TxId, tx: Tx)
    requires LocksOk(live) && LockOk(tx)
    requires forall o :: o in live && o != id ==> HeldApart(live[o], tx)
    ensures LocksOk(live[id := tx])
  {
  }

  /** Two transactions that hold all their locks asked for none that conflict. */
  lemma FullyHeldApart(live: map<TxId, Tx>, a: TxId, b: TxId)
    requires LocksOk(live) && a in live && b in live && a != b
    requires live[a].got == |live[a].locks| && live[b].got == |live[b].locks|
    ensures IsOrdered(AskedBy(live[a].request), live[a].locks) && IsOrdered(AskedBy(live[b].request), live[b].locks)
    ensures !Clash(live[a].locks, live[b].locks)
  {
  }

  lemma AcquireKeepsLocks(s: State, id: TxId)
    requires LocksOk(s.live) && id in s.live && CanMove(s, id, Acquire)
    ensures LocksOk(s.live[id := Moved(s, id, Acquire)])
  {
    hide IsOrdered, Conflict;
    var tx, tx' := s.live[id], Moved(s, id, Acquire);
    forall o | o in s.live && o != id ensures HeldApart(s.live[o], tx') {
      assert HeldApart(s.live[o], tx);
      assert s.live[o].Free(tx.locks[tx.got]);
    }
    LocksReplaced(s.live, id, tx');
  }

  lemma MoveKeepsLocks(s: State, id: TxId, move: Move)
    requires LocksOk(s.live) && id in s.live && CanMove(s, id, move)
    ensures LocksOk(s.live[id := Moved(s, id, move)])
  {
    hide IsOrdered, Conflict, AskedBy, Alters, Acceptable, Covers, CutBefore, OldMarks;
    if move.Acquire? {
      AcquireKeepsLocks(s, id);
    } else {
      var tx, tx' := s.live[id], Moved(s, id, move);
      assert LockOk(tx);
      assert tx'.request == tx.request && tx'.locks == tx.locks && tx'.got == tx.got;
      forall o | o in s.live && o != id ensures HeldApart(s.live[o], tx') { assert HeldApart(s.live[o], tx); }
      LocksReplaced(s.live, id, tx');
    }
  }

  // ---- Ids, marks and revisions when a transaction moves ----

  function NextAfter(next: Xid, move: Move): Xid { if move.Assign? then next + 1 else next }

  /** Of a transaction that moves, only these can change. */
  lemma MovedFields(s: State, id: TxId, move: Move)
    requires id in s.live && CanMove(s, id, move)
    ensures Moved(s, id, move).xid == if move.Assign? then s.next else s.live[id].xid
    ensures move.Assign? ==> s.live[id].xid == NO_XID
    ensures Moved(s, id, move).Marks() == if move.Mark? then {Now(s).xmin} else s.live[id].Marks()
  {
  }

  lemma MoveKeepsXids(s: State, id: TxId, move: Move)
    requires XidsOk(s.live, s.next) && id in s.live && CanMove(s, id, move)
    ensures XidsOk(s.live[id := Moved(s, id, move)], NextAfter(s.next, move))
    ensures Running(s.live[id := Moved(s, id, move)]) == Running(s.live) + if move.Assign? then {s.next} else {}
  {
    MovedFields(s, id, move);
    hide CanMove, Moved;
    var tx := Moved(s, id, move);
    if move.Assign? { RunningAssigned(s.live, id, tx); } else { RunningSame(s.live, id, tx); }
    hide Running;
  }

  lemma NowSettled(s: State)
    requires XidsOk(s.live, s.next)
    ensures Settled(Now(s).xmin, Running(s.live), s.next)
  {
    RunningBelow(s.live, s.next);
  }

  lemma MoveKeepsMarks(s: State, id: TxId, move: Move)
    requires XidsOk(s.live, s.next) && MarksOk(s.db.marks, s.live, s.next) && id in s.live && CanMove(s, id, move)
    ensures MarksOk(s.db.marks, s.live[id := Moved(s, id, move)], NextAfter(s.next, move))
  {
    hide XidsOk, Running, CanMove, Moved, Now, Tx.Marks;
    MoveKeepsXids(s, id, move);
    MovedFields(s, id, move);
    RunningBelow(s.live, s.next);
    NowSettled(s);
    var live' := s.live[id := Moved(s, id, move)];
    forall o, m | o in live' && m in live'[o].Marks() ensures Settled(m, Running(s.live), s.next) {
      if o != id || !move.Mark? { assert m in s.live[o].Marks(); }
    }
    forall m | Settled(m, Running(s.live), s.next) ensures Settled(m, Running(live'), NextAfter(s.next, move)) {}
    hide Settled;
  }

  lemma MoveKeepsRevisions(s: State, id: TxId, move: Move)
    requires XidsOk(s.live, s.next) && RevisionsOk(s.followers, s.live, s.next)
    requires EndedOk(s.db.history, s.live, s.next) && id in s.live && CanMove(s, id, move)
    ensures RevisionsOk(s.followers, s.live[id := Moved(s, id, move)], NextAfter(s.next, move))
    ensures EndedOk(s.db.history, s.live[id := Moved(s, id, move)], NextAfter(s.next, move))
  {
    MoveKeepsXids(s, id, move);
    hide XidsOk, Running, CanMove, Moved;
  }

  // ---- Work when a transaction moves ----

  lemma {:induction false} TouchedStep(updates: seq<Update>, n: nat)
    requires n < |updates|
    ensures TouchedBy(updates, n + 1) == TouchedBy(updates, n) + if updates[n].op.Touch? then {updates[n].tuple} else {}
    ensures DeletedBy(updates, n + 1) == DeletedBy(updates, n) + if updates[n].op.Touch? then {} else {updates[n].tuple}
  {
  }

  /** The next update names a tuple none before it named, so the statement finds it as the tables have it. */
  lemma ApplyKeepsWork(tx: Tx, db: Tables, nextVersion: nat)
    requires WorkOk(tx, db, nextVersion) && tx.work.Writing? && tx.work.done < |tx.request.updates|
    requires Alters(db.tuples, tx, tx.request.updates[tx.work.done]) ==> tx.xid != NO_XID
    ensures WorkOk(tx.(work := Applied(db.tuples, tx, tx.request.updates[tx.work.done])), db, nextVersion)
  {
    hide Sound;
    var updates, n := tx.request.updates, tx.work.done;
    var t := updates[n].tuple;
    TouchedStep(updates, n);
    assert t !in TouchedBy(updates, n) && t !in DeletedBy(updates, n);
    assert t in View(db.tuples, tx) <==> t in db.tuples;
  }

  function VersionAfter(nextVersion: nat, move: Move): nat { if move.Insert? then nextVersion + 1 else nextVersion }

  lemma MoveKeepsWork(s: State, id: TxId, move: Move)
    requires id in s.live && WorkOk(s.live[id], s.db, s.nextVersion) && CanMove(s, id, move)
    requires MarksOk(s.db.marks, s.live, s.next) && SchemasOk(s.db, s.nextVersion)
    ensures WorkOk(Moved(s, id, move), s.db, VersionAfter(s.nextVersion, move))
  {
    var tx := s.live[id];
    match move
    case Mark => MarkKeepsWork(s, id);
    case Apply => ApplyKeepsWork(tx, s.db, s.nextVersion);
    case Insert => TriedAll(tx, s.db, s.nextVersion); InsertKeepsWork(s, id);
    case _ => OtherMoveKeepsWork(s, id, move);
  }

  lemma MarkKeepsWork(s: State, id: TxId)
    requires id in s.live && CanMove(s, id, Mark) && MarksOk(s.db.marks, s.live, s.next)
    ensures WorkOk(Moved(s, id, Mark), s.db, s.nextVersion)
  {
  }

  lemma InsertKeepsWork(s: State, id: TxId)
    requires id in s.live && CanMove(s, id, Insert) && SchemasOk(s.db, s.nextVersion)
    requires AllAccepted(s.live[id].request.schema, s.db.tuples)
    ensures WorkOk(Moved(s, id, Insert), s.db, s.nextVersion + 1)
  {
  }

  lemma OtherMoveKeepsWork(s: State, id: TxId, move: Move)
    requires id in s.live && WorkOk(s.live[id], s.db, s.nextVersion) && CanMove(s, id, move)
    requires !move.Mark? && !move.Apply? && !move.Insert?
    ensures WorkOk(Moved(s, id, move), s.db, s.nextVersion)
  {
  }

  /** Once no tuple matches what the new schema drops, the new schema accepts every tuple. */
  lemma TriedAll(tx: Tx, db: Tables, nextVersion: nat)
    requires WorkOk(tx, db, nextVersion) && SchemasOk(db, nextVersion)
    requires tx.work.Comparing? && tx.work.tried == |tx.work.filters|
    ensures AllAccepted(tx.request.schema, db.tuples)
  {
  }

  lemma AdvanceKeeps(s: State, id: TxId, move: Move)
    requires Inv(s) && Enabled(s, Advance(id, move))
    ensures Inv(Do(s, Advance(id, move)))
  {
    hide LocksOk, EndedOk, LogOk, HistoryOk, FollowersOk, RevisionsOk, XidsOk, MarksOk, CanMove, Moved, WorkOk;
    MoveKeepsLocks(s, id, move);
    MoveKeepsXids(s, id, move);
    MoveKeepsMarks(s, id, move);
    MoveKeepsRevisions(s, id, move);
    MoveKeepsWork(s, id, move);
    var later := VersionAfter(s.nextVersion, move);
    assert SchemasOk(s.db, later);
    hide SchemasOk;
    var live' := s.live[id := Moved(s, id, move)];
    forall o | o in live' ensures WorkOk(live'[o], s.db, later) {
      if o != id { VersionsOnlyGrow(s.live[o], s.db, s.nextVersion, later); }
    }
  }

  lemma VersionsOnlyGrow(tx: Tx, db: Tables, nextVersion: nat, later: nat)
    requires WorkOk(tx, db, nextVersion) && nextVersion <= later
    ensures WorkOk(tx, db, later)
  {
  }

  // ---- Beginning and failing ----

  lemma BeginKeeps(s: State, step: Step)
    requires Inv(s) && step.Begin? && Enabled(s, step)
    ensures Inv(Do(s, step))
  {
    hide LogOk, HistoryOk, FollowersOk, SchemasOk, Precheck, IsOrdered, AskedBy, Conflict, Settled, Unfinished;
    var tx := Tx(step.request, step.locks, 0, NO_XID, Idle);
    RunningSame(s.live, step.id, tx);
    LocksReplaced(s.live, step.id, tx);
    assert WorkOk(tx, s.db, s.nextVersion);
    hide Running, LocksOk, WorkOk;
  }

  lemma FailKeeps(s: State, id: TxId)
    requires Inv(s) && id in s.live
    ensures Inv(Do(s, Fail(id)))
  {
    hide LogOk, HistoryOk, FollowersOk, SchemasOk, LockOk, HeldApart, WorkOk;
    EndKeepsLocks(s.live, id, s.next);
    EndKeepsXids(s, id);
    hide LocksOk, XidsOk, MarksOk, RevisionsOk, EndedOk, AllWorkOk;
    assert AllWorkOk(s.live - {id}, s.db, s.nextVersion) by { EndKeepsWork(s.live, id, s.db, s.nextVersion); }
  }

  lemma EndKeepsLocks(live: map<TxId, Tx>, id: TxId, next: Xid)
    requires LocksOk(live)
    ensures LocksOk(live - {id})
  {
  }

  lemma EndKeepsWork(live: map<TxId, Tx>, id: TxId, db: Tables, nextVersion: nat)
    requires AllWorkOk(live, db, nextVersion)
    ensures AllWorkOk(live - {id}, db, nextVersion)
  {
  }

  /** An ended transaction takes its id out of the running; what was settled stays settled. */
  lemma EndKeepsXids(s: State, id: TxId)
    requires id in s.live && XidsOk(s.live, s.next) && MarksOk(s.db.marks, s.live, s.next)
    requires RevisionsOk(s.followers, s.live, s.next) && EndedOk(s.db.history, s.live, s.next)
    ensures XidsOk(s.live - {id}, s.next) && MarksOk(s.db.marks, s.live - {id}, s.next)
    ensures RevisionsOk(s.followers, s.live - {id}, s.next) && EndedOk(s.db.history, s.live - {id}, s.next)
  {
    RunningEnded(s.live, id, s.next);
    hide Running;
    var live' := s.live - {id};
    forall o, m | o in live' && m in live'[o].Marks() ensures Settled(m, Running(live'), s.next) {
      assert m in s.live[o].Marks() && Settled(m, Running(s.live), s.next);
    }
  }
}
