/** What the store promises its writers and its readers, in every run. */
module Feed {
  import opened Names
  import opened Tuples
  import opened Locks
  import opened Database
  import opened Invariant
  import opened Steps
  import opened Commits

  // ---- Readers ----

  /** The commits a revision sees, in the order they were made. */
  function Seen(history: seq<Commit>, rev: Snap): seq<Commit> {
    if history == [] then []
    else
      var last := history[|history| - 1];
      Seen(history[..|history| - 1], rev) + if rev.Sees(last.xid) then [last] else []
  }

  lemma {:induction false} SeenIsPrefix(history: seq<Commit>, rev: Snap, at: nat)
    requires Divides(rev, history, at)
    ensures Seen(history, rev) == history[..at]
    decreases |history|
  {
    hide Snap.Sees;
    if history != [] {
      var before := history[..|history| - 1];
      SeenIsPrefix(before, rev, if at == |history| then |before| else at);
      assert history == before + [history[|history| - 1]];
      assert at < |history| ==> before[..at] == history[..at];
    }
  }

  /** In every state of every run, whatever writes, deletes, schema writes, prunes and out-of-order commits came between,
      each follower holds exactly the tuples and the schema of the commits its revision sees. */
  lemma FollowerHoldsItsRevision(states: seq<State>, steps: seq<Step>, i: nat, r: nat)
    requires Run(states, steps) && i < |states| && r in states[i].followers
    ensures var s, f := states[i], states[i].followers[r];
            && f.tuples == TuplesAfter(Seen(s.db.history, f.rev))
            && f.schema == Latest(VersionsAfter(Seen(s.db.history, f.rev)))
            && TuplesFit(f.tuples, f.schema)
  {
    hide Run;
    EveryState(states, steps, i);
    var s, f := states[i], states[i].followers[r];
    assert FollowerOk(f, s.db.history);
    SeenIsPrefix(s.db.history, f.rev, f.at);
  }

  /** A snapshot, and any changes that are not refused, bring a follower to what is committed at that moment. */
  lemma ReadBringsUpToDate(states: seq<State>, steps: seq<Step>, i: nat)
    requires Run(states, steps) && i < |steps| && (steps[i].ReadSnapshot? || steps[i].ReadChanges?)
    ensures var s, f := states[i], states[i + 1].followers[steps[i].reader];
            && f.tuples == s.db.tuples && f.schema == Latest(s.db.versions) && f.rev == Now(s)
  {
    hide Inv;
    EveryState(states, steps, i);
    assert Enabled(states[i], steps[i]);
    ReadKeeps(states[i], steps[i]);
  }

  /** A delta names exactly the tuples the commits since touched, so nothing is missed and nothing else is sent. */
  lemma ChangesMissNothing(states: seq<State>, steps: seq<Step>, i: nat, r: nat, t: Tuple)
    requires Run(states, steps) && i < |states| && r in states[i].followers
    requires !Pruned(states[i].db.marks, states[i].followers[r].rev)
    ensures var s, f := states[i], states[i].followers[r];
            t in Touched(s.db.log, f.rev) <==>
            exists k :: 0 <= k < |s.db.history| && !f.rev.Sees(s.db.history[k].xid)
                        && t in s.db.history[k].added + s.db.history[k].removed
  {
    hide Run;
    EveryState(states, steps, i);
    var s, f := states[i], states[i].followers[r];
    assert FollowerOk(f, s.db.history);
    DeltaIsComplete(s.db, f.rev, f.at);
    TouchedSinceIs(s.db.history, f.at, t);
  }

  /** As long as a mark is kept, no line from it on has been deleted. */
  lemma LogReachesItsOldestMark(states: seq<State>, steps: seq<Step>, i: nat, k: nat, t: Tuple, m: Xid)
    requires Run(states, steps) && i < |states| && k < |states[i].db.history|
    requires t in states[i].db.history[k].added + states[i].db.history[k].removed
    requires m in states[i].db.marks && m <= states[i].db.history[k].xid
    ensures Line(states[i].db.history[k].xid, t) in states[i].db.log
  {
    hide Run;
    EveryState(states, steps, i);
    assert InHistory(states[i].db.history, Line(states[i].db.history[k].xid, t));
  }

  /** A follower is refused only once every mark that stood when it last read has been dropped. */
  lemma RefusedOnlyPastItsMarks(states: seq<State>, steps: seq<Step>, i: nat, r: nat)
    requires Run(states, steps) && i < |states| && r in states[i].followers
    requires Pruned(states[i].db.marks, states[i].followers[r].rev)
    ensures states[i].followers[r].marks !! states[i].db.marks.Keys
  {
    hide Run;
    EveryState(states, steps, i);
    assert FollowerOk(states[i].followers[r], states[i].db.history);
  }

  // ---- Writers ----

  /** The updates one after another. */
  function InTurn(updates: seq<Update>, tuples: set<Tuple>): set<Tuple> {
    if updates == [] then tuples
    else
      var last, before := updates[|updates| - 1], InTurn(updates[..|updates| - 1], tuples);
      if last.op.Touch? then before + {last.tuple} else before - {last.tuple}
  }

  /** What a request does to the tuples, run alone. */
  function Effect(r: Request, tuples: set<Tuple>): set<Tuple> {
    match r
    case Write(updates) => InTurn(updates, tuples)
    case DeleteMatching(f) => tuples - Matching(tuples, f)
    case _ => tuples
  }

  lemma {:induction false} InTurnIs(updates: seq<Update>, n: nat, tuples: set<Tuple>)
    requires n <= |updates|
    requires forall i, j :: 0 <= i < j < |updates| ==> updates[i].tuple != updates[j].tuple
    ensures InTurn(updates[..n], tuples) == tuples - DeletedBy(updates, n) + TouchedBy(updates, n)
  {
    if n == 0 {
      assert updates[..n] == [];
    } else {
      InTurnIs(updates, n - 1, tuples);
      TouchedStep(updates, n - 1);
      assert updates[..n][..n - 1] == updates[..n - 1];
      assert updates[n - 1].tuple !in TouchedBy(updates, n - 1) && updates[n - 1].tuple !in DeletedBy(updates, n - 1);
    }
  }

  /** Each commit does to the committed tuples what its request does run alone, however its statements were interleaved
      with others', and logs exactly the tuples it changed. */
  lemma CommitsAreSerial(states: seq<State>, steps: seq<Step>, i: nat)
    requires Run(states, steps) && i < |steps| && steps[i].Finish?
    ensures var db, db', tx := states[i].db, states[i + 1].db, states[i].live[steps[i].id];
            && db'.tuples == Effect(tx.request, db.tuples)
            && (forall t :: t in tx.Changed() <==> (t in db.tuples <==> t !in db'.tuples))
            && (!tx.request.Prune? ==> db'.log == db.log + Lines(tx.xid, tx.Changed()))
  {
    hide Inv, Committed, WorkOk;
    AtFinish(states, steps, i);
    CommitIsSerial(states[i].live[steps[i].id], states[i].db, states[i].nextVersion);
  }

  lemma CommitIsSerial(tx: Tx, db: Tables, nextVersion: nat)
    requires WorkOk(tx, db, nextVersion) && Finished(tx)
    ensures var db' := Committed(db, tx);
            && db'.tuples == Effect(tx.request, db.tuples)
            && (forall t :: t in tx.Changed() <==> (t in db.tuples <==> t !in db'.tuples))
            && (!tx.request.Prune? ==> db'.log == db.log + Lines(tx.xid, tx.Changed()))
  {
    hide Sound, Filter.Matches, CutBefore, Covers;
    match tx.request {
      case Write(updates) =>
        InTurnIs(updates, |updates|, db.tuples);
        assert updates[..|updates|] == updates;
        forall t | t in TouchedBy(updates, |updates|) ensures t !in DeletedBy(updates, |updates|) {}
      case _ =>
    }
  }

  /** In every state the newest schema accepts every stored tuple, and each is valid. */
  lemma NewestSchemaAcceptsAll(states: seq<State>, steps: seq<Step>, i: nat, t: Tuple)
    requires Run(states, steps) && i < |states| && t in states[i].db.tuples
    ensures t.Valid() && states[i].db.versions != []
    ensures Newest(states[i].db.versions).schema.Accepts(t)
  {
    hide Run;
    EveryState(states, steps, i);
  }

  /** Some mark made at least keep before now lies past x. */
  ghost predicate Outlived(marks: map<Xid, Time>, now: int, keep: int, x: Xid) {
    exists m :: m in marks && x < m && (marks[m] == Always || marks[m].t <= now - keep)
  }

  lemma CutIsOutlived(marks: map<Xid, Time>, now: int, keep: int, x: Xid)
    ensures BeforeCut(marks, now - keep, x) <==> Outlived(marks, now, keep, x)
  {
    if m :| m in marks && x < m && (marks[m] == Always || marks[m].t <= now - keep) { assert m in Eligible(marks, now - keep); }
  }

  /** db' has lost of the log and of the marks, its own among them, all that some mark old enough lies past, and no more. */
  ghost predicate CutAt(db: Tables, mark: Xid, now: int, keep: int, db': Tables) {
    var marks := if mark in db.marks then db.marks else db.marks[mark := At(now)];
    && (forall l :: l in db'.log <==> l in db.log && !Outlived(marks, now, keep, l.xid))
    && (forall m :: m in db'.marks <==> m in marks && !Outlived(marks, now, keep, m))
    && db'.marks.Keys != {}
  }

  /** A prune's two deletes, run one after the other, cut at one mark: the one its commit would find in the tables. */
  lemma PruneCutsOnce(states: seq<State>, steps: seq<Step>, i: nat)
    requires Run(states, steps) && i < |steps| && steps[i].Finish? && states[i].live[steps[i].id].request.Prune?
    ensures var tx := states[i].live[steps[i].id];
            tx.work.CutMarks? && CutAt(states[i].db, tx.work.mark, tx.request.now, tx.request.keep, states[i + 1].db)
  {
    hide Inv, Committed, WorkOk, CutAt;
    AtFinish(states, steps, i);
    PruneCommit(states[i].live[steps[i].id], states[i].db, states[i].nextVersion);
  }

  lemma PruneCommit(tx: Tx, db: Tables, nextVersion: nat)
    requires WorkOk(tx, db, nextVersion) && tx.request.Prune? && Finished(tx)
    ensures CutAt(db, tx.work.mark, tx.request.now, tx.request.keep, Committed(db, tx))
  {
    CutStays(db, tx, nextVersion);
    var marks := WithMark(db.marks, tx.work.mark, tx.request.now);
    forall x ensures BeforeCut(marks, tx.request.now - tx.request.keep, x) <==> Outlived(marks, tx.request.now, tx.request.keep, x) {
      CutIsOutlived(marks, tx.request.now, tx.request.keep, x);
    }
    hide BeforeCut, Outlived;
  }

  lemma AtFinish(states: seq<State>, steps: seq<Step>, i: nat)
    requires Run(states, steps) && i < |steps| && steps[i].Finish?
    ensures steps[i].id in states[i].live && Finished(states[i].live[steps[i].id])
    ensures WorkOk(states[i].live[steps[i].id], states[i].db, states[i].nextVersion)
    ensures states[i + 1].db == Committed(states[i].db, states[i].live[steps[i].id])
  {
    hide Finished, Committed, WorkOk, LocksOk, XidsOk, EndedOk, MarksOk, LogOk, SchemasOk, HistoryOk, FollowersOk,
         RevisionsOk;
    EveryState(states, steps, i);
    assert Enabled(states[i], steps[i]) && states[i + 1] == Do(states[i], steps[i]);
  }

  // ---- Locks ----

  /** It waits for a lock it cannot have yet. */
  ghost predicate Blocked(s: State, id: TxId)
    requires id in s.live
  {
    s.live[id].got < |s.live[id].locks| && !CanMove(s, id, Acquire)
  }

  /** Where a transaction stands among the requests for locks, having joined the queue it is in at since. */
  function InQueue(tx: Tx, since: nat): Session { Session(tx.locks, tx.got, since) }

  /** One transaction waits for another, each standing where it does. */
  ghost predicate WaitsBehind(tx: Tx, m: nat, other: Tx, n: nat) {
    InQueue(tx, m).Valid() && InQueue(other, n).Valid() && WaitsFor(InQueue(tx, m), InQueue(other, n))
  }

  /** What a blocked transaction waits for is held by another, which waits only for something later. */
  lemma Holder(s: State, id: TxId) returns (holder: TxId)
    requires LocksOk(s.live) && id in s.live && Blocked(s, id)
    ensures holder in s.live && holder != id
    ensures s.live[holder].got < |s.live[holder].locks| ==>
              Less(s.live[id].locks[s.live[id].got].name, s.live[holder].locks[s.live[holder].got].name)
    ensures forall m: nat, n: nat :: WaitsBehind(s.live[id], m, s.live[holder], n)
  {
    hide AskedBy;
    var wanted := s.live[id].locks[s.live[id].got];
    holder :| holder in s.live && holder != id && !s.live[holder].Free(wanted);
    var k :| 0 <= k < s.live[holder].got && Conflict(s.live[holder].locks[k], wanted);
  }

  /** While any transaction is in flight, one of them waits for nobody, neither for a holder nor for a request queued
      ahead of it, however the queues stand: advisory locks never deadlock the store. */
  lemma SomeoneIsNotBlocked(states: seq<State>, steps: seq<Step>, i: nat, since: TxId -> nat) returns (id: TxId)
    requires Run(states, steps) && i < |states| && states[i].live != map[]
    ensures id in states[i].live && !Blocked(states[i], id)
    ensures forall o :: o in states[i].live ==> !WaitsBehind(states[i].live[id], since(id), states[i].live[o], since(o))
  {
    hide Run, LocksOk, Blocked, WaitsBehind;
    EveryState(states, steps, i);
    hide Inv;
    id := OneWaitsForNobody(states[i], since);
    if Blocked(states[i], id) {
      var holder := Holder(states[i], id);
      assert false;
    }
  }

  lemma OneWaitsForNobody(s: State, since: TxId -> nat) returns (id: TxId)
    requires LocksOk(s.live) && s.live != map[]
    ensures id in s.live && forall o :: o in s.live ==> !WaitsBehind(s.live[id], since(id), s.live[o], since(o))
  {
    hide WaitsFor, AskedBy, Asked, AskedExclusive, Taken, HeldApart;
    var sessions := set o | o in s.live :: InQueue(s.live[o], since(o));
    var one :| one in s.live;
    assert InQueue(s.live[one], since(one)) in sessions;
    forall o | o in s.live ensures InQueue(s.live[o], since(o)).Valid() { assert LockOk(s.live[o]); }
    var free := WaitsForNobody(sessions);
    id :| id in s.live && InQueue(s.live[id], since(id)) == free;
    forall o | o in s.live ensures !WaitsBehind(s.live[id], since(id), s.live[o], since(o)) {
      assert InQueue(s.live[o], since(o)) in sessions;
    }
  }
}
