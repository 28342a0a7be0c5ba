/** The central store as a transition system: its tables, the transactions in flight with their locks and snapshots, and
    the followers that read it. Every step is one statement of one transaction, its commit or its abort. */
module Database {
  import opened Tuples
  import opened Locks

  // ---- Tables ----

  type Xid = nat

  /** A transaction that has changed nothing has no id yet. */
  const NO_XID: Xid := 0
  const FIRST_XID: Xid := 3

  /** What a transaction sees: those that had ended when it was taken. It doubles as a revision. */
  datatype Snap = Snap(xmin: Xid, xmax: Xid, running: set<Xid>) {
    predicate Sees(x: Xid) { x < xmin || (x < xmax && x !in running) }
  }

  /** One line of the change log: this transaction touched that tuple. */
  datatype Line = Line(xid: Xid, tuple: Tuple)

  /** When a mark was made; the first one was made at minus infinity. */
  datatype Time = Always | At(t: int) {
    predicate By(limit: int) { Always? || t <= limit }
  }

  datatype Version = Version(version: nat, xid: Xid, schema: NamedSchema)

  /** What one commit did. No step reads the history: it is what the other tables are measured against. */
  datatype Commit = Commit(xid: Xid, added: set<Tuple>, removed: set<Tuple>, versions: seq<Version>)

  datatype Tables = Tables(tuples: set<Tuple>, log: set<Line>, marks: map<Xid, Time>, versions: seq<Version>, history: seq<Commit>)

  /** The row with the greatest version. */
  function Newest(versions: seq<Version>): (v: Version)
    requires versions != []
    ensures v in versions && forall w :: w in versions ==> w.version <= v.version
  {
    if |versions| == 1 then versions[0]
    else
      var v := Newest(versions[1..]);
      if versions[0].version > v.version then versions[0] else v
  }

  /** The schema a reader holds: none before any is written. */
  datatype InForce = Unwritten | InForce(schema: NamedSchema)

  function Latest(versions: seq<Version>): InForce {
    if versions == [] then Unwritten else InForce(Newest(versions).schema)
  }

  /** The source in force. */
  function Text(schema: InForce): string { if schema.Unwritten? then "" else schema.schema.source }

  // ---- Transactions ----

  /** How far a transaction has come, with the uncommitted changes it has made. */
  datatype Work =
    | Idle
    | Writing(done: nat, adds: set<Tuple>, dels: set<Tuple>)
    | Swept(dels: set<Tuple>)
    | Comparing(filters: seq<Filter>, tried: nat)
    | Inserted(version: nat)
    | Marked(mark: Xid)
    | CutLines(mark: Xid, lines: set<Line>)
    | CutMarks(mark: Xid, lines: set<Line>, gone: set<Xid>)

  /** It holds the first got of its locks until it ends. */
  datatype Tx = Tx(request: Request, locks: seq<Lock>, got: nat, xid: Xid, work: Work) {
    predicate Ready() { got == |locks| && work.Idle? }

    function Adds(): set<Tuple> { if work.Writing? then work.adds else {} }
    function Dels(): set<Tuple> { if work.Writing? then work.dels else if work.Swept? then work.dels else {} }
    function Changed(): set<Tuple> { Adds() + Dels() }
    function Marks(): set<Xid> { if work.Marked? || work.CutLines? || work.CutMarks? then {work.mark} else {} }

    ghost predicate Free(l: Lock)
      requires got <= |locks|
    {
      forall i :: 0 <= i < got ==> !Conflict(locks[i], l)
    }
  }

  /** A reader's copy. at and marks note where in the store's history it was taken: no step reads them. */
  datatype Follower = Follower(rev: Snap, tuples: set<Tuple>, schema: InForce, at: nat, marks: set<Xid>)

  type TxId = nat
  datatype State = State(db: Tables, next: Xid, nextVersion: nat, live: map<TxId, Tx>, followers: map<nat, Follower>)

  ghost predicate Init(s: State) {
    && s.db == Tables({}, {}, map[0 := Always], [], [])
    && s.next == FIRST_XID && s.live == map[] && s.followers == map[]
  }

  // ---- Snapshots and cuts ----

  ghost function Running(live: map<TxId, Tx>): set<Xid> {
    set id | id in live && live[id].xid != NO_XID :: live[id].xid
  }

  ghost function Least(xs: set<Xid>, bound: Xid): (x: Xid)
    ensures (x == bound || x in xs) && x <= bound && forall y :: y in xs ==> x <= y
    decreases |xs|
  {
    if xs == {} then bound
    else
      var y :| y in xs;
      var x := Least(xs - {y}, bound);
      assert forall z :: z in xs ==> z == y || z in xs - {y};
      if y < x then y else x
  }

  ghost function Greatest(xs: set<Xid>): (x: Xid)
    requires xs != {}
    ensures x in xs && forall y :: y in xs ==> y <= x
    decreases |xs|
  {
    var y :| y in xs;
    if xs == {y} then y
    else
      var x := Greatest(xs - {y});
      assert forall z :: z in xs ==> z == y || z in xs - {y};
      if y > x then y else x
  }

  ghost function Now(s: State): Snap {
    Snap(Least(Running(s.live), s.next), s.next, Running(s.live))
  }

  /** The marks a prune sees after marking: a mark already there keeps its time. */
  function WithMark(marks: map<Xid, Time>, mark: Xid, now: int): map<Xid, Time> {
    if mark in marks then marks else marks[mark := At(now)]
  }

  function Eligible(marks: map<Xid, Time>, limit: int): set<Xid> { set m | m in marks && marks[m].By(limit) }

  /** x comes before the newest mark made by limit. */
  ghost predicate BeforeCut(marks: map<Xid, Time>, limit: int, x: Xid) {
    Eligible(marks, limit) != {} && x < Greatest(Eligible(marks, limit))
  }

  // ---- What one statement does to its transaction ----

  datatype Move = Acquire | Assign | Check | Apply | Sweep | Compare(filters: seq<Filter>) | Try | Insert | Mark | CutLog | CutMark

  /** The tuples a statement of tx sees: what is committed and what it did itself. */
  function View(tuples: set<Tuple>, tx: Tx): set<Tuple> { tuples - tx.Dels() + tx.Adds() }

  /** The next update changes something, so it logs a line. */
  predicate Alters(tuples: set<Tuple>, tx: Tx, u: Update) {
    if u.op.Touch? then u.tuple !in View(tuples, tx) else u.tuple in View(tuples, tx)
  }

  ghost predicate NoneMatch(tuples: set<Tuple>, f: Filter) { forall t :: t in tuples ==> !f.Matches(t) }

  function Matching(tuples: set<Tuple>, f: Filter): set<Tuple> { set t | t in tuples && f.Matches(t) }

  ghost predicate CanMove(s: State, id: TxId, move: Move)
    requires id in s.live
  {
    var tx, db := s.live[id], s.db;
    match move
    case Acquire =>
      tx.got < |tx.locks|
      && forall o :: o in s.live && o != id ==> s.live[o].got <= |s.live[o].locks| && s.live[o].Free(tx.locks[tx.got])
    case Assign => tx.xid == NO_XID
    case Check =>
      tx.request.Write? && tx.Ready() && db.versions != [] && Acceptable(Newest(db.versions).schema, tx.request.updates)
    case Apply =>
      tx.request.Write? && tx.work.Writing? && tx.work.done < |tx.request.updates|
      && (Alters(db.tuples, tx, tx.request.updates[tx.work.done]) ==> tx.xid != NO_XID)
    case Sweep =>
      tx.request.DeleteMatching? && tx.Ready() && (Matching(db.tuples, tx.request.filter) != {} ==> tx.xid != NO_XID)
    case Compare(filters) =>
      tx.request.WriteSchema? && tx.Ready()
      && if db.versions == [] then filters == [] else Covers(Newest(db.versions).schema, tx.request.schema, filters)
    case Try =>
      tx.request.WriteSchema? && tx.work.Comparing? && tx.work.tried < |tx.work.filters|
      && NoneMatch(db.tuples, tx.work.filters[tx.work.tried])
    case Insert =>
      tx.request.WriteSchema? && tx.work.Comparing? && tx.work.tried == |tx.work.filters| && tx.xid != NO_XID
    case Mark => tx.request.Prune? && tx.Ready()
    case CutLog => tx.request.Prune? && tx.work.Marked?
    case CutMark => tx.request.Prune? && tx.work.CutLines?
  }

  ghost function Moved(s: State, id: TxId, move: Move): Tx
    requires id in s.live && CanMove(s, id, move)
  {
    var tx, db := s.live[id], s.db;
    match move
    case Acquire => tx.(got := tx.got + 1)
    case Assign => tx.(xid := s.next)
    case Check => tx.(work := Writing(0, {}, {}))
    case Apply => tx.(work := Applied(db.tuples, tx, tx.request.updates[tx.work.done]))
    case Sweep => tx.(work := Swept(Matching(db.tuples, tx.request.filter)))
    case Compare(filters) => tx.(work := Comparing(filters, 0))
    case Try => tx.(work := tx.work.(tried := tx.work.tried + 1))
    case Insert => tx.(work := Inserted(s.nextVersion))
    case Mark => tx.(work := Marked(Now(s).xmin))
    case CutLog => tx.(work := CutLines(tx.work.mark, OldLines(db, tx.request, tx.work.mark)))
    case CutMark => tx.(work := CutMarks(tx.work.mark, tx.work.lines, OldMarks(db, tx.request, tx.work.mark)))
  }

  function Applied(tuples: set<Tuple>, tx: Tx, u: Update): Work
    requires tx.work.Writing?
  {
    var w := tx.work;
    if !Alters(tuples, tx, u) then w.(done := w.done + 1)
    else if u.op.Touch? then Writing(w.done + 1, w.adds + {u.tuple}, w.dels)
    else Writing(w.done + 1, w.adds - {u.tuple}, w.dels + {u.tuple})
  }

  /** Each of a prune's two deletes finds the cut again, among the marks it sees. */
  ghost predicate CutBefore(marks: map<Xid, Time>, r: Request, mark: Xid, x: Xid)
    requires r.Prune?
  {
    BeforeCut(WithMark(marks, mark, r.now), r.now - r.keep, x)
  }

  ghost function OldLines(db: Tables, r: Request, mark: Xid): set<Line>
    requires r.Prune?
  {
    set l | l in db.log && CutBefore(db.marks, r, mark, l.xid)
  }

  ghost function OldMarks(db: Tables, r: Request, mark: Xid): set<Xid>
    requires r.Prune?
  {
    set m | m in WithMark(db.marks, mark, r.now) && CutBefore(db.marks, r, mark, m)
  }

  // ---- Commits ----

  /** Every statement of the request has run. */
  predicate Finished(tx: Tx) {
    match tx.request
    case Write(updates) => tx.work.Writing? && tx.work.done == |updates|
    case DeleteMatching(_) => tx.work.Swept?
    case WriteSchema(_) => tx.work.Inserted?
    case Prune(_, _) => tx.work.CutMarks?
  }

  function Lines(xid: Xid, tuples: set<Tuple>): set<Line> { set t | t in tuples :: Line(xid, t) }

  function NewVersions(tx: Tx): seq<Version> {
    if tx.work.Inserted? && tx.request.WriteSchema? then [Version(tx.work.version, tx.xid, tx.request.schema)] else []
  }

  function NewMarks(marks: map<Xid, Time>, tx: Tx): map<Xid, Time> {
    if tx.work.CutMarks? && tx.request.Prune? then WithMark(marks, tx.work.mark, tx.request.now) - tx.work.gone else marks
  }

  function NewLog(log: set<Line>, tx: Tx): set<Line> {
    if tx.work.CutMarks? then log - tx.work.lines else log + Lines(tx.xid, tx.Changed())
  }

  function NewHistory(history: seq<Commit>, tx: Tx): seq<Commit> {
    if tx.xid == NO_XID then history else history + [Commit(tx.xid, tx.Adds(), tx.Dels(), NewVersions(tx))]
  }

  function Committed(db: Tables, tx: Tx): Tables {
    Tables(View(db.tuples, tx), NewLog(db.log, tx), NewMarks(db.marks, tx), db.versions + NewVersions(tx),
           NewHistory(db.history, tx))
  }

  // ---- Reading ----

  /** The log does not reach back to since. */
  predicate Pruned(marks: map<Xid, Time>, since: Snap) { forall m :: m in marks ==> m > since.xmin }

  function Unseen(versions: seq<Version>, since: Snap): seq<Version> {
    if versions == [] then []
    else (if since.Sees(versions[0].xid) then [] else [versions[0]]) + Unseen(versions[1..], since)
  }

  /** The tuples a delta names: every one a line names that since does not see. */
  function Touched(log: set<Line>, since: Snap): set<Tuple> {
    set l | l in log && since.xmin <= l.xid && !since.Sees(l.xid) :: l.tuple
  }

  ghost function ReadAll(s: State): Follower {
    Follower(Now(s), s.db.tuples, Latest(s.db.versions), |s.db.history|, s.db.marks.Keys)
  }

  /** The follower's copy with a delta applied: each touched tuple as it stands now, the schema where one came along. */
  ghost function ReadDelta(s: State, f: Follower): Follower {
    var touched, unseen := Touched(s.db.log, f.rev), Unseen(s.db.versions, f.rev);
    Follower(Now(s), f.tuples - touched + touched * s.db.tuples,
             if unseen == [] then f.schema else Latest(unseen), |s.db.history|, s.db.marks.Keys)
  }

  // ---- Steps ----

  datatype Step =
    | Begin(id: TxId, request: Request, locks: seq<Lock>)
    | Advance(id: TxId, move: Move)
    | Finish(id: TxId)
    | Fail(id: TxId)
    | ReadSnapshot(reader: nat)
    | ReadChanges(reader: nat)

  /** What a request is checked for before it asks for locks: all of it for a large write, and for a filter delete. */
  ghost predicate Precheck(db: Tables, r: Request) {
    match r
    case Write(updates) => Large(updates) ==> db.versions != [] && Acceptable(Newest(db.versions).schema, updates)
    case DeleteMatching(f) => db.versions != [] && f.Valid() && CheckFilter(Newest(db.versions).schema, f).Fine?
    case WriteSchema(schema) => schema.WellFormed()
    case Prune(_, _) => true
  }

  ghost predicate Enabled(s: State, step: Step) {
    match step
    case Begin(id, request, locks) => id !in s.live && Precheck(s.db, request) && IsOrdered(AskedBy(request), locks)
    case Advance(id, move) => id in s.live && CanMove(s, id, move)
    case Finish(id) => id in s.live && Finished(s.live[id])
    case Fail(id) => id in s.live
    case ReadSnapshot(_) => true
    case ReadChanges(r) => r in s.followers && !Pruned(s.db.marks, s.followers[r].rev)
  }

  ghost function Do(s: State, step: Step): State
    requires Enabled(s, step)
  {
    match step
    case Begin(id, request, locks) => s.(live := s.live[id := Tx(request, locks, 0, NO_XID, Idle)])
    case Advance(id, move) =>
      s.(live := s.live[id := Moved(s, id, move)],
         next := if move.Assign? then s.next + 1 else s.next,
         nextVersion := if move.Insert? then s.nextVersion + 1 else s.nextVersion)
    case Finish(id) => s.(db := Committed(s.db, s.live[id]), live := s.live - {id})
    case Fail(id) => s.(live := s.live - {id})
    case ReadSnapshot(r) => s.(followers := s.followers[r := ReadAll(s)])
    case ReadChanges(r) => s.(followers := s.followers[r := ReadDelta(s, s.followers[r])])
  }

  /** states is a run: it starts from the empty store and each state comes from the one before by a step. */
  ghost predicate Run(states: seq<State>, steps: seq<Step>) {
    && |states| == |steps| + 1 && Init(states[0])
    && forall i :: 0 <= i < |steps| ==> Enabled(states[i], steps[i]) && states[i + 1] == Do(states[i], steps[i])
  }
}
