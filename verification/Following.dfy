/** From the central store to a sidecar: what the store's snapshots and deltas do to a replica, and what its decisions
    are worth to the store's clients. */
module Following {
  import opened Refs
  import opened Builder
  import opened Database
  import opened Invariant
  import opened Commits
  import opened Replicas
  import opened Entries
  import opened Requests
  import Agreement
  import Compile
  import Feed
  import Grammar
  import Locks
  import Parsing
  import Sidecar
  import Stored
  import Tuples

  // ---- What is sent ----

  /** What a delta read carries: the text now in force where it changed, and the changes. */
  datatype Delta = Delta(schema: Option<string>, changes: seq<Change>)

  /** What a snapshot read carries: the text in force, and the tuples as a list without repeats. */
  ghost predicate Sends(s: State, source: string, tuples: seq<Tuples.Tuple>) {
    && source == Text(Latest(s.db.versions)) && (set t | t in tuples) == s.db.tuples
    && (forall i, j :: 0 <= i < j < |tuples| ==> tuples[i] != tuples[j])
  }

  /** changes says of each tuple a delta touches how it stands, each once. */
  ghost predicate Delivers(s: State, f: Follower, changes: seq<Change>) {
    && (forall c :: c in changes ==> c.tuple in Touched(s.db.log, f.rev) && (c.present <==> c.tuple in s.db.tuples))
    && (forall t :: t in Touched(s.db.log, f.rev) ==> Change(t, t in s.db.tuples) in changes)
    && (forall i, j :: 0 <= i < j < |changes| ==> changes[i].tuple != changes[j].tuple)
  }

  ghost predicate SendsSince(s: State, f: Follower, delta: Delta) {
    var unseen := Unseen(s.db.versions, f.rev);
    Delivers(s, f, delta.changes) && delta.schema == if unseen == [] then None else Some(Newest(unseen).schema.source)
  }

  lemma AppliesDelta(s: State, f: Follower, changes: seq<Change>)
    requires Delivers(s, f, changes)
    ensures After(f.tuples, changes) == ReadDelta(s, f).tuples
  {
    hide Touched, Unseen, Latest, Now;
    forall t ensures t in After(f.tuples, changes) <==> t in ReadDelta(s, f).tuples {
      if t in Touched(s.db.log, f.rev) {
        var c := Change(t, t in s.db.tuples);
        assert c in changes;
        assert t in Part(changes, c.present);
        assert t !in Part(changes, !c.present);
      }
    }
  }

  /** What a delta touches was stored once, so a replica may be given all it names. */
  lemma DeliversValid(states: seq<State>, steps: seq<Step>, i: nat, r: nat, changes: seq<Change>)
    requires Run(states, steps) && i < |states| && r in states[i].followers && Delivers(states[i], states[i].followers[r], changes)
    ensures OneEach(changes)
  {
    hide Run, TuplesAfter, VersionsAfter, Tuples.Tuple.Valid;
    EveryState(states, steps, i);
    var db := states[i].db;
    forall c | c in changes ensures c.tuple.Valid() {
      var l :| l in db.log && l.tuple == c.tuple;
      var k :| 0 <= k < |db.history| && db.history[k].xid == l.xid && l.tuple in db.history[k].added + db.history[k].removed;
      assert AllValid(db.history[k].added) && AllValid(db.history[k].removed);
    }
  }

  lemma SendsValid(states: seq<State>, steps: seq<Step>, i: nat, source: string, tuples: seq<Tuples.Tuple>)
    requires Run(states, steps) && i < |states| && Sends(states[i], source, tuples)
    ensures OneEach(AllPresent(tuples))
  {
    hide Run, Tuples.Tuple.Valid, Tuples.NamedSchema.Accepts, Text;
    forall c | c in AllPresent(tuples) ensures c.tuple.Valid() {
      assert c.tuple in tuples;
      assert c.tuple in set t | t in tuples;
      Feed.NewestSchemaAcceptsAll(states, steps, i, c.tuple);
    }
  }

  // ---- What a sidecar holds ----

  /** held and defs are f's tuples and what the source f holds is read as. */
  ghost predicate Mirrors(held: set<Tuples.Tuple>, defs: seq<Grammar.Definition>, f: Follower) {
    held == f.tuples && Parsing.Meaning(Text(f.schema)) == Parsing.Definitions(defs)
  }

  /** A reset that succeeds on a snapshot leaves the sidecar with what the store has committed. */
  lemma ResetMirrors(s: State, source: string, tuples: seq<Tuples.Tuple>, defs: seq<Grammar.Definition>)
    requires Sends(s, source, tuples) && Parsing.Meaning(source) == Parsing.Definitions(defs)
    ensures Mirrors((set t | t in tuples), defs, ReadAll(s))
  {
    hide Parsing.Meaning, Latest, Now;
  }

  /** A sidecar that mirrored its revision, and lands a delta that was not refused, mirrors the follower that read it,
      and with that the store as committed. */
  lemma SidecarFollows(states: seq<State>, steps: seq<Step>, i: nat, r: nat, delta: Delta,
                       held: set<Tuples.Tuple>, defs: seq<Grammar.Definition>, defs': seq<Grammar.Definition>)
    requires Run(states, steps) && i < |states| && r in states[i].followers
    requires !Pruned(states[i].db.marks, states[i].followers[r].rev)
    requires SendsSince(states[i], states[i].followers[r], delta) && Mirrors(held, defs, states[i].followers[r])
    requires if delta.schema.None? then defs' == defs else Parsing.Meaning(delta.schema.value) == Parsing.Definitions(defs')
    ensures Mirrors(After(held, delta.changes), defs', ReadDelta(states[i], states[i].followers[r]))
    ensures After(held, delta.changes) == states[i].db.tuples
    ensures Parsing.Meaning(Text(Latest(states[i].db.versions))) == Parsing.Definitions(defs')
  {
    hide Run, Delivers, After, Pruned, FollowerOk, Parsing.Meaning, Touched, Unseen, Now, Newest;
    EveryState(states, steps, i);
    assert FollowersOk(states[i].followers, states[i].db.history);
    AppliesDelta(states[i], states[i].followers[r], delta.changes);
    DeltaIsSnapshot(states[i], states[i].followers[r]);
  }

  // ---- What a sidecar decides ----

  /** Every schema asked to be written was compiled, as the store sees to before the request begins. */
  ghost predicate WritesCompiled(steps: seq<Step>) {
    forall i :: 0 <= i < |steps| && steps[i].Begin? && steps[i].request.WriteSchema? ==> Stored.Compiled(steps[i].request.schema)
  }

  /** Every schema written, and every one about to be, was compiled. */
  ghost predicate AllCompiled(s: State) {
    && (forall v :: v in s.db.versions ==> Stored.Compiled(v.schema))
    && (forall id :: id in s.live && s.live[id].request.WriteSchema? ==> Stored.Compiled(s.live[id].request.schema))
  }

  lemma StepCompiles(s: State, step: Step)
    requires AllCompiled(s) && Enabled(s, step) && WritesCompiled([step])
    ensures AllCompiled(Do(s, step))
  {
    hide Stored.Compiled, Now, Locks.IsOrdered, Locks.AskedBy, NewLog, NewMarks, NewHistory, View, Moved, CanMove, Precheck,
         ReadAll, ReadDelta, Pruned;
    assert [step][0] == step;
    if step.Advance? { MovesOn(s, step.id, step.move); }
  }

  lemma MovesOn(s: State, id: TxId, move: Move)
    requires id in s.live && CanMove(s, id, move)
    ensures Moved(s, id, move).request == s.live[id].request
  {
    hide CanMove;
  }

  lemma {:induction false} SchemasAreCompiled(states: seq<State>, steps: seq<Step>, i: nat)
    requires Run(states, steps) && WritesCompiled(steps) && i < |states|
    ensures AllCompiled(states[i])
  {
    hide Stored.Compiled, Enabled, Do, AllCompiled;
    if i == 0 {
      StartsCompiled(states[0]);
    } else {
      SchemasAreCompiled(states, steps, i - 1);
      assert states[i - 1 + 1] == Do(states[i - 1], steps[i - 1]) && Enabled(states[i - 1], steps[i - 1]);
      assert WritesCompiled([steps[i - 1]]);
      StepCompiles(states[i - 1], steps[i - 1]);
    }
  }

  lemma StartsCompiled(s: State)
    requires Init(s)
    ensures AllCompiled(s)
  {
  }

  /** r is where reader stands after its read in step i. */
  ghost predicate UpToDate(states: seq<State>, steps: seq<Step>, i: nat, r: Replica)
    reads r
    requires Run(states, steps) && i < |steps| && (steps[i].ReadSnapshot? || steps[i].ReadChanges?)
  {
    steps[i].reader in states[i + 1].followers && Mirrors(r.held, r.defs, states[i + 1].followers[steps[i].reader])
  }

  /** A sidecar brought up to date holds the tuples committed then, under what the newest source is read as. */
  lemma SidecarHolds(states: seq<State>, steps: seq<Step>, i: nat, r: Replica)
    requires Run(states, steps) && i < |steps| && (steps[i].ReadSnapshot? || steps[i].ReadChanges?)
    requires UpToDate(states, steps, i, r)
    ensures r.held == states[i].db.tuples
    ensures Parsing.Meaning(Text(Latest(states[i].db.versions))) == Parsing.Definitions(r.defs)
  {
    hide Run, Parsing.Meaning, Newest;
    Feed.ReadBringsUpToDate(states, steps, i);
  }

  /** And the definitions it holds accept every tuple it holds. */
  lemma SidecarAccepts(states: seq<State>, steps: seq<Step>, i: nat, r: Replica, t: Tuples.Tuple)
    requires Run(states, steps) && WritesCompiled(steps) && i < |steps| && (steps[i].ReadSnapshot? || steps[i].ReadChanges?)
    requires UpToDate(states, steps, i, r) && t in r.held
    ensures Stored.NamedOf(r.defs).Accepts(t)
  {
    hide Init, Enabled, Do, Parsing.Meaning, Tuples.NamedSchema.Accepts, Stored.Compiled, Stored.NamedOf, WritesCompiled,
         UpToDate;
    SidecarHolds(states, steps, i, r);
    SchemasAreCompiled(states, steps, i);
    Feed.NewestSchemaAcceptsAll(states, steps, i, t);
    Stored.CompiledAccepts(Newest(states[i].db.versions).schema, r.defs, t);
  }

  /** What such a sidecar decides is what the tuples committed then and the newest source decide, under any dictionary:
      as the store's own would, or as any other sidecar that answers. */
  lemma SidecarDecides(states: seq<State>, steps: seq<Step>, i: nat, r: Replica, q: NamedRequest, a: bool,
                       y: Agreement.Side, defs: seq<Grammar.Definition>, b: bool)
    requires Run(states, steps) && i < |steps| && (steps[i].ReadSnapshot? || steps[i].ReadChanges?)
    requires UpToDate(states, steps, i, r) && r.Valid() && Resolve(r.names.Known(), r.subjects, q).Asks?
    requires Sidecar.SideOf(r, q).request.WellFormed()
    requires Answers(r.names.Known(), r.schema.d, r.held, Sidecar.SideOf(r, q).request, a)
    requires Parsing.Meaning(Text(Latest(states[i].db.versions))) == Parsing.Definitions(defs)
    requires Agreement.SideOk(y, defs, states[i].db.tuples, q) && Answers(y.ids, y.d, states[i].db.tuples, y.request, b)
    ensures a == b
  {
    hide Run, Answers, Compile.Means, Accepts, StoreOk, Resolve, Parsing.Meaning;
    SidecarHolds(states, steps, i, r);
    r.names.KnownOk();
    Agreement.SameDecisions(Sidecar.SideOf(r, q), y, r.defs, r.held, q, a, b);
  }
}
