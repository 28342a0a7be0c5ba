/** Checks beside one feeder: the read lock a check holds keeps every change out from its first read to its last. */
module Sessions {
  import opened Refs
  import opened Schema
  import opened Builder
  import opened Evaluator
  import opened Dictionaries
  import opened Naming
  import opened Entries
  import opened Replicas
  import Compile
  import Grammar
  import Tuples

  type CheckId = nat

  /** What a replica's fields hold at one moment. */
  datatype Value = Value(ids: NameIds, d: Defs, subjects: set<SubjectType>, entries: Entries.Store)

  ghost function ValueOf(r: Replica): Value
    reads r, r.names, r.names.types, r.names.relations, r.names.objects
  {
    Value(r.names.Known(), r.schema.d, r.subjects, r.entries)
  }

  /** v is some schema and some set of tuples in full, with no change part way in. */
  ghost predicate Holds(v: Value, defs: seq<Grammar.Definition>, held: set<Tuples.Tuple>) {
    && v.ids.Ok() && StoreOk(v.entries) && Represents(v.entries, v.ids, held)
    && Compile.Means(defs, v.ids, v.d) && Accepts(v.d)
    && (forall st :: st in v.subjects <==> AcceptedSomewhere(v.d, st))
  }

  ghost predicate Whole(v: Value) { exists defs, held :: Holds(v, defs, held) }

  /** Every replica is whole between the methods that change it. */
  lemma ReplicaIsWhole(r: Replica)
    requires r.Valid()
    ensures Holds(ValueOf(r), r.defs, r.held)
  {
    r.names.KnownOk();
  }

  /** What a check asks of the replica, in any order and any number of times. */
  datatype Question =
    | Names                                // for its request's ids, and the schema
    | Direct(k: Key, s: SubjectRef)
    | Subjects(k: Key)
    | Wildcard(k: Key, typ: TypeId)

  datatype Answer =
    | Known(ids: NameIds, d: Defs, subjects: set<SubjectType>)
    | Found(res: LookupResult)
    | Listed(out: seq<SubjectRef>)
    | Granted(granted: bool)

  ghost function Ask(v: Value, q: Question): Answer {
    match q
    case Names => Known(v.ids, v.d, v.subjects)
    case Direct(k, s) => Found(SourceOf(v.entries).lookup(k, s))
    case Subjects(k) => Listed(SourceOf(v.entries).subjects(k))
    case Wildcard(k, typ) => Granted(SourceOf(v.entries).hasWildcard(k, typ))
  }

  datatype Exchange = Exchange(question: Question, answer: Answer)

  /** The replica the store points at, if it is ready. */
  datatype Current = NotReady | Ready(value: Value)

  /** Where the feeder is: between calls, building a new replica outside the lock, or changing the current one inside it. */
  datatype Feeder = Idle | Building | Applying

  /** A check under its read lock: what it found when it started, and what each of its reads returned. */
  datatype Check = Check(found: Current, told: seq<Exchange>)

  datatype State = State(current: Current, feeder: Feeder, checks: map<CheckId, Check>, done: set<Check>)

  ghost predicate Init(s: State) { s == State(NotReady, Idle, map[], {}) }

  datatype Step =
    | ResetDrops                      // takes the lock, drops the replica, releases the lock
    | ResetEnds(ok: bool, value: Value)
    | ApplyStarts                     // takes the lock and keeps it
    | ApplyWrites(value: Value)       // a name interned, a key merged, the schema replaced: whatever it leaves for now
    | ApplyEnds(ok: bool)
    | CheckStarts(c: CheckId)         // takes the read lock
    | CheckReads(c: CheckId, question: Question)
    | CheckEnds(c: CheckId)

  /** The write lock is free to take: nobody holds the lock for reading. */
  predicate Unread(s: State) { s.checks == map[] }

  ghost predicate Enabled(s: State, step: Step) {
    match step
    case ResetDrops => s.feeder.Idle? && Unread(s)
    case ResetEnds(ok, v) => s.feeder.Building? && (ok ==> Unread(s) && Whole(v))
    case ApplyStarts => s.feeder.Idle? && Unread(s)
    case ApplyWrites(_) => s.feeder.Applying?
    case ApplyEnds(ok) => s.feeder.Applying? && (ok ==> s.current.Ready? && Whole(s.current.value))
    case CheckStarts(c) => c !in s.checks && !s.feeder.Applying?
    case CheckReads(c, _) => c in s.checks && s.checks[c].found.Ready? && s.current.Ready?
    case CheckEnds(c) => c in s.checks
  }

  ghost function Do(s: State, step: Step): State
    requires Enabled(s, step)
  {
    match step
    case ResetDrops => s.(current := NotReady, feeder := Building)
    case ResetEnds(ok, v) => s.(current := if ok then Ready(v) else s.current, feeder := Idle)
    case ApplyStarts => if s.current.Ready? then s.(feeder := Applying) else s
    case ApplyWrites(v) => s.(current := Ready(v))
    case ApplyEnds(ok) => s.(current := if ok then s.current else NotReady, feeder := Idle)
    case CheckStarts(c) => s.(checks := s.checks[c := Check(s.current, [])])
    case CheckReads(c, q) =>
      s.(checks := s.checks[c := s.checks[c].(told := s.checks[c].told + [Exchange(q, Ask(s.current.value, q))])])
    case CheckEnds(c) => s.(checks := s.checks - {c}, done := s.done + {s.checks[c]})
  }

  ghost predicate Run(states: seq<State>, steps: seq<Step>) {
    && |states| == |steps| + 1 && Init(states[0])
    && forall i :: 0 <= i < |steps| ==> Enabled(states[i], steps[i]) && states[i + 1] == Do(states[i], steps[i])
  }

  /** Every read was answered from the one whole value that was there at the start. */
  ghost predicate Consistent(c: Check) {
    match c.found
    case NotReady => c.told == []
    case Ready(v) => Whole(v) && forall r :: r in c.told ==> r.answer == Ask(v, r.question)
  }

  ghost predicate Inv(s: State) {
    && (s.feeder.Applying? ==> s.checks == map[] && s.current.Ready?)
    && (s.feeder.Building? ==> s.current.NotReady?)
    && (s.current.Ready? && !s.feeder.Applying? ==> Whole(s.current.value))
    && (forall c :: c in s.checks ==> s.checks[c].found == s.current && Consistent(s.checks[c]))
    && (forall c :: c in s.done ==> Consistent(c))
  }

  lemma StepKeeps(s: State, step: Step)
    requires Inv(s) && Enabled(s, step)
    ensures Inv(Do(s, step))
  {
    hide Whole, Ask;
  }

  lemma {:induction false} EveryState(states: seq<State>, steps: seq<Step>, i: nat)
    requires Run(states, steps) && i < |states|
    ensures Inv(states[i])
  {
    hide Enabled, Do, Inv;
    if i == 0 {
      Begins(states[0]);
    } else {
      EveryState(states, steps, i - 1);
      StepKeeps(states[i - 1], steps[i - 1]);
      assert states[i - 1 + 1] == Do(states[i - 1], steps[i - 1]);
    }
  }

  lemma Begins(s: State)
    requires Init(s)
    ensures Inv(s)
  {
  }

  /** One schema and one set of tuples account for everything c was told. */
  ghost predicate OneRevision(c: Check, v: Value, defs: seq<Grammar.Definition>, held: set<Tuples.Tuple>) {
    && Holds(v, defs, held) && Faithful(SourceOf(v.entries), IdTuples(v.ids, held))
    && forall r :: r in c.told ==> r.answer == Ask(v, r.question)
  }

  /** However checks and changes interleave, all reads of a check, finished or not, are answered as one schema in full
      and one plain set of tuples would answer them: no change lands between two of them, nor part of a change before. */
  lemma ReadsOneRevision(states: seq<State>, steps: seq<Step>, i: nat, c: Check)
    requires Run(states, steps) && i < |states| && (c in states[i].done || c in states[i].checks.Values)
    ensures c.found.NotReady? ==> c.told == []
    ensures c.found.Ready? ==> exists defs, held :: OneRevision(c, c.found.value, defs, held)
  {
    hide Run, Holds, Faithful;
    EveryState(states, steps, i);
    assert Consistent(c);
    if c.found.Ready? {
      var defs, held :| Holds(c.found.value, defs, held);
      WholeAnswers(c.found.value, defs, held);
      assert OneRevision(c, c.found.value, defs, held);
    }
  }

  lemma WholeAnswers(v: Value, defs: seq<Grammar.Definition>, held: set<Tuples.Tuple>)
    requires Holds(v, defs, held)
    ensures Faithful(SourceOf(v.entries), IdTuples(v.ids, held))
  {
    AnswersAsSet(v.entries, v.ids, held);
  }

  predicate ResetSucceeds(step: Step) { step.ResetEnds? && step.ok }

  /** After a failed Apply or Reset, and from a Reset's start, every check finds the store not ready until a Reset succeeds. */
  lemma {:induction false} NotReadyUntilReset(states: seq<State>, steps: seq<Step>, i: nat, j: nat)
    requires Run(states, steps) && i < j <= |steps|
    requires steps[i] == ResetDrops || ((steps[i].ApplyEnds? || steps[i].ResetEnds?) && !steps[i].ok)
    requires forall k :: i < k < j ==> !ResetSucceeds(steps[k])
    ensures states[j].current.NotReady?
    ensures j < |steps| && steps[j].CheckStarts? ==> states[j + 1].checks[steps[j].c] == Check(NotReady, [])
  {
    EveryState(states, steps, j - 1);
    assert states[j - 1 + 1] == Do(states[j - 1], steps[j - 1]) && Enabled(states[j - 1], steps[j - 1]);
    if i < j - 1 { NotReadyUntilReset(states, steps, i, j - 1); }
    if j < |steps| { assert states[j + 1] == Do(states[j], steps[j]); }
  }

  // ---- Checks are served ----

  ghost predicate Reaches(states: seq<State>, steps: seq<Step>, s: State) { Run(states, steps) && states[|states| - 1] == s }

  ghost predicate Reachable(s: State) { exists states, steps :: Reaches(states, steps, s) }

  lemma Goes(s: State, step: Step)
    requires Reachable(s) && Enabled(s, step)
    ensures Reachable(Do(s, step))
  {
    hide Enabled, Do, Init;
    var states, steps :| Reaches(states, steps, s);
    var more, taken := states + [Do(s, step)], steps + [step];
    forall i | 0 <= i < |taken| ensures Enabled(more[i], taken[i]) && more[i + 1] == Do(more[i], taken[i]) {
      if i < |steps| { assert more[i] == states[i] && more[i + 1] == states[i + 1]; } else { assert more[i] == s; }
    }
    assert Reaches(more, taken, Do(s, step));
  }

  /** A check that found v whole and asked it one question. */
  ghost function Asking(v: Value, q: Question): Check { Check(Ready(v), [Exchange(q, Ask(v, q))]) }

  /** Whatever the store is filled with and then moved on to, through whatever comes between, checks are served from both. */
  lemma ChecksAreServed(before: Value, between: Value, after: Value, q: Question)
    requires Whole(before) && Whole(after)
    ensures exists s :: Reachable(s) && s.current == Ready(after) && s.done == {Asking(before, q), Asking(after, q)}
  {
    hide Whole, Ask, Reachable;
    var s := State(NotReady, Idle, map[], {});
    NothingYet(s);
    Goes(s, ResetDrops);
    s := Do(s, ResetDrops);
    Goes(s, ResetEnds(true, before));
    s := Do(s, ResetEnds(true, before));
    s := Served(s, before, q);
    Goes(s, ApplyStarts);
    s := Do(s, ApplyStarts);
    Goes(s, ApplyWrites(between));
    s := Do(s, ApplyWrites(between));
    Goes(s, ApplyWrites(after));
    s := Do(s, ApplyWrites(after));
    Goes(s, ApplyEnds(true));
    s := Do(s, ApplyEnds(true));
    s := Served(s, after, q);
  }

  lemma NothingYet(s: State)
    requires Init(s)
    ensures Reachable(s)
  {
    assert Reaches([s], [], s);
  }

  lemma Served(s: State, v: Value, q: Question) returns (s': State)
    requires Reachable(s) && s.feeder.Idle? && s.checks == map[] && s.current == Ready(v)
    ensures Reachable(s') && s' == s.(done := s.done + {Asking(v, q)})
  {
    hide Whole, Ask, Reachable;
    Goes(s, CheckStarts(0));
    var a := Do(s, CheckStarts(0));
    Goes(a, CheckReads(0, q));
    var b := Do(a, CheckReads(0, q));
    Goes(b, CheckEnds(0));
    s' := Do(b, CheckEnds(0));
    assert b.checks[0].told == [Exchange(q, Ask(v, q))];
    assert b.checks - {0} == map[];
  }
}
