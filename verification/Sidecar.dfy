/** The store a sidecar answers from: one replica at a time, replaced by resets and moved on by change lists. */
module Sidecar {
  import opened Refs
  import opened Schema
  import opened Model
  import opened Builder
  import opened Evaluator
  import opened Engine
  import opened Dictionaries
  import opened Naming
  import opened Entries
  import opened Replicas
  import opened Requests
  import Agreement
  import Compile
  import Names
  import Parsing
  import Tuples

  datatype Decision = NotReady | Refused(why: Resolution) | Failed(error: Error) | Decided(allowed: bool)

  class Store {
    var current: Replica?   // null while not ready

    ghost predicate Valid()
      reads this, current, if current == null then {} else {current.names, current.names.types, current.names.relations, current.names.objects}
    {
      current != null ==> current.Valid()
    }

    constructor ()
      ensures Valid() && current == null
    {
      current := null;
    }

    /** Starts over from a whole set of tuples; whatever was held before is gone either way. */
    method Reset(revision: Revision, schema: string, tuples: seq<Tuples.Tuple>) returns (ok: bool, ghost names: Dictionary)
      requires OneEach(AllPresent(tuples))
      modifies this
      ensures Valid() && (ok <==> current != null)
      ensures ok ==> current.revision == revision && current.held == (set t | t in tuples)
      ensures ok ==> Parsing.Meaning(schema) == Parsing.Definitions(current.defs)
      ensures fresh(names) && (!ok ==> names.Full() || SourceRefused(schema, names.Known()))
    {
      hide Parsing.Meaning, Replica.Valid, OneEach;
      current := null;
      var r: Replica?;
      r, names := NewReplica(revision, schema, tuples);
      current := r;
      ok := r != null;
    }

    /** After a failure checks are refused until a Reset succeeds. */
    method Apply(revision: Revision, schema: Option<string>, changes: seq<Change>) returns (ok: bool)
      requires Valid() && OneEach(changes)
      modifies this, current, if current == null then {} else {current.names.types, current.names.relations, current.names.objects}
      ensures Valid() && (ok <==> current != null)
      ensures ok ==> old(current) == current && current.revision == revision
      ensures ok ==> current.held == After(old(if current == null then {} else current.held), changes)
      ensures ok ==> if schema.None? then current.defs == old(if current == null then [] else current.defs)
                     else Parsing.Meaning(schema.value) == Parsing.Definitions(current.defs)
      ensures !ok && old(current) != null ==> var names := old(current.names);
        names.Full() || (schema.Some? && SourceRefused(schema.value, names.Known()))
    {
      hide Parsing.Meaning, Replica.Valid, OneEach, After;
      if current == null { return false; }
      ok := current.Apply(revision, schema, changes);
      if !ok { current := null; }
    }

    method CurrentRevision() returns (r: Option<Revision>)
      ensures (r.None? <==> current == null) && (r.Some? ==> r.value == current.revision)
    {
      if current == null { return None; }
      return Some(current.revision);
    }

    /** Decided by the fixed point over the replica's tuples. Names without an id match nothing, and a subject
        of a type nothing accepts is refused. */
    method Check(q: NamedRequest, outside: Calls) returns (res: Decision, ghost calls: nat)
      requires Valid()
      ensures res.NotReady? <==> current == null
      ensures current != null ==> var r := Resolve(current.names.Known(), current.subjects, q);
                                  if r.Asks? then !res.Refused? else res == Refused(r)
      ensures res.Decided? ==> Resolve(current.names.Known(), current.subjects, q).request.WellFormed()
      ensures res.Decided? ==> var r := current;
        Answers(r.names.Known(), r.schema.d, r.held, Resolve(r.names.Known(), r.subjects, q).request, res.allowed)
      ensures res.Decided? ==> Quiet(outside, calls) && var r := current;
        (res.allowed <==> Granted(r.schema.d, IdTuples(r.names.Known(), r.held), Resolve(r.names.Known(), r.subjects, q).request))
      ensures res.Failed? ==> var r := current;
        Excuses(r.schema.d, IdTuples(r.names.Known(), r.held), Resolve(r.names.Known(), r.subjects, q).request, q, outside, calls,
                res.error)
      ensures current != null && Resolve(current.names.Known(), current.subjects, q).Asks? && q.subjectID == Names.WILDCARD_MARKER ==>
        res == Failed(InvalidRequest)
      ensures current != null && Answerable(current, q) && (forall n :: outside(n).None?) ==> res.Decided?
    {
      if current == null { return NotReady, 0; }
      var r := current;
      if Resolve(r.names.Known(), r.subjects, q).Asks? { AskedIsWellFormed(r, q); }
      hide Granted, Quiet, Resolve, Accepts, Represents, StoreOk, Compile.Means, Faithful, NameIds.Ok, Entailed, Leveled,
           Engine.IsTree, Justified, CheckRequest.WellFormed;
      var asked := Resolve(r.names.Known(), r.subjects, q);
      if !asked.Asks? { return Refused(asked), 0; }
      r.names.KnownOk();
      AnswersAsSet(r.entries, r.names.Known(), r.held);
      var answer, err;
      answer, err, calls := Engine.Check(r.schema, SourceOf(r.entries), DEFAULT_MAX_DEPTH, asked.request, outside,
                                         IdTuples(r.names.Known(), r.held));
      if err.Some? { return Failed(err.value), calls; }
      return Decided(answer.allowed), calls;
    }
  }

  /** What a check may fail for: the failure the last call outside met, an undefined relation, a question too deep to
      bound, or a whole type for a subject, which is no question at all. */
  ghost predicate Excuses(d: Defs, tuples: set<Tuple>, request: CheckRequest, q: NamedRequest, outside: Calls, calls: nat, error: Error) {
    match error
    case FromOutside(code) => calls > 0 && outside(calls - 1) == Some(code) && Quiet(outside, calls - 1)
    case RelationUndefined => !d.Defined(request.Key().Ref())
    case MaxDepthExceeded => 50 < |WorldOf(d, tuples, request).Keys()|
    case InvalidRequest => q.subjectID == Names.WILDCARD_MARKER
    case _ => false
  }

  /** q asks about a relation r defines, of a concrete subject, and over no more keys than the depth allows. */
  ghost predicate Answerable(r: Replica, q: NamedRequest)
    reads r, r.names, r.names.types, r.names.relations, r.names.objects
  {
    var asked := Resolve(r.names.Known(), r.subjects, q);
    && asked.Asks? && q.subjectID != Names.WILDCARD_MARKER && r.schema.d.Defined(asked.request.Key().Ref())
    && |WorldOf(r.schema.d, IdTuples(r.names.Known(), r.held), asked.request).Keys()| <= 50
  }

  /** What is asked is well formed, but for the subject that stands for its whole type. */
  lemma AskedIsWellFormed(r: Replica, q: NamedRequest)
    requires r.Valid() && Resolve(r.names.Known(), r.subjects, q).Asks?
    ensures Resolve(r.names.Known(), r.subjects, q).request.WellFormed() <==> q.subjectID != Names.WILDCARD_MARKER
  {
    hide Represents, StoreOk, Names.IsObject, Names.IsRelation, Names.IsType, Accepts;
    r.names.KnownOk();
    Compile.EveryMemberCollected(r.defs, r.names.Known());
    SubjectTyped(r.schema.d, r.subjects, Resolve(r.names.Known(), r.subjects, q).request.subject);
  }

  /** No relation accepts a subject without a type. */
  lemma SubjectTyped(d: Defs, subjects: set<SubjectType>, subj: SubjectRef)
    requires Accepts(d) && Compile.ListsOk(d) && forall st :: st in subjects <==> AcceptedSomewhere(d, st)
    requires SubjectType(subj.typ, subj.relation, false) in subjects
    ensures subj.typ != 0
  {
    assert AcceptedSomewhere(d, SubjectType(subj.typ, subj.relation, false));
    var ref, a :| ref in d.allowed && a in d.allowed[ref] && a.typ == subj.typ;
    assert DefinitionOk(d, ref);
    var i :| 0 <= i < |d.Accepted(ref)| && d.Accepted(ref)[i] == a;
    assert EntryOk(d, d.Accepted(ref), i);
  }

  /** What of a ready store decides its answers. */
  ghost function SideOf(r: Replica, q: NamedRequest): Agreement.Side
    reads r, r.names, r.names.types, r.names.relations, r.names.objects
    requires r.Valid() && Resolve(r.names.Known(), r.subjects, q).Asks?
  {
    Agreement.Side(r.names.Known(), r.schema.d, r.subjects, Resolve(r.names.Known(), r.subjects, q).request)
  }

  /** Two ready stores with the same definitions in force and the same tuples held agree on every request that both answer. */
  lemma ReplicasAgree(r: Replica, s: Replica, q: NamedRequest, a: bool, b: bool)
    requires r.Valid() && s.Valid() && r.defs == s.defs && r.held == s.held
    requires Resolve(r.names.Known(), r.subjects, q).Asks? && Resolve(s.names.Known(), s.subjects, q).Asks?
    requires SideOf(r, q).request.WellFormed() && SideOf(s, q).request.WellFormed()
    requires Answers(r.names.Known(), r.schema.d, r.held, SideOf(r, q).request, a)
    requires Answers(s.names.Known(), s.schema.d, s.held, SideOf(s, q).request, b)
    ensures a == b
  {
    hide Answers, Compile.Means, Accepts, StoreOk, Resolve, CheckRequest.WellFormed;
    r.names.KnownOk();
    s.names.KnownOk();
    Agreement.SameDecisions(SideOf(r, q), SideOf(s, q), r.defs, r.held, q, a, b);
  }
}
