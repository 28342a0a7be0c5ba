/** The evaluator: memoized depth-first evaluation that finds and settles recursive components as it goes. */
module Evaluator {
  import opened Refs
  import opened Schema
  import opened Model
  import opened RunState
  import opened ProofTree

  const DEFAULT_MAX_DEPTH := 50

  datatype LookupResult = LookupResult(direct: bool, usersets: seq<SubjectRef>)

  /** Where the evaluator reads tuples from. Being a value, it cannot change under a check. */
  datatype Source = Source(
    lookup: (Key, SubjectRef) -> LookupResult,
    subjects: Key -> seq<SubjectRef>,
    hasWildcard: (Key, TypeId) -> bool)

  /** src answers as tuples would, in any order. What it lists beyond usersets or objects does not matter. */
  ghost predicate Faithful(src: Source, tuples: set<Tuple>) {
    && (forall k, s: SubjectRef :: !s.wildcard ==> (src.lookup(k, s).direct <==> Tuple(k.obj, k.relation, s) in tuples))
    && (forall k, s, us: SubjectRef :: us.relation != NO_RELATION && !us.wildcard ==>
          (us in src.lookup(k, s).usersets <==> Tuple(k.obj, k.relation, us) in tuples))
    && (forall k, s: SubjectRef :: s.relation == NO_RELATION && !s.wildcard ==>
          (s in src.subjects(k) <==> Tuple(k.obj, k.relation, s) in tuples))
    && (forall k, typ :: src.hasWildcard(k, typ) <==> Tuple(k.obj, k.relation, WildcardSubject(typ)) in tuples)
  }

  datatype Error = FromOutside(code: nat) | RelationUndefined | MaxDepthExceeded | UnsupportedOp | SchemaInvalid | InvalidRequest

  /** How the context and the source answer a check, call by call: with a failure, or with none. */
  type Calls = nat -> Option<nat>

  ghost predicate Quiet(outside: Calls, calls: nat) { forall n :: 0 <= n < calls ==> outside(n).None? }

  /** No call failed, or only the last, and then that failure is the error. */
  ghost predicate Reported(outside: Calls, calls: nat, err: Option<Error>) {
    if err.Some? && err.value.FromOutside? then
      calls > 0 && outside(calls - 1) == Some(err.value.code) && Quiet(outside, calls - 1)
    else Quiet(outside, calls)
  }

  // ---- What one evaluation step establishes ----

  ghost predicate Decided(g: Setting, s: State, s': State, rw: Rewrite, k: Key, negated: bool, allowed: bool, falses: set<Key>) {
    if allowed then Entails(g.w, rw, k, g.m, g.m)
    else
      && !Entails(g.w, rw, k, g.w.Keys() - falses, g.m)
      && FalseReads(g, s, s', falses)
      && (negated ==> falses !! g.m)
  }

  /** The frame's state moved on without disturbing anything known before. */
  ghost predicate Steps(g: Setting, s: State, s': State, f: Frame) {
    Inv(g, s') && FrameInv(g, s', f) && Extends(s, s') && s'.depth == s.depth && s'.lowlink <= s.lowlink
  }

  lemma StepsTrans(g: Setting, a: State, b: State, c: State, f: Frame)
    requires Steps(g, a, b, f) && Steps(g, b, c, f)
    ensures Steps(g, a, c, f)
  {
    hide Inv, FrameInv;
    ExtendsTrans(a, b, c);
  }

  /** More keys read as false refute no less. */
  lemma RefuteMore(g: Setting, rw: Rewrite, k: Key, falses: set<Key>, more: set<Key>)
    requires !Entails(g.w, rw, k, g.w.Keys() - falses, g.m) && falses <= more
    ensures !Entails(g.w, rw, k, g.w.Keys() - more, g.m)
  {
  }

  /** Under a subtract side, what was answered false does not hold. */
  lemma NegatedExact(g: Setting, s: State, s': State, rw: Rewrite, k: Key, allowed: bool, falses: set<Key>)
    requires g.Valid() && Decided(g, s, s', rw, k, true, allowed, falses)
    ensures allowed <==> Entails(g.w, rw, k, g.m, g.m)
  {
  }

  // ---- Reading one key ----

  /** Where a relation is called from: nowhere, at the top of a check, or a frame on or above the key's level. */
  ghost predicate CallOk(g: Setting, s: State, caller: Option<Frame>, k: Key) {
    match caller
    case None => s.stack == []
    case Some(f) => FrameInv(g, s, f) && g.Lv(k) <= g.Lv(f.cur)
  }

  ghost predicate Returned(g: Setting, s: State, s': State, caller: Option<Frame>, k: Key, allowed: bool) {
    && Inv(g, s') && Extends(s, s') && s'.depth == s.depth
    && (match caller
        case None => s'.stack == []
        case Some(f) => FrameInv(g, s', f) && s'.lowlink <= s.lowlink)
    && k in s'.memo
    && if allowed then k in g.m else FalseRead(g, s, s', k)
  }

  /** A key read through a subtract side sits below the frame's level, so its component is settled by the time it answers. */
  lemma SubtractReadIsFinal(g: Setting, s: State, s': State, f: Frame, k: Key, allowed: bool)
    requires Returned(g, s, s', Some(f), k, allowed) && g.Lv(k) < g.Lv(f.cur)
    ensures Popped(s'.memo, k) && (allowed <==> k in g.m)
  {
  }

  /** What reading a memoized key returns. */
  lemma HitReturns(g: Setting, s: State, caller: Option<Frame>, k: Key)
    requires g.Valid() && Inv(g, s) && CallOk(g, s, caller, k) && k in s.memo
    ensures Returned(g, s, Hit(s, k), caller, k, Holds(s.memo, k))
    ensures Holds(s.memo, k) ==> g.w.d.Defined(k.Ref()) && Entails(g.w, g.w.d.rewrites[k.Ref()], k, g.m, g.m)
  {
    HitKeeps(g, s, k);
    if caller.Some? { HitKeepsFrame(g, s, caller.value, k); }
    if Holds(s.memo, k) { ModelSupported(g.w, g.m, k); }
    hide StackOk, WhysOk, FrameInv, Extends, FalseRead, Entails, SoundDefs, IsModel;
  }

  lemma RecordedNothing(g: Setting, l: Log)
    requires TreeOk(l) && TruthOk(g, l)
    ensures Recorded(g, l, l, NO_NODE)
  {
  }

  // ---- Measures ----

  ghost function Unknown(g: Setting, memo: Memo): nat { |g.w.Keys() - memo.Keys| }
  ghost function NotTrue(g: Setting, memo: Memo): set<Key> { set k | k in g.w.Keys() && !Holds(memo, k) }

  /** What can still change: a key can come in, or become true. */
  ghost function Room(g: Setting, memo: Memo): nat { Unknown(g, memo) + |NotTrue(g, memo)| }

  lemma UnknownShrinks(g: Setting, memo: Memo, memo': Memo)
    requires memo.Keys <= memo'.Keys
    ensures Unknown(g, memo') <= Unknown(g, memo)
    ensures (exists k :: k in memo'.Keys && k !in memo.Keys && k in g.w.Keys()) ==> Unknown(g, memo') < Unknown(g, memo)
  {
    SubsetSize(g.w.Keys() - memo'.Keys, g.w.Keys() - memo.Keys);
  }

  /** From s to s' keys came in and answers rose, and nothing else changed in the memo. */
  ghost predicate Rises(s: State, s': State) {
    && (forall k :: k in s.memo ==> k in s'.memo && s'.memo[k].index == s.memo[k].index)
    && (forall k :: Holds(s.memo, k) ==> Holds(s'.memo, k))
    && s.stack <= s'.stack
  }

  lemma RoomShrinks(g: Setting, s: State, s': State)
    requires Rises(s, s')
    ensures Unknown(g, s'.memo) <= Unknown(g, s.memo) && Room(g, s'.memo) <= Room(g, s.memo)
    ensures (exists k :: k in g.w.Keys() && !Holds(s.memo, k) && Holds(s'.memo, k)) ==> Room(g, s'.memo) < Room(g, s.memo)
    ensures (exists k :: k in g.w.Keys() && k !in s.memo && k in s'.memo) ==> Room(g, s'.memo) < Room(g, s.memo)
  {
    UnknownShrinks(g, s.memo, s'.memo);
    SubsetSize(NotTrue(g, s'.memo), NotTrue(g, s.memo));
    if k :| k in g.w.Keys() && !Holds(s.memo, k) && Holds(s'.memo, k) {
      assert k in NotTrue(g, s.memo) && k !in NotTrue(g, s'.memo);
    }
  }

  /** A taller stack holds a key that was not known. */
  lemma TallerIsNew(g: Setting, s: State, s': State)
    requires Inv(g, s) && Inv(g, s') && Rises(s, s') && |s'.stack| > |s.stack|
    ensures exists k :: k in g.w.Keys() && k !in s.memo && k in s'.memo
  {
    hide WhysOk;
    var k := s'.stack[|s.stack|];
    assert k in s'.stack;
    assert k !in s.stack;
    assert k in g.w.Keys() && k !in s.memo && k in s'.memo;
  }

  /** With nothing below it on the stack, a frame is its component's root. */
  lemma BottomIsRoot(g: Setting, s: State, f: Frame)
    requires Inv(g, s) && FrameInv(g, s, f) && f.pos == 0
    ensures s.lowlink == IndexOf(s.memo, f.cur)
  {
  }

  /** A frame is entered for a key not known yet, so frames in progress are fewer than the keys. */
  lemma DepthBelowKeys(g: Setting, s: State, k: Key)
    requires Inv(g, s) && k in g.w.Keys() && k !in s.memo
    ensures s.depth < |g.w.Keys()|
  {
    hide StackOk, WhysOk;
    assert s.memo.Keys <= g.w.Keys() - {k};
    SubsetSize(s.memo.Keys, g.w.Keys() - {k});
    assert |s.memo| == |s.memo.Keys|;
    assert |g.w.Keys() - {k}| == |g.w.Keys()| - 1;
  }

  // ---- One relation call, step by step ----

  ghost predicate EvalOk(g: Setting, s: State, f: Frame, k: Key) {
    Inv(g, s) && FrameInv(g, s, f) && k in g.w.Keys() && g.Lv(k) == g.Lv(f.cur)
  }

  ghost predicate Evaluated(g: Setting, s: State, s': State, f: Frame, rw: Rewrite, k: Key, negated: bool,
                            allowed: bool, falses: set<Key>) {
    Steps(g, s, s', f) && Decided(g, s, s', rw, k, negated, allowed, falses)
  }

  /** f's key has its first answer, and its component starts where the stack ended at s0. */
  ghost predicate Settling(g: Setting, s0: State, s: State, f: Frame) {
    && Inv(g, s0) && Inv(g, s) && FrameInv(g, s, f) && Extends(s0, s)
    && f.pos == |s0.stack| && f.cur in s.memo && s.memo[f.cur].state != Computing
  }

  lemma SoundAt(g: Setting, k: Key)
    requires g.Valid() && g.w.d.Defined(k.Ref())
    ensures Sound(g.w.d, g.lv, k.Ref(), g.w.d.rewrites[k.Ref()], false)
    ensures Defines(g, g.w.d.rewrites[k.Ref()], k)
  {
  }

  lemma CallLevels(g: Setting, s: State, caller: Option<Frame>, k: Key)
    requires CallOk(g, s, caller, k)
    ensures forall v :: v in s.stack ==> g.Lv(v) >= g.Lv(k)
  {
  }

  lemma PushEnters(g: Setting, s: State, caller: Option<Frame>, k: Key)
    requires Inv(g, s) && CallOk(g, s, caller, k) && k !in s.memo && k in g.w.Keys()
    ensures EvalOk(g, Push(s, k), Frame(k, |s.stack|), k) && Extends(s, Push(s, k))
    ensures Unknown(g, Push(s, k).memo) < Unknown(g, s.memo)
  {
    hide Inv, FrameInv, CallOk, Extends;
    CallLevels(g, s, caller, k);
    PushKeeps(g, s, k);
    PushExtends(s, k);
    PushFrame(g, s, k);
    UnknownShrinks(g, s.memo, Push(s, k).memo);
    assert k in Push(s, k).memo.Keys;
  }

  lemma DecidedAnswers(g: Setting, s: State, s': State, rw: Rewrite, k: Key, allowed: bool, falses: set<Key>)
    requires g.Valid() && k in g.w.Keys() && g.w.d.Defined(k.Ref()) && rw == g.w.d.rewrites[k.Ref()]
    requires Decided(g, s, s', rw, k, false, allowed, falses)
    ensures Answered(g, s, s', k, allowed, falses)
  {
  }

  lemma EvalConcludes(g: Setting, s: State, s': State, f: Frame, rw: Rewrite, allowed: bool, falses: set<Key>)
    requires g.Valid() && Inv(g, s) && f.cur !in s.memo && f.cur in g.w.Keys() && f.pos == |s.stack|
    requires g.w.d.Defined(f.cur.Ref()) && rw == g.w.d.rewrites[f.cur.Ref()]
    requires Evaluated(g, Push(s, f.cur), s', f, rw, f.cur, false, allowed, falses)
    ensures f.cur in s'.memo && IndexOf(s'.memo, f.cur) == s.index + 1 && s'.depth == s.depth + 1
    ensures Settling(g, s, Conclude(s', f.cur, allowed, falses), f)
    ensures Unknown(g, Conclude(s', f.cur, allowed, falses).memo) < Unknown(g, s.memo)
    ensures allowed ==> f.cur in g.m
  {
    hide Decided, FalseReads, Setting.Valid, Unknown, Inv, FrameInv, Extends, Settling, Refutes;
    var s1 := Push(s, f.cur);
    DecidedAnswers(g, s1, s', rw, f.cur, allowed, falses);
    KeptKey(s1, s', f.cur);
    PushExtends(s, f.cur);
    ExtendsTrans(s, s1, s');
    FrameOnStack(g, s', f);
    ConcludeSettles(g, s, s1, s', f, 0, allowed, falses);
    ConcludeKnows(s, s', f.cur, allowed, falses);
    UnknownShrinks(g, s.memo, Conclude(s', f.cur, allowed, falses).memo);
  }

  lemma ConcludeKnows(s: State, s': State, k: Key, allowed: bool, falses: set<Key>)
    requires Extends(s, s')
    ensures s.memo.Keys <= Conclude(s', k, allowed, falses).memo.Keys && k in Conclude(s', k, allowed, falses).memo.Keys
  {
  }

  /** Concluding a key of f's component. */
  lemma ConcludeSettles(g: Setting, s0: State, t: State, t': State, f: Frame, i: nat, allowed: bool, falses: set<Key>)
    requires Inv(g, s0) && Inv(g, t') && FrameInv(g, t', f) && Extends(s0, t') && f.pos == |s0.stack|
    requires f.pos + i < |t'.stack| && f.cur in t'.memo && !Holds(t'.memo, t'.stack[f.pos + i])
    requires i == 0 || t'.memo[f.cur].state != Computing
    requires Answered(g, t, t', t'.stack[f.pos + i], allowed, falses)
    ensures Settling(g, s0, Conclude(t', t'.stack[f.pos + i], allowed, falses), f)
  {
    hide Inv, FrameInv, Extends, Answered, StackOk, Holds;
    var k := t'.stack[f.pos + i];
    FrameOnStack(g, t', f);
    InvStacks(g, t');
    assert k in t'.stack && k in t'.stack[f.pos..];
    ConcludeKeeps(g, t, t', k, allowed, falses);
    ConcludeFrame(g, t, t', f, k, allowed, falses);
    ConcludeExtends(g, s0, t', f.pos + i, allowed, falses);
  }

  lemma FrameOnStack(g: Setting, s: State, f: Frame)
    requires FrameInv(g, s, f)
    ensures f.pos < |s.stack| && s.stack[f.pos] == f.cur && f.cur in s.stack && f.cur in s.stack[f.pos..]
    ensures 0 < s.lowlink <= IndexOf(s.memo, f.cur)
  {
  }

  lemma SettlingStack(g: Setting, s0: State, s: State, f: Frame)
    requires Settling(g, s0, s, f)
    ensures f.pos < |s.stack| && forall k :: k in s.stack[f.pos..] ==> k in s.memo
    ensures f.cur in s.stack[f.pos..] && s.stack[f.pos] == f.cur && s.lowlink <= IndexOf(s.memo, f.cur)
    ensures f.cur !in s0.memo && 0 < IndexOf(s.memo, f.cur)
  {
    hide MemoOk, WhysOk, SubtreeOk;
    FrameOnStack(g, s, f);
    assert forall k :: k in s.stack[f.pos..] ==> k in s.stack;
    NewOnStack(s0, s, f.pos);
  }

  /** The root's own answer, once its component is popped. */
  lemma RootAnswers(g: Setting, s0: State, s: State, f: Frame, allowed: bool)
    requires g.Valid() && Settling(g, s0, s, f) && s.lowlink == IndexOf(s.memo, f.cur) && Stable(s, f.pos, |s.stack|)
    requires allowed <==> s.memo[f.cur].state == True
    ensures Inv(g, PopAll(s, f.pos)) && Extends(s0, PopAll(s, f.pos)) && PopAll(s, f.pos).stack == s0.stack
    ensures Popped(PopAll(s, f.pos).memo, f.cur) && !(allowed && Fails(s.memo, f.cur))
    ensures Holds(PopAll(s, f.pos).memo, f.cur) == allowed && (allowed <==> f.cur in g.m)
    ensures allowed ==> g.w.d.Defined(f.cur.Ref()) && Entails(g.w, g.w.d.rewrites[f.cur.Ref()], f.cur, g.m, g.m)
  {
    hide StackOk, MemoOk, WhysOk, FrameInv, Extends, Stable, SoundDefs, Entails, IsModel;
    SettlingStack(g, s0, s, f);
    PopKeeps(g, s0, s, f);
    PoppedAnswer(g, s, f.pos, f.cur);
    if allowed { ModelSupported(g.w, g.m, f.cur); }
  }

  /** A popped key's answer is what it was on the stack, and final. */
  lemma PoppedAnswer(g: Setting, s: State, pos: nat, k: Key)
    requires pos <= |s.stack| && k in s.stack[pos..] && k in s.memo && s.memo[k].state != Computing
    requires MemoOk(g, PopAll(s, pos).memo)
    ensures Popped(PopAll(s, pos).memo, k) && PopAll(s, pos).memo[k].state == s.memo[k].state
    ensures s.memo[k].state == StateOf(k in g.m)
  {
  }

  lemma PoppedReturns(g: Setting, s0: State, t: State, caller: Option<Frame>, k: Key, allowed: bool)
    requires Inv(g, s0) && Inv(g, t) && Extends(s0, t) && t.stack == s0.stack && t.depth == s0.depth + 1
    requires CallOk(g, s0, caller, k) && (caller.Some? ==> t.lowlink >= s0.lowlink)
    requires Popped(t.memo, k) && Holds(t.memo, k) == allowed && (allowed <==> k in g.m)
    ensures Returned(g, s0, Return(t, s0.lowlink), caller, k, allowed)
  {
    hide Inv, FrameInv, Extends;
    DepthFits(g, s0, t);
    ReturnExtends(s0, t);
    if caller.Some? { ReturnSettled(g, s0, t, caller.value); }
  }

  lemma ReturnExtends(s0: State, t: State)
    requires Extends(s0, t)
    ensures Extends(s0, Return(t, s0.lowlink))
  {
  }

  lemma RootReturns(g: Setting, s0: State, s: State, caller: Option<Frame>, f: Frame, allowed: bool)
    requires g.Valid() && Settling(g, s0, s, f) && s.lowlink == IndexOf(s.memo, f.cur) && Stable(s, f.pos, |s.stack|)
    requires allowed <==> s.memo[f.cur].state == True
    requires CallOk(g, s0, caller, f.cur) && s.depth == s0.depth + 1
    ensures Returned(g, s0, Return(PopAll(s, f.pos), s0.lowlink), caller, f.cur, allowed)
  {
    hide Inv, FrameInv, Extends, Stable, CallOk, Returned, Setting.Valid;
    SettlingStack(g, s0, s, f);
    RootAnswers(g, s0, s, f, allowed);
    if caller.Some? { RootIsHigher(g, s0, s, caller, f); }
    PoppedReturns(g, s0, PopAll(s, f.pos), caller, f.cur, allowed);
  }

  lemma RootIsHigher(g: Setting, s0: State, s: State, caller: Option<Frame>, f: Frame)
    requires Settling(g, s0, s, f) && s.lowlink == IndexOf(s.memo, f.cur) && CallOk(g, s0, caller, f.cur) && caller.Some?
    ensures s.lowlink >= s0.lowlink
  {
    SettlingStack(g, s0, s, f);
    FrameOnStack(g, s0, caller.value);
    hide MemoOk, WhysOk, FrameInv;
    assert s.stack[caller.value.pos] == caller.value.cur;
  }

  /** Leaving a frame keeps the bound on depth: the frame's key is known now. */
  lemma DepthFits(g: Setting, s0: State, t: State)
    requires Inv(g, s0) && Inv(g, t) && t.depth == s0.depth + 1
    ensures Inv(g, Return(t, s0.lowlink))
  {
  }

  /** A callee that is not its component's root has a caller, and its stale answer reads as false. */
  lemma UnsettledReturns(g: Setting, s0: State, s: State, caller: Option<Frame>, f: Frame, allowed: bool)
    requires Settling(g, s0, s, f) && s.lowlink != IndexOf(s.memo, f.cur)
    requires CallOk(g, s0, caller, f.cur) && s.depth == s0.depth + 1
    requires allowed ==> f.cur in g.m
    ensures Returned(g, s0, Return(s, s0.lowlink), caller, f.cur, allowed)
  {
    hide Inv, FrameInv;
    SettlingStack(g, s0, s, f);
    DepthFits(g, s0, s);
    if caller.Some? {
      ReturnUnsettled(g, s0, s, caller.value, f);
    } else {
      BottomIsRoot(g, s, f);
    }
  }

  lemma RecordedOver(g: Setting, l: Log, mid: Log, l': Log, idx: int, rw: Rewrite, k: Key, allowed: bool)
    requires Recorded(g, l, mid, idx) && Told(mid, idx, rw, k, allowed) && Recorded(g, mid, l', NO_NODE)
    ensures Recorded(g, l, l', idx) && Told(l', idx, rw, k, allowed)
  {
  }

  // ---- Evaluating one rewrite, operand by operand ----

  /** Evaluation has come from s to s', reading falses as false on the way. */
  ghost predicate Progress(g: Setting, s: State, s': State, f: Frame, k: Key, falses: set<Key>) {
    EvalOk(g, s', f, k) && Steps(g, s, s', f) && FalseReads(g, s, s', falses) && Unknown(g, s'.memo) <= Unknown(g, s.memo)
  }

  lemma ProgressStart(g: Setting, s: State, f: Frame, k: Key)
    requires EvalOk(g, s, f, k)
    ensures Progress(g, s, s, f, k, {})
  {
    hide Inv, FrameInv;
  }

  lemma ProgressOn(g: Setting, s: State, mid: State, s': State, f: Frame, k: Key, falses: set<Key>, more: set<Key>)
    requires Progress(g, s, mid, f, k, falses) && Steps(g, mid, s', f) && FalseReads(g, mid, s', more)
    ensures Progress(g, s, s', f, k, falses + more)
  {
    hide Inv, FrameInv, FalseReads;
    StepsTrans(g, s, mid, s', f);
    ReadsGrow(g, s, mid, s', falses, more);
    UnknownShrinks(g, mid.memo, s'.memo);
    hide Extends;
  }

  lemma ProgressQuiet(g: Setting, s: State, mid: State, s': State, f: Frame, k: Key)
    requires Progress(g, s, mid, f, k, {}) && Steps(g, mid, s', f)
    ensures Progress(g, s, s', f, k, {})
  {
    hide Steps, EvalOk, FalseRead, Unknown;
    ProgressOn(g, s, mid, s', f, k, {}, {});
    var none: set<Key> := {};
    assert none + none == none;
  }

  lemma StepsSelf(g: Setting, s: State, f: Frame, k: Key)
    requires EvalOk(g, s, f, k)
    ensures Steps(g, s, s, f)
  {
  }

  lemma EvaluatedTrue(g: Setting, s: State, mid: State, s': State, f: Frame, rw: Rewrite, k: Key, negated: bool, falses: set<Key>)
    requires Progress(g, s, mid, f, k, falses) && Steps(g, mid, s', f) && Entails(g.w, rw, k, g.m, g.m)
    ensures Evaluated(g, s, s', f, rw, k, negated, true, {})
  {
    hide Inv, FrameInv, FalseReads, Entails;
    StepsTrans(g, s, mid, s', f);
  }

  lemma EvaluatedFalse(g: Setting, s: State, s': State, f: Frame, rw: Rewrite, k: Key, negated: bool, falses: set<Key>)
    requires Progress(g, s, s', f, k, falses) && !Entails(g.w, rw, k, g.w.Keys() - falses, g.m)
    requires negated ==> falses !! g.m
    ensures Evaluated(g, s, s', f, rw, k, negated, false, falses)
  {
    hide Inv, FrameInv, FalseReads, Entails;
  }

  lemma EvaluatedAllowed(g: Setting, s: State, s': State, f: Frame, rw: Rewrite, k: Key, negated: bool,
                         allowed: bool, falses: set<Key>)
    requires Evaluated(g, s, s', f, rw, k, negated, allowed, falses)
    ensures allowed ==> Entails(g.w, rw, k, g.m, g.m)
  {
  }

  /** One key read as false: what a loop over keys carries on with. */
  lemma ProgressRead(g: Setting, s: State, mid: State, s': State, f: Frame, k: Key, falses: set<Key>, j: Key)
    requires Progress(g, s, mid, f, k, falses) && Steps(g, mid, s', f) && FalseRead(g, mid, s', j)
    ensures Progress(g, s, s', f, k, falses + {j})
  {
    hide Steps, EvalOk, FalseRead, Unknown;
    ProgressOn(g, s, mid, s', f, k, falses, {j});
  }

  ghost predicate Followable(d: Defs, k: Key, us: SubjectRef) {
    us.relation != NO_RELATION && !us.wildcard && d.Allows(k.Ref(), UsersetType(us.typ, us.relation))
  }

  /** Nothing stored on k grants it: no wildcard, no direct tuple, and no userset outside falses. */
  lemma ThisRefuted(g: Setting, src: Source, rw: Rewrite, k: Key, res: LookupResult, falses: set<Key>)
    requires g.Valid() && Faithful(src, g.w.tuples) && rw.op.This? && res == src.lookup(k, g.w.subject)
    requires !(g.w.subject.relation == NO_RELATION && g.w.d.Allows(k.Ref(), WildcardType(g.w.subject.typ))
               && src.hasWildcard(k, g.w.subject.typ))
    requires !(res.direct && g.w.d.Allows(k.Ref(), SubjectType(g.w.subject.typ, g.w.subject.relation, false)))
    requires forall i :: 0 <= i < |res.usersets| && Followable(g.w.d, k, res.usersets[i]) ==> res.usersets[i].UsersetKey() in falses
    ensures !Entails(g.w, rw, k, g.w.Keys() - falses, g.m)
  {
  }

  lemma DirectEntails(g: Setting, src: Source, rw: Rewrite, k: Key)
    requires g.Valid() && Faithful(src, g.w.tuples) && rw.op.This? && src.lookup(k, g.w.subject).direct
    requires g.w.d.Allows(k.Ref(), SubjectType(g.w.subject.typ, g.w.subject.relation, false))
    ensures Entails(g.w, rw, k, g.m, g.m)
  {
  }

  lemma WildcardEntails(g: Setting, src: Source, rw: Rewrite, k: Key)
    requires Faithful(src, g.w.tuples) && rw.op.This? && src.hasWildcard(k, g.w.subject.typ)
    requires g.w.subject.relation == NO_RELATION && g.w.d.Allows(k.Ref(), WildcardType(g.w.subject.typ))
    ensures Entails(g.w, rw, k, g.m, g.m)
  {
  }

  /** A userset worth following leads to a key of the world, no higher than k. */
  lemma UsersetLeads(g: Setting, src: Source, rw: Rewrite, k: Key, us: SubjectRef)
    requires Faithful(src, g.w.tuples) && g.w.Closed() && rw.op.This? && Sound(g.w.d, g.lv, k.Ref(), rw, false)
    requires us in src.lookup(k, g.w.subject).usersets && Followable(g.w.d, k, us)
    ensures us.Object() in g.w.objs && g.w.d.Defined(us.UsersetKey().Ref())
    ensures NoHigher(g.lv, k.Ref(), us.UsersetKey().Ref(), false)
    ensures us.UsersetKey() in g.m ==> Entails(g.w, rw, k, g.m, g.m)
  {
  }

  predicate Leading(d: Defs, k: Key, rw: Rewrite, s: SubjectRef) {
    && d.Allows(RelationRef(k.obj.typ, rw.tupleset), SubjectType(s.typ, s.relation, s.wildcard))
    && d.Defined(RelationRef(s.typ, rw.relation))
  }

  /** A subject an arrow follows is an object, and the key it leads to is no higher than k. */
  lemma ArrowLeads(g: Setting, src: Source, rw: Rewrite, k: Key, negated: bool, s: SubjectRef)
    requires Faithful(src, g.w.tuples) && g.w.Closed() && rw.op.TupleToUserset? && Sound(g.w.d, g.lv, k.Ref(), rw, negated)
    requires s in src.subjects(Key(k.obj, rw.tupleset)) && Leading(g.w.d, k, rw, s)
    ensures s.Object() in g.w.objs && g.w.d.Defined(Key(s.Object(), rw.relation).Ref())
    ensures NoHigher(g.lv, k.Ref(), Key(s.Object(), rw.relation).Ref(), negated)
    ensures Key(s.Object(), rw.relation) in g.m ==> Entails(g.w, rw, k, g.m, g.m)
  {
  }

  lemma ArrowRefuted(g: Setting, src: Source, rw: Rewrite, k: Key, subjects: seq<SubjectRef>, falses: set<Key>)
    requires Faithful(src, g.w.tuples) && rw.op.TupleToUserset? && subjects == src.subjects(Key(k.obj, rw.tupleset))
    requires forall i :: 0 <= i < |subjects| && Leading(g.w.d, k, rw, subjects[i]) ==> Key(subjects[i].Object(), rw.relation) in falses
    ensures !Entails(g.w, rw, k, g.w.Keys() - falses, g.m)
  {
  }

  lemma OperandDefines(g: Setting, rw: Rewrite, i: nat, k: Key)
    requires Defines(g, rw, k) && i < |rw.children|
    ensures Defines(g, rw.children[i], k)
  {
    OperandWithin(rw, i, g.w.d.rewrites[k.Ref()]);
  }

  lemma UnionRefuted(g: Setting, rw: Rewrite, k: Key, falses: set<Key>)
    requires rw.op.Union?
    requires forall i :: 0 <= i < |rw.children| ==> !Entails(g.w, rw.children[i], k, g.w.Keys() - falses, g.m)
    ensures !Entails(g.w, rw, k, g.w.Keys() - falses, g.m)
  {
  }

  lemma OperandFailsAll(g: Setting, rw: Rewrite, k: Key, i: nat, falses: set<Key>)
    requires rw.op.Intersection? || (rw.op.Exclusion? && i == 0)
    requires i < |rw.children| && !Entails(g.w, rw.children[i], k, g.w.Keys() - falses, g.m)
    ensures !Entails(g.w, rw, k, g.w.Keys() - falses, g.m)
  {
  }

  // ---- Settling, round by round ----

  lemma RisesSelf(s: State)
    ensures Rises(s, s)
  {
  }

  lemma RisesTrans(a: State, b: State, c: State)
    requires Rises(a, b) && Rises(b, c)
    ensures Rises(a, c)
  {
  }

  lemma SkippedIsStable(g: Setting, s0: State, s: State, f: Frame)
    requires Settling(g, s0, s, f) && s.lowlink == IndexOf(s.memo, f.cur)
    requires |s.stack| - f.pos < 2 || forall i :: f.pos <= i < |s.stack| ==> !Holds(s.memo, s.stack[i])
    ensures Stable(s, f.pos, |s.stack|)
  {
    NothingGrantedIsStable(g, s, f);
  }

  lemma StableNone(s: State, pos: nat)
    ensures Stable(s, pos, pos)
  {
  }

  lemma StableTrue(s: State, pos: nat, i: nat)
    requires pos + i < |s.stack| && Holds(s.memo, s.stack[pos + i]) && Stable(s, pos, pos + i)
    ensures Stable(s, pos, pos + i + 1)
  {
  }

  /** A member of the component is answered, defined, and on the root's level. */
  lemma MemberKnown(g: Setting, s0: State, s: State, t: State, f: Frame, i: nat)
    requires g.Valid() && Settling(g, s0, t, f) && Rises(s, t) && f.pos + i < |s.stack|
    ensures f.pos + i < |t.stack| && t.stack[f.pos + i] == s.stack[f.pos + i]
    ensures EvalOk(g, t, f, s.stack[f.pos + i]) && g.w.d.Defined(s.stack[f.pos + i].Ref())
    ensures Holds(t.memo, s.stack[f.pos + i]) || Fails(t.memo, s.stack[f.pos + i])
  {
    hide Inv, FrameInv, Extends, Holds, Fails;
    SettlingParts(g, s0, t, f);
    MemberPlaced(g, t, f, f.pos + i);
    MemberAnswered(g, t, f, f.pos + i);
  }

  lemma MemberPlaced(g: Setting, t: State, f: Frame, n: nat)
    requires Inv(g, t) && FrameInv(g, t, f) && f.pos <= n < |t.stack|
    ensures EvalOk(g, t, f, t.stack[n]) && g.w.d.Defined(t.stack[n].Ref())
  {
    hide WhysOk, LowOk, SubtreeOk;
    assert t.stack[n] in t.stack;
  }

  /** One member re-evaluated: the component settles on, and if nothing rose or came in, it is stable so far. */
  lemma MemberEvaluated(g: Setting, s0: State, s: State, t: State, t': State, f: Frame, i: nat, allowed: bool, falses: set<Key>)
    requires g.Valid() && Settling(g, s0, t, f) && Rises(s, t) && f.pos + i < |s.stack|
    requires !Holds(t.memo, s.stack[f.pos + i]) && g.w.d.Defined(s.stack[f.pos + i].Ref())
    requires Evaluated(g, t, t', f, g.w.d.rewrites[s.stack[f.pos + i].Ref()], s.stack[f.pos + i], false, allowed, falses)
    ensures Fails(t'.memo, s.stack[f.pos + i]) && Rises(t, Conclude(t', s.stack[f.pos + i], allowed, falses))
    ensures Settling(g, s0, Conclude(t', s.stack[f.pos + i], allowed, falses), f) && t'.depth == t.depth
    ensures s.stack[f.pos + i] in g.w.Keys() && !Holds(s.memo, s.stack[f.pos + i])
    ensures !allowed && |t'.stack| == |s.stack| && Stable(t, f.pos, f.pos + i) ==>
      Stable(Conclude(t', s.stack[f.pos + i], allowed, falses), f.pos, f.pos + i + 1)
  {
    hide Inv, FrameInv, FalseReads, Setting.Valid, Settling, Stable, Extends, StackOk, Entails;
    MemberKnown(g, s0, s, t, f, i);
    SettlingParts(g, s0, t, f);
    MemberPlace(t, t', f.pos, i);
    MemberConcludes(g, s0, t, t', f, i, allowed, falses);
    ConcludeRises(t, t', s.stack[f.pos + i], allowed, falses);
    MemberStable(g, s, t, t', f, i, allowed, falses);
  }

  lemma ConcludeRises(t: State, t': State, k: Key, allowed: bool, falses: set<Key>)
    requires Extends(t, t') && Fails(t'.memo, k)
    ensures Rises(t, Conclude(t', k, allowed, falses))
  {
  }

  lemma MemberStable(g: Setting, s: State, t: State, t': State, f: Frame, i: nat, allowed: bool, falses: set<Key>)
    requires Inv(g, t) && Steps(g, t, t', f) && Rises(s, t) && f.pos + i < |s.stack|
    requires Fails(t'.memo, s.stack[f.pos + i]) && (!allowed ==> FalseReads(g, t, t', falses))
    ensures !allowed && |t'.stack| == |s.stack| && Stable(t, f.pos, f.pos + i) ==>
      Stable(Conclude(t', s.stack[f.pos + i], allowed, falses), f.pos, f.pos + i + 1)
  {
    hide Inv, FrameInv, FalseReads, Stable, StackOk;
    if !allowed && |t'.stack| == |s.stack| && Stable(t, f.pos, f.pos + i) {
      InvStacks(g, t);
      InvStacks(g, t');
      StableGrows(g, t, t', f.pos, f.pos + i);
      StableStep(g, t, t', f.pos, f.pos + i, falses);
    }
  }

  lemma InvStacks(g: Setting, s: State)
    requires Inv(g, s)
    ensures StackOk(s.memo, s.stack, s.index)
  {
  }

  /** Where a member is, before and after it is re-evaluated. */
  lemma MemberPlace(t: State, t': State, pos: nat, i: nat)
    requires StackOk(t.memo, t.stack, t.index) && Extends(t, t') && pos + i < |t.stack|
    ensures pos + i < |t'.stack| && t'.stack[pos + i] == t.stack[pos + i] && t.stack[pos + i] in t'.stack[pos..]
    ensures t.stack[pos + i] in t'.stack && t.stack[pos + i] in t.memo && t.stack[pos + i] in t'.memo
    ensures t'.memo[t.stack[pos + i]] == t.memo[t.stack[pos + i]]
  {
  }

  lemma SettlingParts(g: Setting, s0: State, t: State, f: Frame)
    requires Settling(g, s0, t, f)
    ensures StackOk(t.memo, t.stack, t.index) && Extends(s0, t) && f.cur in t.memo && f.pos == |s0.stack|
    ensures Inv(g, s0) && Inv(g, t) && FrameInv(g, t, f) && t.memo[f.cur].state != Computing
  {
    hide FrameInv, Extends, MemoOk, WhysOk;
  }

  lemma MemberConcludes(g: Setting, s0: State, t: State, t': State, f: Frame, i: nat, allowed: bool, falses: set<Key>)
    requires g.Valid() && Settling(g, s0, t, f) && f.pos + i < |t.stack| && Fails(t.memo, t.stack[f.pos + i])
    requires t.stack[f.pos + i] in g.w.Keys() && g.w.d.Defined(t.stack[f.pos + i].Ref())
    requires Evaluated(g, t, t', f, g.w.d.rewrites[t.stack[f.pos + i].Ref()], t.stack[f.pos + i], false, allowed, falses)
    ensures Settling(g, s0, Conclude(t', t.stack[f.pos + i], allowed, falses), f)
  {
    hide Inv, FrameInv, FalseReads, Setting.Valid, Answered, Decided, Refutes, Extends, StackOk, Settling;
    var k := t.stack[f.pos + i];
    SettlingParts(g, s0, t, f);
    MemberPlace(t, t', f.pos, i);
    ExtendsTrans(s0, t, t');
    DecidedAnswers(g, t, t', g.w.d.rewrites[k.Ref()], k, allowed, falses);
    KeptKey(t, t', f.cur);
    ConcludeSettles(g, s0, t, t', f, i, allowed, falses);
  }

  lemma KeptKey(t: State, t': State, k: Key)
    requires Extends(t, t') && k in t.memo
    ensures k in t'.memo && t'.memo[k] == t.memo[k]
  {
  }

  lemma RoundShrinks(g: Setting, s0: State, t: State, v: State, f: Frame)
    requires Settling(g, s0, t, f) && Settling(g, s0, v, f) && Rises(t, v)
    ensures Unknown(g, v.memo) <= Unknown(g, t.memo) && Room(g, v.memo) <= Room(g, t.memo)
    ensures |v.stack| > |t.stack| ==> Room(g, v.memo) < Room(g, t.memo)
    ensures (exists k :: Rose(g, t, v, k)) ==> Room(g, v.memo) < Room(g, t.memo)
  {
    hide Inv, FrameInv, Extends, Rises, Room, Unknown;
    RoomShrinks(g, t, v);
    assert forall k :: Rose(g, t, v, k) ==> k in g.w.Keys() && !Holds(t.memo, k) && Holds(v.memo, k);
    if |v.stack| > |t.stack| { TallerIsNew(g, t, v); }
  }

  lemma RisesIndex(t: State, v: State, k: Key)
    requires Rises(t, v) && k in t.memo
    ensures IndexOf(v.memo, k) == IndexOf(t.memo, k)
  {
  }

  ghost predicate Rose(g: Setting, s: State, v: State, k: Key) {
    k in g.w.Keys() && !Holds(s.memo, k) && Holds(v.memo, k)
  }

  /** A round goes on from t to u. */
  lemma RoundOn(g: Setting, s: State, t: State, u: State, raised: Key)
    requires Rises(s, t) && Rises(t, u)
    ensures Rises(s, u) && |s.stack| <= |t.stack| <= |u.stack| && Unknown(g, u.memo) <= Unknown(g, t.memo)
    ensures Rose(g, s, t, raised) ==> Rose(g, s, u, raised)
  {
    RoomShrinks(g, t, u);
  }

  lemma RoundTaller(t: State, v: State)
    requires Rises(t, v)
    ensures |v.stack| >= |t.stack|
  {
  }

  /** While recording is paused or full, nothing is recorded. */
  lemma PausedOver(g: Setting, a: Log, b: Log, c: Log, idx: int)
    requires a.Blocked() && Recorded(g, a, b, NO_NODE) && Recorded(g, b, c, idx)
    ensures idx == NO_NODE && Recorded(g, a, c, NO_NODE) && c.Blocked()
  {
  }

  lemma PausedRecords(g: Setting, l: Log, r: Log)
    requires Recorded(g, l.(paused := l.paused + 1), r, NO_NODE)
    ensures r.paused > 0 && Recorded(g, l, r.(paused := r.paused - 1), NO_NODE)
  {
    SameNodes(g, r, r.(paused := r.paused - 1));
    hide TreeOk, TruthOk;
  }

  // ---- The run ----

  /** The state of one check, with the number of calls made outside. */
  class Run {
    const d: Defs
    const source: Source
    const maxDepth: nat
    const subject: SubjectRef
    const outside: Calls
    const rec: Recorder
    ghost const g: Setting

    var memo: Memo
    var stack: seq<Key>
    var lowlink: nat
    var index: nat
    var depth: int
    var calls: nat
    ghost var why: map<Key, set<Key>>

    ghost function Value(): State reads this { State(memo, stack, lowlink, index, depth, why) }

    ghost predicate Ready() reads this {
      g.Valid() && g.w.d == d && g.w.subject == subject && Faithful(source, g.w.tuples) && Quiet(outside, calls)
    }

    ghost predicate Recording() reads rec { TreeOk(rec.Value()) && TruthOk(g, rec.Value()) }

    /** The only errors a sound schema leaves are a failure from outside, passed on, and too low a bound. */
    ghost predicate Excused(err: Option<Error>) reads this {
      && Reported(outside, calls, err)
      && (err.None? || err.value.FromOutside? || (err.value.MaxDepthExceeded? && maxDepth < |g.w.Keys()|))
    }

    constructor (d: Defs, source: Source, maxDepth: nat, subject: SubjectRef, mode: ProofMode, outside: Calls, ghost g: Setting)
      ensures this.d == d && this.source == source && this.maxDepth == maxDepth && this.subject == subject
      ensures this.outside == outside && calls == 0 && this.g == g && fresh(rec)
      ensures Value() == State(map[], [], 0, 0, 0, map[])
      ensures rec.Value() == Log(mode, [], false, 0, [], [])
    {
      this.d, this.source, this.maxDepth, this.subject := d, source, maxDepth, subject;
      this.outside, calls, this.g := outside, 0, g;
      memo, stack, lowlink, index, depth, why := map[], [], 0, 0, 0, map[];
      rec := new Recorder(mode);
    }

    /** A true answer is in the model; a false one is accounted for by the reads behind it. */
    method Relation(k: Key, ghost caller: Option<Frame>) returns (allowed: bool, idx: int, err: Option<Error>)
      requires Ready() && Recording() && k.obj in g.w.objs
      requires Inv(g, Value()) && CallOk(g, Value(), caller, k)
      modifies this, rec
      ensures Recorded(g, old(rec.Value()), rec.Value(), idx)
      ensures err.None? ==> d.Defined(k.Ref()) && Returned(g, old(Value()), Value(), caller, k, allowed)
      ensures err.None? && k !in old(memo) ==> Told(rec.Value(), idx, d.rewrites[k.Ref()], k, allowed)
      ensures if d.Defined(k.Ref()) then Excused(err)
              else Reported(outside, calls, err) && (err == Some(RelationUndefined) || (err.Some? && err.value.FromOutside?))
      decreases Unknown(g, memo), 0, 2
    {
      hide Inv, FrameInv, Extends, FalseRead, Recorded, Names, Told, TreeOk, TruthOk, Defines, Entails, Setting.Valid,
           Faithful, Returned, OutcomeSet, ChildListed, Quiet;
      RecordedNothing(g, rec.Value());
      err := MayFail();
      if err.Some? { return false, NO_NODE, err; }
      if !d.Defined(k.Ref()) { return false, NO_NODE, Some(RelationUndefined); }
      var rw := d.rewrites[k.Ref()];
      if k !in memo {
        allowed, idx, err := Enter(k, rw, caller);
        return;
      }
      allowed, idx := Reread(k, rw, caller);
    }

    /** Relation, for a key evaluated before or under way. */
    method Reread(k: Key, rw: Rewrite, ghost caller: Option<Frame>) returns (allowed: bool, idx: int)
      requires Ready() && Recording() && k in memo && d.Defined(k.Ref()) && rw == d.rewrites[k.Ref()]
      requires Inv(g, Value()) && CallOk(g, Value(), caller, k)
      modifies this`lowlink, rec
      ensures Recorded(g, old(rec.Value()), rec.Value(), idx)
      ensures Returned(g, old(Value()), Value(), caller, k, allowed)
    {
      hide Inv, FrameInv, Extends, FalseRead, Recorded, Names, Told, TreeOk, TruthOk, Defines, Entails, Setting.Valid,
           Faithful, Returned, OutcomeSet, ChildListed, Quiet;
      ghost var s := Value();
      HitReturns(g, s, caller, k);
      if memo[k].index != 0 && memo[k].index < lowlink { lowlink := memo[k].index; }
      assert Value() == Hit(s, k);
      match memo[k].state
      case Computing =>
        idx := rec.Leaf(k, rw.op, Cycle, false, rw, g);
        return false, idx;
      case True =>
        idx := rec.Leaf(k, rw.op, Allowed, true, rw, g);
        return true, idx;
      case False =>
        idx := rec.Leaf(k, rw.op, Denied, true, rw, g);
        return false, idx;
    }

    /** Relation, for a key not evaluated before. */
    method Enter(k: Key, rw: Rewrite, ghost caller: Option<Frame>) returns (allowed: bool, idx: int, err: Option<Error>)
      requires Ready() && Recording() && k in g.w.Keys() && k !in memo && d.Defined(k.Ref()) && rw == d.rewrites[k.Ref()]
      requires Inv(g, Value()) && CallOk(g, Value(), caller, k)
      modifies this, rec
      ensures Recorded(g, old(rec.Value()), rec.Value(), idx)
      ensures err.None? ==> Returned(g, old(Value()), Value(), caller, k, allowed)
      ensures err.None? ==> Told(rec.Value(), idx, rw, k, allowed)
      ensures Excused(err)
      decreases Unknown(g, memo), 0, 1
    {
      hide Inv, FrameInv, Extends, Grown, Names, Told, TreeOk, TruthOk, Defines, Entails, Returned, CallOk, EvalOk, Evaluated,
           Stable, Settling, Setting.Valid, Faithful, Unknown, Sound, OutcomeSet, ChildListed, Quiet;
      ghost var s, l := Value(), rec.Value();
      RecordedNothing(g, l);
      if depth >= maxDepth {
        DepthBelowKeys(g, s, k);
        return false, NO_NODE, Some(MaxDepthExceeded);
      }
      var mine, pos, outer := index + 1, |stack|, lowlink;
      ghost var f, falses := Frame(k, pos), {};
      allowed, idx, err, falses := Visit(k, rw, f, caller);
      if err.Some? {
        depth := depth - 1;
        return false, idx, err;
      }
      ghost var s2 := Value();
      EvalConcludes(g, s, s2, f, rw, allowed, falses);
      memo := memo[k := Entry(StateOf(allowed), mine)];
      why := if allowed then why else why[k := falses];
      assert Value() == Conclude(s2, k, allowed, falses);
      allowed, err := Leave(k, rw, allowed, idx, pos, mine, outer, caller, s, l);
    }

    /** Puts k on the stack and evaluates its definition. */
    method Visit(k: Key, rw: Rewrite, ghost f: Frame, ghost caller: Option<Frame>)
      returns (allowed: bool, idx: int, err: Option<Error>, ghost falses: set<Key>)
      requires Ready() && Recording() && k in g.w.Keys() && k !in memo && d.Defined(k.Ref()) && rw == d.rewrites[k.Ref()]
      requires Inv(g, Value()) && CallOk(g, Value(), caller, k) && f == Frame(k, |stack|)
      modifies this, rec
      ensures Recorded(g, old(rec.Value()), rec.Value(), idx)
      ensures err.None? ==> Evaluated(g, Push(old(Value()), k), Value(), f, rw, k, false, allowed, falses)
      ensures err.None? ==> Told(rec.Value(), idx, rw, k, allowed)
      ensures Excused(err)
      decreases Unknown(g, memo), 0, 0
    {
      hide Inv, FrameInv, Extends, Grown, Names, Told, TreeOk, TruthOk, Defines, Entails, Returned, CallOk, EvalOk, Evaluated,
           Setting.Valid, Faithful, Unknown, Sound, OutcomeSet, ChildListed, Quiet;
      ghost var s := Value();
      depth, index := depth + 1, index + 1;
      stack, memo, lowlink := stack + [k], memo[k := Entry(Computing, index)], index;
      assert Value() == Push(s, k);
      PushEnters(g, s, caller, k);
      SoundAt(g, k);
      allowed, idx, err, falses := Eval(rw, k, false, f);
    }

    /** The end of Enter: settles and pops k's component if k is its root, and hands the rest to the caller. */
    method Leave(k: Key, rw: Rewrite, allowed0: bool, idx: int, pos: nat, mine: nat, outer: nat,
                 ghost caller: Option<Frame>, ghost s: State, ghost l: Log)
      returns (allowed: bool, err: Option<Error>)
      requires Ready() && Recording() && d.Defined(k.Ref()) && rw == d.rewrites[k.Ref()]
      requires Settling(g, s, Value(), Frame(k, pos)) && CallOk(g, s, caller, k) && mine == IndexOf(memo, k)
      requires outer == s.lowlink && depth == s.depth + 1 && (allowed0 ==> k in g.m)
      requires Recorded(g, l, rec.Value(), idx) && Told(rec.Value(), idx, rw, k, allowed0)
      modifies this, rec
      ensures Recorded(g, l, rec.Value(), idx)
      ensures err.None? ==> Returned(g, s, Value(), caller, k, allowed) && Told(rec.Value(), idx, rw, k, allowed)
      ensures Excused(err)
      decreases Unknown(g, memo), 3
    {
      hide Inv, FrameInv, Extends, Recorded, Names, Told, TreeOk, TruthOk, Defines, Entails, Returned, CallOk,
           Stable, Settling, Setting.Valid, Faithful, Unknown, OutcomeSet, ChildListed, Quiet;
      ghost var f := Frame(k, pos);
      allowed, err := allowed0, None;
      // The key's own lowlink stands at its own index: what it opened can be settled on its own.
      var isRoot := lowlink == mine;
      if isRoot {
        ghost var l0 := rec.Value();
        err := Settle(pos, f, s);
        RecordedOver(g, l, l0, rec.Value(), idx, rw, k, allowed);
        if err.Some? {
          depth := depth - 1;
          return false, err;
        }
        // The rounds may have lowered the lowlink, and then the key is no root after all.
        isRoot := lowlink == mine;
      }
      ghost var s' := Value();
      SettlingStack(g, s, s', f);
      if isRoot {
        RootAnswers(g, s, s', f, s'.memo[k].state == True);
        RootReturns(g, s, s', caller, f, s'.memo[k].state == True);
        ghost var allowed1 := allowed;
        PopFrom(pos);
        // The answer recorded before the rounds may be stale, so it is read back.
        allowed := memo[k].state == True;
        ToldNames(rec.Value(), idx, rw, k, allowed1);
        rec.Close(idx, allowed, l, rw, k, g);
        assert Value() == PopAll(s', pos);
      } else {
        UnsettledReturns(g, s, s', caller, f, allowed);
      }
      lowlink := if outer < lowlink then outer else lowlink;
      depth := depth - 1;
    }

    /** Opens rw's node, answers rw by its kind, and closes the node with that answer. */
    method Eval(rw: Rewrite, k: Key, ghost negated: bool, ghost f: Frame)
      returns (allowed: bool, idx: int, err: Option<Error>, ghost falses: set<Key>)
      requires Ready() && Recording() && EvalOk(g, Value(), f, k) && Sound(d, g.lv, k.Ref(), rw, negated) && Defines(g, rw, k)
      modifies this, rec
      ensures Recorded(g, old(rec.Value()), rec.Value(), idx)
      ensures err.None? ==> Told(rec.Value(), idx, rw, k, allowed)
      ensures err.None? ==> Evaluated(g, old(Value()), Value(), f, rw, k, negated, allowed, falses)
      ensures Excused(err)
      decreases Unknown(g, memo), 1, rw, 2
    {
      hide Grown, Names, Told, TreeOk, TruthOk, Defines, Entails, EvalOk, Evaluated, Setting.Valid, Faithful, Unknown,
           OutcomeSet, ChildListed, Quiet;
      ghost var l := rec.Value();
      idx := rec.Open(k, rw.op, rw, g);
      match rw.op {
        case This => allowed, err, falses := This(rw, k, idx, f, l);
        case ComputedUserset => allowed, err, falses := Computed(rw, k, idx, negated, f, l);
        case TupleToUserset => allowed, err, falses := Arrow(rw, k, idx, negated, f, l);
        case Union => allowed, err, falses := Union(rw, k, idx, negated, f, l);
        case Intersection => allowed, err, falses := Intersection(rw, k, idx, negated, f, l);
        case Exclusion => allowed, err, falses := Exclusion(rw, k, idx, negated, f, l);
        case Other(_) => allowed, err, falses := false, Some(UnsupportedOp), {};
      }
      if err.Some? { return false, idx, err, {}; }
      EvaluatedAllowed(g, old(Value()), Value(), f, rw, k, negated, allowed, falses);
      rec.Close(idx, allowed, l, rw, k, g);
    }

    /** Reads one key for k's rewrite, and hangs its node under idx. */
    method Read(j: Key, rw: Rewrite, k: Key, idx: int, ghost negated: bool, ghost f: Frame, ghost l: Log)
      returns (allowed: bool, err: Option<Error>)
      requires Ready() && EvalOk(g, Value(), f, k) && Under(g, l, rec.Value(), idx, rw, k)
      requires j.obj in g.w.objs && d.Defined(j.Ref()) && NoHigher(g.lv, k.Ref(), j.Ref(), negated)
      modifies this, rec
      ensures Under(g, l, rec.Value(), idx, rw, k)
      ensures err.None? ==> Steps(g, old(Value()), Value(), f)
      ensures err.None? ==> if allowed then j in g.m else FalseRead(g, old(Value()), Value(), j) && (negated ==> j !in g.m)
      ensures Excused(err)
      decreases Unknown(g, memo), 0, 3
    {
      hide Grown, Names, Told, TreeOk, TruthOk, Defines, Setting.Valid, Faithful, Inv, FrameInv, Extends, FalseRead,
           Unknown, OutcomeSet, ChildListed, Quiet;
      ghost var s, mid := Value(), rec.Value();
      var child: int;
      allowed, child, err := Relation(j, Some(f));
      rec.AddChild(idx, child, l, mid, rw, k, g);
      if err.None? && negated { SubtractReadIsFinal(g, s, Value(), f, j, allowed); }
    }

    /** Grants by a stored wildcard, by the subject's own tuple, or by a stored userset that holds it. */
    method This(rw: Rewrite, k: Key, idx: int, ghost f: Frame, ghost l: Log)
      returns (allowed: bool, err: Option<Error>, ghost falses: set<Key>)
      requires Ready() && EvalOk(g, Value(), f, k) && Under(g, l, rec.Value(), idx, rw, k)
      requires rw.op.This? && Sound(d, g.lv, k.Ref(), rw, false)
      modifies this, rec
      ensures Under(g, l, rec.Value(), idx, rw, k)
      ensures err.None? ==> Evaluated(g, old(Value()), Value(), f, rw, k, false, allowed, falses)
      ensures Excused(err)
      decreases Unknown(g, memo), 1, rw, 1
    {
      hide Under, Defines, EvalOk, Evaluated, Steps, FalseRead, Entails, Sound, Unknown, Faithful, SoundDefs, IsModel,
           Inv, FrameInv, OutcomeSet, ChildListed, Quiet;
      falses := {};
      ghost var s := Value();
      ProgressStart(g, s, f, k);
      var granted: bool;
      granted, err := WildcardGrants(k);
      if err.Some? { return false, err, {}; }
      if granted {
        WildcardEntails(g, source, rw, k);
        StepsSelf(g, s, f, k);
        EvaluatedTrue(g, s, s, s, f, rw, k, false, {});
        return true, None, {};
      }
      err := MayFail();
      if err.Some? { return false, err, {}; }
      var res := source.lookup(k, subject);
      if res.direct && d.Allows(k.Ref(), SubjectType(subject.typ, subject.relation, false)) {
        DirectEntails(g, source, rw, k);
        StepsSelf(g, s, f, k);
        EvaluatedTrue(g, s, s, s, f, rw, k, false, {});
        return true, None, {};
      }
      allowed := false;
      for i := 0 to |res.usersets|
        invariant Quiet(outside, calls) && Under(g, l, rec.Value(), idx, rw, k) && Progress(g, s, Value(), f, k, falses)
        invariant forall n :: 0 <= n < i && Followable(d, k, res.usersets[n]) ==> res.usersets[n].UsersetKey() in falses
      {
        var us := res.usersets[i];
        if us.relation == NO_RELATION || us.wildcard || !d.Allows(k.Ref(), UsersetType(us.typ, us.relation)) { continue; }
        UsersetLeads(g, source, rw, k, us);
        ghost var mid := Value();
        allowed, err := Read(us.UsersetKey(), rw, k, idx, false, f, l);
        if err.Some? { return false, err, {}; }
        if allowed {
          EvaluatedTrue(g, s, mid, Value(), f, rw, k, false, falses);
          return true, None, {};
        }
        ProgressRead(g, s, mid, Value(), f, k, falses, us.UsersetKey());
        falses := falses + {us.UsersetKey()};
      }
      ThisRefuted(g, source, rw, k, res, falses);
      EvaluatedFalse(g, s, Value(), f, rw, k, false, falses);
      return false, None, falses;
    }

    /** A call to the context or the source, as far as it may fail. */
    method MayFail() returns (err: Option<Error>)
      requires Quiet(outside, calls)
      modifies `calls
      ensures Excused(err) && (err.Some? ==> err.value.FromOutside?)
    {
      var failure := outside(calls);
      calls := calls + 1;
      return if failure.None? then None else Some(FromOutside(failure.value));
    }

    /** Some tuple here names the wildcard of the subject's type and the list accepts it. */
    method WildcardGrants(k: Key) returns (granted: bool, err: Option<Error>)
      requires Quiet(outside, calls)
      modifies `calls
      ensures Excused(err)
      ensures err.None? ==> (granted <==>
        subject.relation == NO_RELATION && d.Allows(k.Ref(), WildcardType(subject.typ)) && source.hasWildcard(k, subject.typ))
    {
      if subject.relation != NO_RELATION { return false, None; }
      if !d.Allows(k.Ref(), WildcardType(subject.typ)) { return false, None; }
      err := MayFail();
      return source.hasWildcard(k, subject.typ), err;
    }

    /** A computed reference: entailed exactly as the key it reads. */
    method Computed(rw: Rewrite, k: Key, idx: int, ghost negated: bool, ghost f: Frame, ghost l: Log)
      returns (allowed: bool, err: Option<Error>, ghost falses: set<Key>)
      requires Ready() && EvalOk(g, Value(), f, k) && Under(g, l, rec.Value(), idx, rw, k)
      requires rw.op.ComputedUserset? && Sound(d, g.lv, k.Ref(), rw, negated)
      modifies this, rec
      ensures Under(g, l, rec.Value(), idx, rw, k)
      ensures err.None? ==> Evaluated(g, old(Value()), Value(), f, rw, k, negated, allowed, falses)
      ensures Excused(err)
      decreases Unknown(g, memo), 1, rw, 1
    {
      hide Under, Defines, Evaluated, Steps, FalseRead, Unknown, Faithful, Setting.Valid, Inv, FrameInv, OutcomeSet,
           ChildListed, Quiet;
      falses := {};
      ghost var s := Value();
      var j := Key(k.obj, rw.relation);
      ProgressStart(g, s, f, k);
      allowed, err := Read(j, rw, k, idx, negated, f, l);
      if err.Some? { return false, err, {}; }
      if allowed {
        EvaluatedTrue(g, s, s, Value(), f, rw, k, negated, {});
      } else {
        ProgressRead(g, s, s, Value(), f, k, {}, j);
        falses := {} + {j};
        EvaluatedFalse(g, s, Value(), f, rw, k, negated, falses);
      }
    }

    /** Reads the target on the tupleset's accepted subjects, skipping types without it. */
    method Arrow(rw: Rewrite, k: Key, idx: int, ghost negated: bool, ghost f: Frame, ghost l: Log)
      returns (allowed: bool, err: Option<Error>, ghost falses: set<Key>)
      requires Ready() && EvalOk(g, Value(), f, k) && Under(g, l, rec.Value(), idx, rw, k)
      requires rw.op.TupleToUserset? && Sound(d, g.lv, k.Ref(), rw, negated)
      modifies this, rec
      ensures Under(g, l, rec.Value(), idx, rw, k)
      ensures err.None? ==> Evaluated(g, old(Value()), Value(), f, rw, k, negated, allowed, falses)
      ensures Excused(err)
      decreases Unknown(g, memo), 1, rw, 1
    {
      hide Under, Defines, EvalOk, Evaluated, Steps, FalseRead, Entails, Sound, Unknown, Faithful, SoundDefs, IsModel,
           Inv, FrameInv, OutcomeSet, ChildListed, Quiet;
      falses := {};
      ghost var s := Value();
      ProgressStart(g, s, f, k);
      err := MayFail();
      if err.Some? { return false, err, {}; }
      var subjects := source.subjects(Key(k.obj, rw.tupleset));
      allowed := false;
      for i := 0 to |subjects|
        invariant Quiet(outside, calls) && Under(g, l, rec.Value(), idx, rw, k) && Progress(g, s, Value(), f, k, falses)
        invariant negated ==> falses !! g.m
        invariant forall n :: 0 <= n < i && Leading(d, k, rw, subjects[n]) ==> Key(subjects[n].Object(), rw.relation) in falses
      {
        var next := subjects[i];
        if !d.Allows(RelationRef(k.obj.typ, rw.tupleset), SubjectType(next.typ, next.relation, next.wildcard)) { continue; }
        if !d.Defined(RelationRef(next.typ, rw.relation)) { continue; }
        ArrowLeads(g, source, rw, k, negated, next);
        ghost var mid := Value();
        var j := Key(next.Object(), rw.relation);
        allowed, err := Read(j, rw, k, idx, negated, f, l);
        if err.Some? { return false, err, {}; }
        if allowed {
          EvaluatedTrue(g, s, mid, Value(), f, rw, k, negated, falses);
          return true, None, {};
        }
        ProgressRead(g, s, mid, Value(), f, k, falses, j);
        falses := falses + {j};
      }
      ArrowRefuted(g, source, rw, k, subjects, falses);
      EvaluatedFalse(g, s, Value(), f, rw, k, negated, falses);
      return false, None, falses;
    }

    /** Evaluates one operand of rw, and hangs its node under idx. side says whether it is under a subtract. */
    method Operand(rw: Rewrite, i: nat, k: Key, idx: int, ghost side: bool, ghost f: Frame, ghost l: Log)
      returns (allowed: bool, err: Option<Error>, ghost falses: set<Key>)
      requires Ready() && EvalOk(g, Value(), f, k) && Under(g, l, rec.Value(), idx, rw, k)
      requires i < |rw.children| && Sound(d, g.lv, k.Ref(), rw.children[i], side) && Defines(g, rw, k)
      modifies this, rec
      ensures Under(g, l, rec.Value(), idx, rw, k)
      ensures err.None? ==> Steps(g, old(Value()), Value(), f)
      ensures err.None? ==> Decided(g, old(Value()), Value(), rw.children[i], k, side, allowed, falses)
      ensures Excused(err)
      decreases Unknown(g, memo), 1, rw, 0
    {
      hide Grown, Names, Told, TreeOk, TruthOk, Defines, EvalOk, Steps, Decided, Setting.Valid, Faithful, Unknown,
           Sound, OutcomeSet, ChildListed, Quiet;
      OperandDefines(g, rw, i, k);
      ghost var mid := rec.Value();
      var child: int;
      allowed, child, err, falses := Eval(rw.children[i], k, side, f);
      rec.AddChild(idx, child, l, mid, rw, k, g);
    }

    method Union(rw: Rewrite, k: Key, idx: int, ghost negated: bool, ghost f: Frame, ghost l: Log)
      returns (allowed: bool, err: Option<Error>, ghost falses: set<Key>)
      requires Ready() && EvalOk(g, Value(), f, k) && Under(g, l, rec.Value(), idx, rw, k)
      requires rw.op.Union? && Sound(d, g.lv, k.Ref(), rw, negated) && Defines(g, rw, k)
      modifies this, rec
      ensures Under(g, l, rec.Value(), idx, rw, k)
      ensures err.None? ==> Evaluated(g, old(Value()), Value(), f, rw, k, negated, allowed, falses)
      ensures Excused(err)
      decreases Unknown(g, memo), 1, rw, 1
    {
      hide Under, Defines, EvalOk, Evaluated, Steps, FalseReads, Unknown, Faithful, Setting.Valid, Inv, FrameInv,
           OutcomeSet, ChildListed, Quiet;
      falses := {};
      ghost var s := Value();
      ProgressStart(g, s, f, k);
      allowed := false;
      for i := 0 to |rw.children|
        invariant Quiet(outside, calls) && Under(g, l, rec.Value(), idx, rw, k) && Progress(g, s, Value(), f, k, falses)
        invariant negated ==> falses !! g.m
        invariant forall n :: 0 <= n < i ==> !Entails(g.w, rw.children[n], k, g.w.Keys() - falses, g.m)
      {
        ghost var mid, more := Value(), {};
        allowed, err, more := Operand(rw, i, k, idx, negated, f, l);
        if err.Some? { return false, err, {}; }
        if allowed {
          EvaluatedTrue(g, s, mid, Value(), f, rw, k, negated, falses);
          return true, None, {};
        }
        ProgressOn(g, s, mid, Value(), f, k, falses, more);
        forall n | 0 <= n < i ensures !Entails(g.w, rw.children[n], k, g.w.Keys() - (falses + more), g.m) {
          RefuteMore(g, rw.children[n], k, falses, falses + more);
        }
        RefuteMore(g, rw.children[i], k, more, falses + more);
        falses := falses + more;
      }
      UnionRefuted(g, rw, k, falses);
      EvaluatedFalse(g, s, Value(), f, rw, k, negated, falses);
      return false, None, falses;
    }

    method Intersection(rw: Rewrite, k: Key, idx: int, ghost negated: bool, ghost f: Frame, ghost l: Log)
      returns (allowed: bool, err: Option<Error>, ghost falses: set<Key>)
      requires Ready() && EvalOk(g, Value(), f, k) && Under(g, l, rec.Value(), idx, rw, k)
      requires rw.op.Intersection? && Sound(d, g.lv, k.Ref(), rw, negated) && Defines(g, rw, k)
      modifies this, rec
      ensures Under(g, l, rec.Value(), idx, rw, k)
      ensures err.None? ==> Evaluated(g, old(Value()), Value(), f, rw, k, negated, allowed, falses)
      ensures Excused(err)
      decreases Unknown(g, memo), 1, rw, 1
    {
      hide Under, Defines, EvalOk, Evaluated, Steps, FalseReads, Unknown, Faithful, Setting.Valid, Inv, FrameInv,
           OutcomeSet, ChildListed, Quiet;
      // Entails asks for at least one operand here.
      if |rw.children| < 2 { return false, Some(SchemaInvalid), {}; }
      falses := {};
      ghost var s := Value();
      ProgressStart(g, s, f, k);
      allowed := true;
      for i := 0 to |rw.children|
        invariant Quiet(outside, calls) && Under(g, l, rec.Value(), idx, rw, k) && Progress(g, s, Value(), f, k, {})
        invariant forall n :: 0 <= n < i ==> Entails(g.w, rw.children[n], k, g.m, g.m)
      {
        ghost var mid := Value();
        allowed, err, falses := Operand(rw, i, k, idx, negated, f, l);
        if err.Some? { return false, err, {}; }
        if !allowed {
          ProgressOn(g, s, mid, Value(), f, k, {}, falses);
          assert {} + falses == falses;
          OperandFailsAll(g, rw, k, i, falses);
          EvaluatedFalse(g, s, Value(), f, rw, k, negated, falses);
          return false, None, falses;
        }
        ProgressQuiet(g, s, mid, Value(), f, k);
      }
      StepsSelf(g, Value(), f, k);
      EvaluatedTrue(g, s, Value(), Value(), f, rw, k, negated, {});
      return true, None, {};
    }

    method Exclusion(rw: Rewrite, k: Key, idx: int, ghost negated: bool, ghost f: Frame, ghost l: Log)
      returns (allowed: bool, err: Option<Error>, ghost falses: set<Key>)
      requires Ready() && EvalOk(g, Value(), f, k) && Under(g, l, rec.Value(), idx, rw, k)
      requires rw.op.Exclusion? && Sound(d, g.lv, k.Ref(), rw, negated) && Defines(g, rw, k)
      modifies this, rec
      ensures Under(g, l, rec.Value(), idx, rw, k)
      ensures err.None? ==> Evaluated(g, old(Value()), Value(), f, rw, k, negated, allowed, falses)
      ensures Excused(err)
      decreases Unknown(g, memo), 1, rw, 1
    {
      hide Under, Defines, EvalOk, Evaluated, Steps, FalseReads, Unknown, Faithful, Setting.Valid, Inv, FrameInv,
           OutcomeSet, ChildListed, Quiet;
      // Entails is false of any other arity.
      if |rw.children| != 2 { return false, Some(SchemaInvalid), {}; }
      ghost var s := Value();
      ProgressStart(g, s, f, k);
      var base: bool;
      base, err, falses := Operand(rw, 0, k, idx, negated, f, l);
      if err.Some? { return false, err, {}; }
      ghost var mid := Value();
      if !base {
        ProgressOn(g, s, s, mid, f, k, {}, falses);
        assert {} + falses == falses;
        OperandFailsAll(g, rw, k, 0, falses);
        EvaluatedFalse(g, s, mid, f, rw, k, negated, falses);
        return false, None, falses;
      }
      ProgressQuiet(g, s, s, mid, f, k);
      var sub: bool;
      sub, err, falses := Operand(rw, 1, k, idx, true, f, l);
      if err.Some? { return false, err, {}; }
      NegatedExact(g, mid, Value(), rw.children[1], k, sub, falses);
      if sub {
        ProgressQuiet(g, s, mid, Value(), f, k);
        EvaluatedFalse(g, s, Value(), f, rw, k, negated, {});
      } else {
        EvaluatedTrue(g, s, mid, Value(), f, rw, k, negated, {});
      }
      return !sub, None, {};
    }

    /** Re-evaluates the keys from pos up until a whole round leaves them as they were. Each was answered from
        below, so the loop climbs, and where it stops the keys are stable. */
    method Settle(pos: nat, ghost f: Frame, ghost s0: State) returns (err: Option<Error>)
      requires Ready() && Recording() && Settling(g, s0, Value(), f) && pos == f.pos && lowlink == IndexOf(memo, f.cur)
      modifies this, rec
      ensures Recorded(g, old(rec.Value()), rec.Value(), NO_NODE)
      ensures err.None? ==> Settling(g, s0, Value(), f) && Stable(Value(), pos, |stack|) && depth == old(depth)
      ensures err.None? ==> IndexOf(memo, f.cur) == old(IndexOf(memo, f.cur))
      ensures Excused(err)
      decreases Unknown(g, memo), 2, 1
    {
      hide Grown, TreeOk, TruthOk, Settling, Stable, Setting.Valid, Faithful, Rises, Unknown, NotTrue, OutcomeSet,
           ChildListed, Quiet;
      ghost var s, l := Value(), rec.Value();
      RecordedNothing(g, l);
      SettlingStack(g, s0, s, f);
      var grants := ComponentGrants(pos);
      if |stack| - pos < 2 || !grants {
        SkippedIsStable(g, s0, s, f);
        return None;
      }
      rec.Pause();
      ghost var p := rec.Value();
      SameNodes(g, l, p);
      RecordedNothing(g, p);
      RisesSelf(s);
      while true
        invariant Settling(g, s0, Value(), f) && Rises(s, Value()) && depth == s.depth && Quiet(outside, calls)
        invariant Recorded(g, p, rec.Value(), NO_NODE) && rec.Value().Blocked()
        invariant Unknown(g, memo) <= Unknown(g, s.memo)
        decreases Room(g, memo)
      {
        // The stack may have grown since the previous round, so its top is read again.
        ghost var t := Value();
        var n := |stack| - pos;
        var changed: bool;
        ghost var q := rec.Value();
        changed, err := Round(pos, f, s0);
        PausedOver(g, p, q, rec.Value(), NO_NODE);
        if err.Some? {
          PausedRecords(g, l, rec.Value());
          rec.Resume();
          return;
        }
        RisesTrans(s, t, Value());
        RoundShrinks(g, s0, t, Value(), f);
        RoundTaller(t, Value());
        // Keys pushed during this round were left unstable by it: go round once more.
        if !changed && |stack| - pos == n { break; }
      }
      RisesIndex(s, Value(), f.cur);
      PausedRecords(g, l, rec.Value());
      rec.Resume();
    }

    /** One pass over the members of the component at pos. */
    method Round(pos: nat, ghost f: Frame, ghost s0: State) returns (changed: bool, err: Option<Error>)
      requires Ready() && Recording() && Settling(g, s0, Value(), f) && pos == f.pos && rec.Value().Blocked()
      modifies this, rec
      ensures Recorded(g, old(rec.Value()), rec.Value(), NO_NODE)
      ensures err.None? ==> Settling(g, s0, Value(), f) && Rises(old(Value()), Value()) && depth == old(depth)
      ensures err.None? && !changed && |stack| == |old(stack)| ==> Stable(Value(), pos, |stack|)
      ensures err.None? && changed ==> exists k :: Rose(g, old(Value()), Value(), k)
      ensures Excused(err)
      decreases Unknown(g, memo), 2, 0
    {
      hide Grown, TreeOk, TruthOk, Settling, Stable, Setting.Valid, Faithful, Rises, Unknown, EvalOk, Evaluated,
           Sound, Entails, OutcomeSet, ChildListed, Quiet;
      ghost var s, l := Value(), rec.Value();
      RecordedNothing(g, l);
      RisesSelf(s);
      SettlingStack(g, s0, s, f);
      StableNone(s, pos);
      changed, err := false, None;
      ghost var raised := f.cur;
      var members := stack[pos..];
      for i := 0 to |members|
        invariant Settling(g, s0, Value(), f) && Rises(s, Value()) && depth == s.depth && Quiet(outside, calls)
        invariant Recorded(g, l, rec.Value(), NO_NODE) && rec.Value().Blocked()
        invariant Unknown(g, memo) <= Unknown(g, s.memo)
        invariant err.None?
        invariant !changed && |stack| == |s.stack| ==> Stable(Value(), pos, pos + i)
        invariant changed ==> Rose(g, s, Value(), raised)
      {
        var k := members[i];
        ghost var t, q := Value(), rec.Value();
        MemberKnown(g, s0, s, t, f, i);
        // Granted keys are skipped: they are in the model already.
        if memo[k].state == True {
          if Stable(t, pos, pos + i) { StableTrue(t, pos, i); }
          continue;
        }
        SoundAt(g, k);
        var allowed: bool;
        var idx: int;
        ghost var falses := {};
        allowed, idx, err, falses := Eval(d.rewrites[k.Ref()], k, false, f);
        PausedOver(g, l, q, rec.Value(), idx);
        if err.Some? { return changed, err; }
        ghost var t' := Value();
        MemberEvaluated(g, s0, s, t, t', f, i, allowed, falses);
        ghost var u := Conclude(t', k, allowed, falses);
        RoundOn(g, s, t, u, raised);
        // A key newly granted makes Room smaller.
        if allowed && memo[k].state != True {
          memo := memo[k := memo[k].(state := True)];
          changed, raised := true, k;
        }
        why := if allowed then why else why[k := falses];
        assert Value() == Conclude(t', k, allowed, falses);
      }
    }

    /** Tells a component with a granted member from one that is stable as it stands. */
    method ComponentGrants(pos: nat) returns (grants: bool)
      requires pos <= |stack| && forall k :: k in stack[pos..] ==> k in memo
      ensures grants <==> exists i :: pos <= i < |stack| && Holds(memo, stack[i])
    {
      for i := pos to |stack|
        invariant forall n :: pos <= n < i ==> !Holds(memo, stack[n])
      {
        assert stack[i] in stack[pos..];
        if memo[stack[i]].state == True { return true; }
      }
      return false;
    }

    /** Takes a settled component off the stack: its answers are final. */
    method PopFrom(pos: nat)
      requires pos <= |stack| && forall k :: k in stack[pos..] ==> k in memo
      modifies `memo, `stack
      ensures memo == Unstacked(old(memo), old(stack)[pos..]) && stack == old(stack)[..pos]
    {
      for i := pos to |stack|
        invariant stack == old(stack) && memo == Unstacked(old(memo), stack[pos..i])
      {
        assert stack[pos..i + 1] == stack[pos..i] + [stack[i]];
        assert stack[i] in stack[pos..];
        memo := memo[stack[i] := memo[stack[i]].(index := 0)];
      }
      assert stack[pos..|stack|] == stack[pos..];
      stack := stack[..pos];
    }
  }
}
