/** The state of one check, as a value: what every step of the evaluator keeps, step by step.
    The evaluator itself, which updates this state in place, is in Evaluator. */
module RunState {
  import opened Refs
  import opened Model

  datatype MemoState = Computing | True | False

  /** A key's answer so far. A positive index counts from the bottom of the stack; zero means popped. */
  datatype Entry = Entry(state: MemoState, index: nat)

  type Memo = map<Key, Entry>

  function StateOf(allowed: bool): MemoState { if allowed then True else False }

  predicate Popped(memo: Memo, k: Key) { k in memo && memo[k].index == 0 }
  predicate Holds(memo: Memo, k: Key) { k in memo && memo[k].state == True }
  predicate Fails(memo: Memo, k: Key) { k in memo && memo[k].state == False }
  function IndexOf(memo: Memo, k: Key): nat { if k in memo then memo[k].index else 0 }

  /** why remembers, for each key last answered false, the keys that were read as false for it. */
  datatype State = State(memo: Memo, stack: seq<Key>, lowlink: nat, index: nat, depth: int, why: map<Key, set<Key>>)

  /** What a run is measured against: a world, a levelling of its definitions, and the model. */
  datatype Setting = Setting(w: World, lv: Levels, m: set<Key>) {
    ghost predicate Valid() { w.Closed() && !w.subject.wildcard && SoundDefs(w.d, lv) && IsModel(w, m) }
    ghost function Lv(k: Key): nat { lv(k.Ref()) }
  }

  /** The relation call being evaluated: its key, and where that key is on the stack. */
  datatype Frame = Frame(cur: Key, pos: nat)

  // ---- Invariants ----

  /** Reading every key of falses as false leaves k unheld, whatever else is held. */
  ghost predicate Refutes(g: Setting, k: Key, falses: set<Key>) {
    !EntailsKey(g.w, k, g.w.Keys() - falses, g.m)
  }

  ghost predicate Known(g: Setting, memo: Memo, keys: set<Key>) {
    forall j :: j in keys ==> j in memo && (Popped(memo, j) ==> j !in g.m)
  }

  ghost predicate Accounts(g: Setting, memo: Memo, k: Key, falses: set<Key>) {
    Refutes(g, k, falses) && Known(g, memo, falses)
  }

  /** The stack is in visit order and holds exactly the unsettled keys. */
  ghost predicate StackOk(memo: Memo, stack: seq<Key>, index: nat) {
    && (forall k :: k in stack ==> k in memo && 0 < memo[k].index <= index)
    && (forall i, j :: 0 <= i < j < |stack| ==> IndexOf(memo, stack[i]) < IndexOf(memo, stack[j]))
    && (forall k :: k in memo && memo[k].index != 0 ==> k in stack)
  }

  /** Popped keys hold their final answer, and every true is one the model holds. */
  ghost predicate MemoOk(g: Setting, memo: Memo) {
    && (forall k :: k in memo ==> k in g.w.Keys())
    && (forall k :: Holds(memo, k) ==> k in g.m)
    && (forall k :: Popped(memo, k) ==> memo[k].state == StateOf(k in g.m))
  }

  /** Every unsettled false can be accounted for. */
  ghost predicate WhysOk(g: Setting, memo: Memo, stack: seq<Key>, why: map<Key, set<Key>>) {
    && why.Keys <= memo.Keys
    && forall k :: k in stack && Fails(memo, k) ==> k in why && Accounts(g, memo, k, why[k])
  }

  ghost predicate Inv(g: Setting, s: State) {
    StackOk(s.memo, s.stack, s.index) && MemoOk(g, s.memo) && WhysOk(g, s.memo, s.stack, s.why) && s.depth <= |s.memo|
  }

  /** low is the index of a key on the stack that f reads. */
  ghost predicate LowOk(g: Setting, memo: Memo, stack: seq<Key>, low: nat, cur: Key) {
    && 0 < low <= IndexOf(memo, cur)
    && exists u :: u in stack && IndexOf(memo, u) == low && g.Lv(u) == g.Lv(cur)
  }

  /** Every key on the stack reads down to f, and those from f up are read by f. */
  ghost predicate LevelOk(g: Setting, stack: seq<Key>, f: Frame) {
    && f.pos < |stack| && stack[f.pos] == f.cur
    && (forall v :: v in stack ==> g.Lv(v) >= g.Lv(f.cur))
    && (forall i :: f.pos <= i < |stack| ==> g.Lv(stack[i]) == g.Lv(f.cur))
  }

  /** If k was answered false, nothing it read is an unsettled key from before low. */
  ghost predicate Above(memo: Memo, why: map<Key, set<Key>>, k: Key, low: nat) {
    Fails(memo, k) && k in why ==> forall j :: j in why[k] && IndexOf(memo, j) != 0 ==> IndexOf(memo, j) >= low
  }

  /** What f's subtree left unsettled is answered, and read nothing entered before low. */
  ghost predicate SubtreeOk(memo: Memo, stack: seq<Key>, why: map<Key, set<Key>>, low: nat, pos: nat) {
    && (forall i :: pos <= i < |stack| ==> Above(memo, why, stack[i], low))
    && (forall i :: pos < i < |stack| ==> Holds(memo, stack[i]) || Fails(memo, stack[i]))
  }

  /** What holds while f is being evaluated. */
  ghost predicate FrameInv(g: Setting, s: State, f: Frame) {
    && LowOk(g, s.memo, s.stack, s.lowlink, f.cur)
    && LevelOk(g, s.stack, f)
    && SubtreeOk(s.memo, s.stack, s.why, s.lowlink, f.pos)
  }

  /** From s to s' only new keys were added: what was known is unchanged. */
  ghost predicate Extends(s: State, s': State) {
    && (forall k :: k in s.memo ==> k in s'.memo && s'.memo[k] == s.memo[k])
    && s.stack <= s'.stack
    && (forall k :: k in s.why ==> k in s'.why && s'.why[k] == s.why[k])
    && s.index <= s'.index
  }

  /** j was read as false between s and s'. If settling has made it true since, it is a new key still on the stack. */
  ghost predicate FalseRead(g: Setting, s: State, s': State, j: Key) {
    && j in s'.memo
    && (Popped(s'.memo, j) ==> j !in g.m)
    && (!Popped(s'.memo, j) ==> IndexOf(s'.memo, j) >= s'.lowlink)
    && (Holds(s'.memo, j) ==> j !in s.memo && !Popped(s'.memo, j))
  }

  ghost predicate FalseReads(g: Setting, s: State, s': State, falses: set<Key>) {
    forall j :: j in falses ==> FalseRead(g, s, s', j)
  }

  // ---- Sequencing ----

  lemma ExtendsTrans(a: State, b: State, c: State)
    requires Extends(a, b) && Extends(b, c)
    ensures Extends(a, c)
  {
  }

  /** False reads stay false reads as evaluation goes on. */
  lemma ReadsGrow(g: Setting, a: State, b: State, c: State, falses: set<Key>, more: set<Key>)
    requires Extends(a, b) && Extends(b, c) && c.lowlink <= b.lowlink
    requires FalseReads(g, a, b, falses) && FalseReads(g, b, c, more)
    ensures FalseReads(g, a, c, falses + more)
  {
    forall j | j in falses + more ensures FalseRead(g, a, c, j) {
      if j in falses { assert FalseRead(g, a, b, j); }
    }
  }

  /** A key entered after s0 is above s0's stack. */
  lemma NewOnStack(s0: State, s: State, i: nat)
    requires StackOk(s0.memo, s0.stack, s0.index) && StackOk(s.memo, s.stack, s.index)
    requires Extends(s0, s) && |s0.stack| <= i < |s.stack|
    ensures s.stack[i] !in s0.memo
  {
  }

  // ---- Reading a key the memo has ----

  ghost function Hit(s: State, k: Key): State {
    if IndexOf(s.memo, k) != 0 && IndexOf(s.memo, k) < s.lowlink then s.(lowlink := IndexOf(s.memo, k)) else s
  }

  lemma HitKeeps(g: Setting, s: State, k: Key)
    requires Inv(g, s) && k in s.memo
    ensures Inv(g, Hit(s, k)) && Extends(s, Hit(s, k))
    ensures !Holds(s.memo, k) ==> FalseRead(g, s, Hit(s, k), k)
  {
    hide WhysOk, StackOk;
  }

  lemma HitKeepsFrame(g: Setting, s: State, f: Frame, k: Key)
    requires Inv(g, s) && FrameInv(g, s, f) && k in s.memo && g.Lv(k) <= g.Lv(f.cur)
    ensures FrameInv(g, Hit(s, k), f)
  {
    hide WhysOk, MemoOk;
    var s' := Hit(s, k);
    if s' != s {
      assert k in s.stack && LowOk(g, s.memo, s.stack, s'.lowlink, f.cur);
      forall i | f.pos <= i < |s.stack| ensures Above(s.memo, s.why, s.stack[i], s'.lowlink) {
        assert Above(s.memo, s.why, s.stack[i], s.lowlink);
      }
    }
  }

  // ---- Entering a new key ----

  ghost function Push(s: State, k: Key): State {
    State(s.memo[k := Entry(Computing, s.index + 1)], s.stack + [k], s.index + 1, s.index + 1, s.depth + 1, s.why)
  }

  lemma PushStack(s: State, k: Key)
    requires StackOk(s.memo, s.stack, s.index) && k !in s.memo
    ensures StackOk(Push(s, k).memo, Push(s, k).stack, Push(s, k).index)
  {
    var s' := Push(s, k);
    forall i, j | 0 <= i < j < |s'.stack| ensures IndexOf(s'.memo, s'.stack[i]) < IndexOf(s'.memo, s'.stack[j]) {
      assert s'.stack[i] == s.stack[i] && s.stack[i] in s.stack;
      if j < |s.stack| { assert s.stack[j] in s.stack; }
    }
  }

  /** Accounts hold on as new keys come in. */
  lemma WhysGrow(g: Setting, memo: Memo, memo': Memo, stack: seq<Key>, stack': seq<Key>, why: map<Key, set<Key>>)
    requires WhysOk(g, memo, stack, why)
    requires forall k :: k in memo ==> k in memo' && memo'[k] == memo[k]
    requires forall k :: k in stack' && Fails(memo', k) ==> k in stack && k in memo
    ensures WhysOk(g, memo', stack', why)
  {
    hide Refutes;
    forall k | k in stack' && Fails(memo', k) ensures k in why && Accounts(g, memo', k, why[k]) {
      assert Fails(memo, k);
    }
  }

  lemma MemoSize(memo: Memo, k: Key, e: Entry)
    ensures |memo[k := e]| == |memo| + if k in memo then 0 else 1
  {
    assert memo[k := e].Keys == memo.Keys + {k};
    assert |memo[k := e]| == |memo[k := e].Keys| && |memo| == |memo.Keys|;
  }

  lemma PushKeeps(g: Setting, s: State, k: Key)
    requires Inv(g, s) && k !in s.memo && k in g.w.Keys()
    ensures Inv(g, Push(s, k))
  {
    PushStack(s, k);
    PushMemo(g, s, k);
    PushWhys(g, s, k);
    MemoSize(s.memo, k, Entry(Computing, s.index + 1));
    hide StackOk, MemoOk, WhysOk;
  }

  lemma PushMemo(g: Setting, s: State, k: Key)
    requires MemoOk(g, s.memo) && k in g.w.Keys()
    ensures MemoOk(g, Push(s, k).memo)
  {
  }

  lemma PushWhys(g: Setting, s: State, k: Key)
    requires StackOk(s.memo, s.stack, s.index) && WhysOk(g, s.memo, s.stack, s.why) && k !in s.memo
    ensures WhysOk(g, Push(s, k).memo, Push(s, k).stack, s.why)
  {
    hide Accounts;
    WhysGrow(g, s.memo, Push(s, k).memo, s.stack, Push(s, k).stack, s.why);
  }

  lemma PushExtends(s: State, k: Key)
    requires k !in s.memo
    ensures Extends(s, Push(s, k))
  {
  }

  lemma PushFrame(g: Setting, s: State, k: Key)
    requires Inv(g, s) && k !in s.memo
    requires forall v :: v in s.stack ==> g.Lv(v) >= g.Lv(k)
    ensures FrameInv(g, Push(s, k), Frame(k, |s.stack|))
  {
    hide Accounts;
    var s' := Push(s, k);
    assert k in s'.stack;
    assert k !in s.why;
  }

  // ---- Concluding, and settling ----

  /** k's answer is recorded, with why when it is false. */
  ghost function Conclude(s: State, k: Key, allowed: bool, falses: set<Key>): State {
    s.(memo := s.memo[k := Entry(StateOf(allowed), IndexOf(s.memo, k))],
       why := if allowed then s.why else s.why[k := falses])
  }

  /** What evaluating k's definition from s to s' established. */
  ghost predicate Answered(g: Setting, s: State, s': State, k: Key, allowed: bool, falses: set<Key>) {
    if allowed then k in g.m else Refutes(g, k, falses) && FalseReads(g, s, s', falses)
  }

  lemma ConcludeKeeps(g: Setting, s: State, s': State, k: Key, allowed: bool, falses: set<Key>)
    requires Inv(g, s') && k in s'.stack && !Holds(s'.memo, k)
    requires Answered(g, s, s', k, allowed, falses)
    ensures Inv(g, Conclude(s', k, allowed, falses))
  {
    ConcludeStack(s', k, allowed, falses);
    ConcludeMemo(g, s', k, allowed, falses);
    ConcludeWhys(g, s, s', k, allowed, falses);
    assert k in s'.memo;
    MemoSize(s'.memo, k, Entry(StateOf(allowed), IndexOf(s'.memo, k)));
    hide StackOk, MemoOk, WhysOk, Refutes;
  }

  lemma ConcludeMemo(g: Setting, s: State, k: Key, allowed: bool, falses: set<Key>)
    requires MemoOk(g, s.memo) && StackOk(s.memo, s.stack, s.index) && k in s.stack && (allowed ==> k in g.m)
    ensures MemoOk(g, Conclude(s, k, allowed, falses).memo)
  {
  }

  lemma ConcludeStack(s: State, k: Key, allowed: bool, falses: set<Key>)
    requires StackOk(s.memo, s.stack, s.index) && k in s.stack
    ensures StackOk(Conclude(s, k, allowed, falses).memo, s.stack, s.index)
  {
    var t := Conclude(s, k, allowed, falses);
    assert forall j :: IndexOf(t.memo, j) == IndexOf(s.memo, j);
  }

  lemma ConcludeWhys(g: Setting, s: State, s': State, k: Key, allowed: bool, falses: set<Key>)
    requires StackOk(s'.memo, s'.stack, s'.index) && WhysOk(g, s'.memo, s'.stack, s'.why)
    requires k in s'.stack && !Holds(s'.memo, k)
    requires Answered(g, s, s', k, allowed, falses)
    ensures WhysOk(g, Conclude(s', k, allowed, falses).memo, s'.stack, Conclude(s', k, allowed, falses).why)
  {
    hide Refutes;
    var t := Conclude(s', k, allowed, falses);
    forall j | j in s'.stack && Fails(t.memo, j) ensures j in t.why && Accounts(g, t.memo, j, t.why[j]) {
      if j == k {
        assert forall r :: r in falses ==> FalseRead(g, s, s', r);
      } else {
        assert Fails(s'.memo, j) && Accounts(g, s'.memo, j, s'.why[j]);
      }
    }
  }

  lemma ConcludeFrame(g: Setting, s: State, s': State, f: Frame, k: Key, allowed: bool, falses: set<Key>)
    requires StackOk(s'.memo, s'.stack, s'.index) && FrameInv(g, s', f) && k in s'.stack[f.pos..]
    requires Answered(g, s, s', k, allowed, falses)
    ensures FrameInv(g, Conclude(s', k, allowed, falses), f)
  {
    ConcludeIndexes(s', k, allowed, falses);
    ConcludeSubtree(g, s, s', f, k, allowed, falses);
    hide SubtreeOk, LevelOk, Answered, StackOk;
    var t := Conclude(s', k, allowed, falses);
    var u :| u in s'.stack && IndexOf(s'.memo, u) == s'.lowlink && g.Lv(u) == g.Lv(f.cur);
    assert u in t.stack && IndexOf(t.memo, u) == t.lowlink;
  }

  lemma ConcludeIndexes(s: State, k: Key, allowed: bool, falses: set<Key>)
    requires k in s.memo || k !in s.stack
    ensures forall j :: IndexOf(Conclude(s, k, allowed, falses).memo, j) == IndexOf(s.memo, j)
  {
  }

  lemma ConcludeSubtree(g: Setting, s: State, s': State, f: Frame, k: Key, allowed: bool, falses: set<Key>)
    requires StackOk(s'.memo, s'.stack, s'.index) && FrameInv(g, s', f) && k in s'.stack[f.pos..]
    requires Answered(g, s, s', k, allowed, falses)
    ensures var t := Conclude(s', k, allowed, falses); SubtreeOk(t.memo, t.stack, t.why, t.lowlink, f.pos)
  {
    hide Refutes, LowOk, LevelOk;
    var t := Conclude(s', k, allowed, falses);
    ConcludeIndexes(s', k, allowed, falses);
    forall i | f.pos <= i < |t.stack| ensures Above(t.memo, t.why, t.stack[i], t.lowlink) {
      assert Above(s'.memo, s'.why, s'.stack[i], s'.lowlink);
      if t.stack[i] == k && !allowed {
        assert forall r :: r in falses ==> FalseRead(g, s, s', r);
      }
    }
  }

  /** Concluding a key entered after s0 leaves what s0 knew alone. */
  lemma ConcludeExtends(g: Setting, s0: State, s: State, i: nat, allowed: bool, falses: set<Key>)
    requires Inv(g, s0) && Inv(g, s) && Extends(s0, s) && |s0.stack| <= i < |s.stack|
    ensures Extends(s0, Conclude(s, s.stack[i], allowed, falses))
  {
    NewOnStack(s0, s, i);
  }

  /** The false members from pos up to n read only keys that are not true still. */
  ghost predicate Stable(s: State, pos: nat, n: nat) {
    forall i :: pos <= i < n && i < |s.stack| ==> StillFalse(s, s.stack[i])
  }

  ghost predicate StillFalse(s: State, k: Key) {
    Fails(s.memo, k) && k in s.why ==> forall j :: j in s.why[k] ==> !Holds(s.memo, j)
  }

  /** A component that grants nothing, or has a single member, was stable when its root was concluded. */
  lemma NothingGrantedIsStable(g: Setting, s: State, f: Frame)
    requires Inv(g, s) && FrameInv(g, s, f) && s.lowlink == IndexOf(s.memo, f.cur)
    requires |s.stack| - f.pos < 2 || forall i :: f.pos <= i < |s.stack| ==> !Holds(s.memo, s.stack[i])
    ensures Stable(s, f.pos, |s.stack|)
  {
    hide Refutes, LowOk, WhysOk, MemoOk, SubtreeOk;
    forall i, j | f.pos <= i < |s.stack| && Fails(s.memo, s.stack[i]) && s.stack[i] in s.why && j in s.why[s.stack[i]]
      ensures !Holds(s.memo, j) {
      ReadAsFalse(g, s, f, i, j);
      if Holds(s.memo, j) { FromRoot(s, f.pos, j); }
    }
  }

  /** What a false key of the component read is false for good, or no older than the root. */
  lemma ReadAsFalse(g: Setting, s: State, f: Frame, i: nat, j: Key)
    requires Inv(g, s) && FrameInv(g, s, f) && s.lowlink == IndexOf(s.memo, f.cur) && f.pos <= i < |s.stack|
    requires Fails(s.memo, s.stack[i]) && s.stack[i] in s.why && j in s.why[s.stack[i]]
    ensures j in s.memo && (Popped(s.memo, j) ==> !Holds(s.memo, j))
    ensures IndexOf(s.memo, j) != 0 ==> IndexOf(s.memo, j) >= IndexOf(s.memo, f.cur)
  {
    hide Refutes, LowOk, StackOk;
    assert s.stack[i] in s.stack;
    assert Accounts(g, s.memo, s.stack[i], s.why[s.stack[i]]) && Above(s.memo, s.why, s.stack[i], s.lowlink);
  }

  /** On the stack, index order is position order. */
  lemma FromRoot(s: State, pos: nat, j: Key)
    requires StackOk(s.memo, s.stack, s.index) && pos < |s.stack|
    requires j in s.memo && IndexOf(s.memo, j) != 0 && IndexOf(s.memo, j) >= IndexOf(s.memo, s.stack[pos])
    ensures j in s.stack[pos..]
  {
    var p :| 0 <= p < |s.stack| && s.stack[p] == j;
    assert p >= pos;
    assert s.stack[pos..][p - pos] == j;
  }

  /** Evaluating more keeps a round stable if it leaves no new key on the stack. */
  lemma StableGrows(g: Setting, s: State, s': State, pos: nat, n: nat)
    requires Inv(g, s) && Extends(s, s') && |s'.stack| == |s.stack|
    requires Stable(s, pos, n)
    ensures Stable(s', pos, n)
  {
    hide Refutes;
    assert s'.stack == s.stack;
    forall i | pos <= i < n && i < |s'.stack| ensures StillFalse(s', s'.stack[i]) {
      assert s.stack[i] in s.stack && StillFalse(s, s.stack[i]);
      assert Fails(s.memo, s.stack[i]) ==> Accounts(g, s.memo, s.stack[i], s.why[s.stack[i]]);
    }
  }

  /** A member answered false in a round that leaves no new key on the stack is stable too. */
  lemma StableStep(g: Setting, s: State, s': State, pos: nat, n: nat, falses: set<Key>)
    requires StackOk(s.memo, s.stack, s.index) && StackOk(s'.memo, s'.stack, s'.index)
    requires Extends(s, s') && |s'.stack| == |s.stack| && pos <= n < |s.stack|
    requires Stable(s', pos, n) && Fails(s'.memo, s'.stack[n])
    requires FalseReads(g, s, s', falses)
    ensures Stable(Conclude(s', s'.stack[n], false, falses), pos, n + 1)
  {
    var t := Conclude(s', s'.stack[n], false, falses);
    assert s'.stack == s.stack;
    assert forall j :: Holds(t.memo, j) <==> Holds(s'.memo, j);
    forall j | j in falses ensures !Holds(s'.memo, j) {
      assert FalseRead(g, s, s', j);
    }
    forall i | pos <= i < n + 1 ensures StillFalse(t, t.stack[i]) {
      if i < n { assert StillFalse(s', s'.stack[i]) && t.stack[i] != t.stack[n]; }
    }
  }

  // ---- Popping a settled component ----

  function Unstacked(memo: Memo, members: seq<Key>): Memo {
    map k | k in memo :: if k in members then Entry(memo[k].state, 0) else memo[k]
  }

  ghost function PopAll(s: State, pos: nat): State
    requires pos <= |s.stack|
  {
    s.(memo := Unstacked(s.memo, s.stack[pos..]), stack := s.stack[..pos])
  }

  /** What one false member of a settled component read is false in everything but the component's falses. */
  lemma ReadsOutside(g: Setting, s: State, f: Frame, j: Key, x: set<Key>)
    requires Inv(g, s) && FrameInv(g, s, f) && s.lowlink == IndexOf(s.memo, f.cur)
    requires s.memo[f.cur].state != Computing
    requires Stable(s, f.pos, |s.stack|) && j in s.stack[f.pos..] && Fails(s.memo, j)
    requires forall r :: r in x ==> r in g.m && (r in s.stack[f.pos..] ==> !Fails(s.memo, r))
    ensures j in s.why && Refutes(g, j, s.why[j]) && x !! s.why[j]
  {
    hide Refutes, LowOk;
    var i :| f.pos <= i < |s.stack| && s.stack[i] == j;
    assert Accounts(g, s.memo, j, s.why[j]) && Above(s.memo, s.why, s.stack[i], s.lowlink) && StillFalse(s, s.stack[i]);
    forall r | r in s.why[j] ensures r !in x {
      if !Popped(s.memo, r) {
        FromRoot(s, f.pos, r);
        var p :| f.pos <= p < |s.stack| && s.stack[p] == r;
      }
    }
  }

  /** What is still false in a stable component that reads nothing unsettled outside itself is not in the model. */
  lemma StableIsFinal(g: Setting, s: State, f: Frame, k: Key)
    requires g.Valid() && Inv(g, s) && FrameInv(g, s, f) && s.lowlink == IndexOf(s.memo, f.cur)
    requires s.memo[f.cur].state != Computing
    requires Stable(s, f.pos, |s.stack|) && k in s.stack[f.pos..] && Fails(s.memo, k)
    ensures k !in g.m
  {
    hide Entails, FrameInv, Inv, Stable, SoundDefs;
    var x := set j | j in g.m && (j in s.stack[f.pos..] ==> !Fails(s.memo, j));
    forall j | j in g.w.Keys() && EntailsKey(g.w, j, x, g.m) ensures j in x {
      Monotone(g.w, g.w.d.rewrites[j.Ref()], j, x, g.m, g.m);
      assert EntailsKey(g.w, j, g.m, g.m);
      assert j in g.m;
      if j in s.stack[f.pos..] && Fails(s.memo, j) {
        ReadsOutside(g, s, f, j, x);
        Monotone(g.w, g.w.d.rewrites[j.Ref()], j, x, g.w.Keys() - s.why[j], g.m);
      }
    }
    assert ClosedOn(g.w, g.w.Keys(), x, g.m);
  }

  /** The root's component settled: every answer in it is final, and the rest of the state stands. */
  lemma PopKeeps(g: Setting, s0: State, s: State, f: Frame)
    requires g.Valid() && Inv(g, s0) && Inv(g, s) && Extends(s0, s) && f.pos == |s0.stack|
    requires FrameInv(g, s, f) && s.lowlink == IndexOf(s.memo, f.cur) && s.memo[f.cur].state != Computing
    requires Stable(s, f.pos, |s.stack|)
    ensures Inv(g, PopAll(s, f.pos)) && Extends(s0, PopAll(s, f.pos))
    ensures PopAll(s, f.pos).stack == s0.stack
  {
    hide StackOk, MemoOk, WhysOk, FrameInv, Stable, Setting.Valid;
    var t := PopAll(s, f.pos);
    assert t.stack == s0.stack;
    assert t.memo.Keys == s.memo.Keys;
    assert |t.memo| == |t.memo.Keys| && |s.memo| == |s.memo.Keys|;
    PopStack(s0, s, f.pos);
    PopExtends(s0, s, f.pos);
    PopMemo(g, s, f);
    PopWhys(g, s0, s, f);
  }

  /** The members of a component are all new since its root was entered. */
  lemma MembersNew(s0: State, s: State, pos: nat)
    requires StackOk(s0.memo, s0.stack, s0.index) && StackOk(s.memo, s.stack, s.index)
    requires Extends(s0, s) && pos == |s0.stack| <= |s.stack|
    ensures s.stack[..pos] == s0.stack
    ensures forall k :: k in s.stack[pos..] ==> k !in s0.memo
    ensures forall k :: k in s.stack ==> k in s0.stack || k in s.stack[pos..]
  {
    forall k | k in s.stack[pos..] ensures k !in s0.memo {
      var i :| pos <= i < |s.stack| && s.stack[i] == k;
      NewOnStack(s0, s, i);
    }
    assert s.stack == s.stack[..pos] + s.stack[pos..];
  }

  lemma PopStack(s0: State, s: State, pos: nat)
    requires StackOk(s0.memo, s0.stack, s0.index) && StackOk(s.memo, s.stack, s.index)
    requires Extends(s0, s) && pos == |s0.stack| <= |s.stack|
    ensures StackOk(PopAll(s, pos).memo, s0.stack, s.index)
  {
    MembersNew(s0, s, pos);
    var t := PopAll(s, pos);
    forall k | k in s0.stack ensures k in t.memo && t.memo[k] == s.memo[k] && k in s.stack { assert k in s0.memo; }
    hide Extends;
    forall i, j | 0 <= i < j < |s0.stack| ensures IndexOf(t.memo, s0.stack[i]) < IndexOf(t.memo, s0.stack[j]) {
      assert s0.stack[i] in s0.stack && s0.stack[j] in s0.stack;
      assert s.stack[i] == s0.stack[i] && s.stack[j] == s0.stack[j];
    }
  }

  lemma PopExtends(s0: State, s: State, pos: nat)
    requires StackOk(s0.memo, s0.stack, s0.index) && StackOk(s.memo, s.stack, s.index)
    requires Extends(s0, s) && pos == |s0.stack| <= |s.stack|
    ensures Extends(s0, PopAll(s, pos))
  {
    MembersNew(s0, s, pos);
    hide StackOk;
  }

  lemma PopMemo(g: Setting, s: State, f: Frame)
    requires g.Valid() && Inv(g, s)
    requires FrameInv(g, s, f) && s.lowlink == IndexOf(s.memo, f.cur) && s.memo[f.cur].state != Computing
    requires Stable(s, f.pos, |s.stack|)
    ensures MemoOk(g, PopAll(s, f.pos).memo)
  {
    hide StackOk, WhysOk, LowOk, Above, SoundDefs, IsModel, StillFalse;
    var members := s.stack[f.pos..];
    var memo := Unstacked(s.memo, members);
    forall k | k in members ensures Holds(s.memo, k) || (Fails(s.memo, k) && k !in g.m) {
      var i :| f.pos <= i < |s.stack| && s.stack[i] == k;
      if Fails(s.memo, k) { StableIsFinal(g, s, f, k); } else { MemberAnswered(g, s, f, i); }
    }
    MemoUnstacked(g, s.memo, members);
  }

  lemma MemberAnswered(g: Setting, s: State, f: Frame, i: nat)
    requires Inv(g, s) && FrameInv(g, s, f) && s.memo[f.cur].state != Computing && f.pos <= i < |s.stack|
    ensures Holds(s.memo, s.stack[i]) || Fails(s.memo, s.stack[i])
  {
    hide WhysOk, LowOk, Above;
    assert s.stack[i] in s.stack;
  }

  lemma MemoUnstacked(g: Setting, memo: Memo, members: seq<Key>)
    requires MemoOk(g, memo)
    requires forall k :: k in members ==> Holds(memo, k) || (Fails(memo, k) && k !in g.m)
    ensures MemoOk(g, Unstacked(memo, members))
  {
  }

  /** Popping changes no key known before the root, and settles only keys entered since. */
  lemma PopOld(s0: State, s: State, pos: nat)
    requires StackOk(s0.memo, s0.stack, s0.index) && StackOk(s.memo, s.stack, s.index)
    requires Extends(s0, s) && pos == |s0.stack| <= |s.stack|
    ensures forall k :: k in s0.memo ==> k in PopAll(s, pos).memo && PopAll(s, pos).memo[k] == s0.memo[k]
    ensures forall k :: k in s0.stack ==> k in s0.memo
    ensures PopAll(s, pos).memo.Keys == s.memo.Keys
  {
    MembersNew(s0, s, pos);
  }

  lemma PopWhys(g: Setting, s0: State, s: State, f: Frame)
    requires Inv(g, s0) && Inv(g, s) && Extends(s0, s) && f.pos == |s0.stack| <= |s.stack|
    ensures WhysOk(g, PopAll(s, f.pos).memo, s0.stack, s.why)
  {
    hide Refutes, MemoOk;
    var t := PopAll(s, f.pos);
    PopOld(s0, s, f.pos);
    hide StackOk, PopAll, Unstacked;
    forall k | k in s0.stack && Fails(t.memo, k) ensures k in s.why && Accounts(g, t.memo, k, s.why[k]) {
      assert k in s0.memo && Fails(s0.memo, k) && Accounts(g, s0.memo, k, s0.why[k]);
    }
  }

  // ---- Back in the caller's frame ----

  /** What returning to the caller's frame leaves, whether the callee's key was popped or not. */
  ghost function Return(s: State, outer: nat): State {
    s.(lowlink := if outer < s.lowlink then outer else s.lowlink, depth := s.depth - 1)
  }

  /** A callee that reaches an earlier key leaves its subtree to the caller. */
  lemma ReturnUnsettled(g: Setting, s0: State, s: State, f: Frame, callee: Frame)
    requires Inv(g, s0) && Inv(g, s) && Extends(s0, s) && callee.pos == |s0.stack|
    requires FrameInv(g, s0, f) && FrameInv(g, s, callee) && g.Lv(callee.cur) <= g.Lv(f.cur)
    requires s.lowlink < IndexOf(s.memo, callee.cur) && s.memo[callee.cur].state != Computing
    ensures FrameInv(g, Return(s, s0.lowlink), f)
  {
    hide MemoOk, WhysOk, LowOk, SubtreeOk;
    ReturnLow(g, s0, s, f, callee);
    ReturnLevels(g, s0, s, f, callee);
    ReturnSubtree(g, s0, s, f, callee);
  }

  lemma ReturnSubtree(g: Setting, s0: State, s: State, f: Frame, callee: Frame)
    requires Inv(g, s0) && Inv(g, s) && Extends(s0, s) && callee.pos == |s0.stack| <= |s.stack|
    requires f.pos < |s0.stack| && SubtreeOk(s0.memo, s0.stack, s0.why, s0.lowlink, f.pos)
    requires SubtreeOk(s.memo, s.stack, s.why, s.lowlink, callee.pos)
    requires callee.pos < |s.stack| && s.stack[callee.pos] == callee.cur && s.memo[callee.cur].state != Computing
    ensures SubtreeOk(s.memo, s.stack, s.why, Return(s, s0.lowlink).lowlink, f.pos)
  {
    hide MemoOk, WhysOk;
    var low := Return(s, s0.lowlink).lowlink;
    forall i | f.pos <= i < |s.stack| ensures Above(s.memo, s.why, s.stack[i], low) {
      if i < callee.pos {
        AboveKeeps(g, s0, s, i, low);
      } else {
        assert Above(s.memo, s.why, s.stack[i], s.lowlink);
      }
    }
    forall i | f.pos < i < |s.stack| ensures Holds(s.memo, s.stack[i]) || Fails(s.memo, s.stack[i]) {
      assert s.stack[i] in s.stack;
      if i < callee.pos {
        assert Holds(s0.memo, s0.stack[i]) || Fails(s0.memo, s0.stack[i]);
      }
    }
  }

  lemma AboveKeeps(g: Setting, s0: State, s: State, i: nat, low: nat)
    requires Inv(g, s0) && Extends(s0, s) && i < |s0.stack| && low <= s0.lowlink
    requires Above(s0.memo, s0.why, s0.stack[i], s0.lowlink)
    ensures Above(s.memo, s.why, s.stack[i], low)
  {
    hide Refutes, MemoOk;
    assert s.stack[i] == s0.stack[i] && s0.stack[i] in s0.stack;
    assert Fails(s0.memo, s0.stack[i]) ==> Accounts(g, s0.memo, s0.stack[i], s0.why[s0.stack[i]]);
  }

  /** The callee's lowlink is a key the caller had on its stack already, and on the caller's level. */
  lemma LowestIsOld(g: Setting, s0: State, s: State, f: Frame, callee: Frame) returns (u: Key)
    requires StackOk(s.memo, s.stack, s.index) && Extends(s0, s) && callee.pos == |s0.stack|
    requires LevelOk(g, s0.stack, f) && LowOk(g, s.memo, s.stack, s.lowlink, callee.cur)
    requires LevelOk(g, s.stack, callee) && g.Lv(callee.cur) <= g.Lv(f.cur)
    requires s.lowlink < IndexOf(s.memo, callee.cur)
    ensures u in s0.stack && IndexOf(s.memo, u) == s.lowlink && g.Lv(callee.cur) == g.Lv(f.cur) == g.Lv(u)
  {
    u :| u in s.stack && IndexOf(s.memo, u) == s.lowlink && g.Lv(u) == g.Lv(callee.cur);
    var p :| 0 <= p < |s.stack| && s.stack[p] == u;
    assert p < callee.pos;
    assert u == s0.stack[p] && u in s0.stack;
  }

  lemma ReturnLow(g: Setting, s0: State, s: State, f: Frame, callee: Frame)
    requires StackOk(s0.memo, s0.stack, s0.index) && StackOk(s.memo, s.stack, s.index)
    requires Extends(s0, s) && callee.pos == |s0.stack|
    requires FrameInv(g, s0, f) && FrameInv(g, s, callee) && g.Lv(callee.cur) <= g.Lv(f.cur)
    requires s.lowlink < IndexOf(s.memo, callee.cur)
    ensures LowOk(g, s.memo, s.stack, Return(s, s0.lowlink).lowlink, f.cur)
  {
    hide SubtreeOk;
    var u := LowestIsOld(g, s0, s, f, callee);
    var o :| o in s0.stack && IndexOf(s0.memo, o) == s0.lowlink && g.Lv(o) == g.Lv(f.cur);
    assert o in s.stack && IndexOf(s.memo, o) == s0.lowlink;
    assert s0.stack[f.pos] in s0.stack;
    assert u in s.stack;
  }

  lemma ReturnLevels(g: Setting, s0: State, s: State, f: Frame, callee: Frame)
    requires StackOk(s.memo, s.stack, s.index) && Extends(s0, s) && callee.pos == |s0.stack|
    requires FrameInv(g, s0, f) && FrameInv(g, s, callee) && g.Lv(callee.cur) <= g.Lv(f.cur)
    requires s.lowlink < IndexOf(s.memo, callee.cur)
    ensures LevelOk(g, s.stack, f)
  {
    hide SubtreeOk, LowOk;
    var u := LowestIsOld(g, s0, s, f, callee);
  }

  /** A callee whose component was popped leaves the caller where it was. */
  lemma ReturnSettled(g: Setting, s0: State, s: State, f: Frame)
    requires Inv(g, s0) && Extends(s0, s) && s.stack == s0.stack && s.lowlink >= s0.lowlink
    requires FrameInv(g, s0, f)
    ensures FrameInv(g, Return(s, s0.lowlink), f)
  {
    hide Refutes, MemoOk;
    forall i | f.pos <= i < |s.stack| ensures Above(s.memo, s.why, s.stack[i], s0.lowlink) {
      AboveKeeps(g, s0, s, i, s0.lowlink);
    }
    var o :| o in s0.stack && IndexOf(s0.memo, o) == s0.lowlink && g.Lv(o) == g.Lv(f.cur);
    assert o in s.stack && IndexOf(s.memo, o) == s0.lowlink;
    assert f.cur in s0.stack;
    forall i | f.pos < i < |s.stack| ensures Holds(s.memo, s.stack[i]) || Fails(s.memo, s.stack[i]) {
      assert Holds(s0.memo, s0.stack[i]) || Fails(s0.memo, s0.stack[i]);
    }
  }
}
