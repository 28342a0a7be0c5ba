/** The forest of evaluation nodes a check leaves behind. */
module ProofTree {
  import opened Refs
  import opened Schema
  import opened Model
  import opened RunState

  const MAX_PROOF_NODES := 256

  /** Stands for a node that is not in the forest, whatever the reason. */
  const NO_NODE := -1

  datatype ProofMode = ProofNone | ProofJustify
  datatype Outcome = Incomplete | Allowed | Denied | Cycle

  datatype ProofNode = ProofNode(key: Key, op: Op, outcome: Outcome, memoized: bool, children: seq<int>)

  /** A recorder's state. what and parents exist for the argument only: the rewrite each node evaluates, and the
      node it hangs from. */
  datatype Log = Log(mode: ProofMode, nodes: seq<ProofNode>, truncated: bool, paused: nat,
                     what: seq<Rewrite>, parents: seq<int>)
  {
    /** Nothing more will be recorded while this lasts. */
    predicate Blocked() { mode == ProofNone || paused > 0 || |nodes| >= MAX_PROOF_NODES }
  }

  ghost predicate ChildOf(l: Log, p: int, c: int) { 0 <= p < |l.nodes| && c in l.nodes[p].children }

  /** Every node is listed by its parent and by nobody else, once, and sits above it. */
  ghost predicate TreeOk(l: Log) {
    && |l.what| == |l.parents| == |l.nodes| <= MAX_PROOF_NODES
    && (forall c :: 0 <= c < |l.nodes| && l.parents[c] != NO_NODE ==> ChildOf(l, l.parents[c], c))
    && (forall p, c :: ChildOf(l, p, c) ==> p < c < |l.nodes| && l.parents[c] == p)
    && (forall p :: 0 <= p < |l.nodes| ==> Rising(l.nodes[p].children))
    && (l.truncated ==> |l.nodes| == MAX_PROOF_NODES)
  }

  predicate Rising(s: seq<int>) { forall i, j :: 0 <= i < j < |s| ==> s[i] < s[j] }

  /** part is rw, or an operand somewhere within it. */
  ghost predicate Within(part: Rewrite, rw: Rewrite)
    decreases rw
  {
    part == rw || exists i :: 0 <= i < |rw.children| && Within(part, rw.children[i])
  }

  lemma {:induction false} OperandWithin(part: Rewrite, i: nat, rw: Rewrite)
    requires Within(part, rw) && i < |part.children|
    ensures Within(part.children[i], rw)
    decreases rw
  {
    if part == rw {
      assert Within(part.children[i], rw.children[i]);
    } else {
      var n :| 0 <= n < |rw.children| && Within(part, rw.children[n]);
      OperandWithin(part, i, rw.children[n]);
    }
  }

  /** part is the definition of k's relation, or an operand somewhere within it. */
  ghost predicate Defines(g: Setting, part: Rewrite, k: Key) {
    g.w.d.Defined(k.Ref()) && Within(part, g.w.d.rewrites[k.Ref()])
  }

  /** A node evaluates part of its own key's definition, and a node marked allowed a part the model satisfies. */
  ghost predicate TruthOk(g: Setting, l: Log) {
    |l.what| == |l.nodes|
    && forall i :: 0 <= i < |l.nodes| ==>
         l.nodes[i].op == l.what[i].op
         && Defines(g, l.what[i], l.nodes[i].key)
         && (l.nodes[i].outcome == Allowed ==> Entails(g.w, l.what[i], l.nodes[i].key, g.m, g.m))
  }

  /** From l to l' one block of nodes was added, all hanging below idx: or none, when idx is NO_NODE. */
  ghost predicate Grown(l: Log, l': Log, idx: int) {
    && l'.mode == l.mode && l'.paused == l.paused && |l.nodes| <= |l'.nodes|
    && |l.parents| == |l.what| == |l.nodes| && |l'.parents| == |l'.what| == |l'.nodes|
    && (forall i :: 0 <= i < |l.nodes| ==> l'.nodes[i] == l.nodes[i] && l'.what[i] == l.what[i] && l'.parents[i] == l.parents[i])
    && (if idx == NO_NODE then |l'.nodes| == |l.nodes|
        else idx == |l.nodes| < |l'.nodes| && l'.parents[idx] == NO_NODE)
    && (forall i :: idx < i < |l'.nodes| && |l.nodes| <= i ==> l'.parents[i] != NO_NODE)
  }

  /** idx, when recorded, is the node of rw on k. */
  ghost predicate Names(l: Log, idx: int, rw: Rewrite, k: Key) {
    idx != NO_NODE ==> 0 <= idx < |l.nodes| && |l.what| == |l.nodes| && l.what[idx] == rw && l.nodes[idx].key == k
  }

  /** What every evaluation step promises about the proof, however it ends. */
  ghost predicate Recorded(g: Setting, l: Log, l': Log, idx: int) {
    && TreeOk(l') && TruthOk(g, l') && Grown(l, l', idx)
    && (l.Blocked() ==> idx == NO_NODE)
  }

  /** idx is the open node of rw on k in what was recorded since l; when it is none, nothing below it is either. */
  ghost predicate Under(g: Setting, l: Log, l': Log, idx: int, rw: Rewrite, k: Key) {
    Recorded(g, l, l', idx) && Names(l', idx, rw, k) && (idx == NO_NODE ==> l'.Blocked())
  }

  /** idx is k's node and says how the evaluation of rw ended; it is missing only if nothing could be recorded. */
  ghost predicate Told(l: Log, idx: int, rw: Rewrite, k: Key, allowed: bool) {
    Names(l, idx, rw, k)
    && if idx == NO_NODE then l.Blocked() else 0 <= idx < |l.nodes| && l.nodes[idx].outcome == OutcomeOf(allowed)
  }

  function OutcomeOf(allowed: bool): Outcome { if allowed then Allowed else Denied }

  lemma ToldNames(l: Log, idx: int, rw: Rewrite, k: Key, allowed: bool)
    requires Told(l, idx, rw, k, allowed)
    ensures Names(l, idx, rw, k) && (idx == NO_NODE ==> l.Blocked())
  {
  }

  lemma GrownOver(l: Log, l': Log, l'': Log, idx: int, rw: Rewrite, k: Key)
    requires Grown(l, l', idx) && Grown(l', l'', NO_NODE)
    ensures Grown(l, l'', idx)
    ensures Names(l', idx, rw, k) ==> Names(l'', idx, rw, k)
  {
  }

  ghost function Opened(l: Log, rw: Rewrite, k: Key): Log {
    l.(nodes := l.nodes + [ProofNode(k, rw.op, Incomplete, false, [])], what := l.what + [rw], parents := l.parents + [NO_NODE])
  }

  ghost function Closed(l: Log, idx: int, outcome: Outcome, memoized: bool): Log
    requires 0 <= idx < |l.nodes|
  {
    l.(nodes := l.nodes[idx := l.nodes[idx].(outcome := outcome, memoized := memoized)])
  }

  ghost function Attached(l: Log, parent: int, child: int): Log
    requires 0 <= parent < |l.nodes| && 0 <= child < |l.parents|
  {
    l.(nodes := l.nodes[parent := l.nodes[parent].(children := l.nodes[parent].children + [child])],
       parents := l.parents[child := parent])
  }

  /** Only the nodes matter to the tree and its truth, and that a tree called truncated is full. */
  lemma SameNodes(g: Setting, l: Log, l': Log)
    requires TreeOk(l) && TruthOk(g, l)
    requires l'.nodes == l.nodes && l'.what == l.what && l'.parents == l.parents
    requires l'.truncated ==> l.truncated || |l.nodes| >= MAX_PROOF_NODES
    ensures TreeOk(l') && TruthOk(g, l')
  {
    hide Entails, Defines;
    forall p, c ensures ChildOf(l', p, c) <==> ChildOf(l, p, c) {}
  }

  lemma OpenedTruth(g: Setting, l: Log, rw: Rewrite, k: Key)
    requires TruthOk(g, l) && Defines(g, rw, k)
    ensures TruthOk(g, Opened(l, rw, k))
  {
  }

  lemma OpenedOk(g: Setting, l: Log, rw: Rewrite, k: Key)
    requires TreeOk(l) && TruthOk(g, l) && |l.nodes| < MAX_PROOF_NODES && Defines(g, rw, k)
    ensures TreeOk(Opened(l, rw, k)) && TruthOk(g, Opened(l, rw, k)) && Grown(l, Opened(l, rw, k), |l.nodes|)
  {
    OpenedTruth(g, l, rw, k);
    hide TruthOk;
    var o := Opened(l, rw, k);
    assert forall i :: 0 <= i < |l.nodes| ==> o.nodes[i] == l.nodes[i] && o.parents[i] == l.parents[i];
    forall p, c ensures ChildOf(o, p, c) <==> ChildOf(l, p, c) {}
  }

  lemma ClosedTree(l: Log, idx: int, outcome: Outcome, memoized: bool)
    requires TreeOk(l) && 0 <= idx < |l.nodes|
    ensures TreeOk(Closed(l, idx, outcome, memoized))
  {
    hide Rising;
    var o := Closed(l, idx, outcome, memoized);
    assert forall i :: 0 <= i < |l.nodes| ==> o.nodes[i].children == l.nodes[i].children;
    forall p, c ensures ChildOf(o, p, c) <==> ChildOf(l, p, c) {}
  }

  lemma ClosedOk(g: Setting, l: Log, l': Log, idx: int, outcome: Outcome, memoized: bool)
    requires TreeOk(l') && TruthOk(g, l') && 0 <= idx < |l'.nodes|
    requires outcome == Allowed ==> Entails(g.w, l'.what[idx], l'.nodes[idx].key, g.m, g.m)
    ensures TreeOk(Closed(l', idx, outcome, memoized)) && TruthOk(g, Closed(l', idx, outcome, memoized))
    ensures Grown(l, l', idx) ==> Grown(l, Closed(l', idx, outcome, memoized), idx)
  {
    ClosedTree(l', idx, outcome, memoized);
    hide Entails, TreeOk, Defines;
    var o := Closed(l', idx, outcome, memoized);
    forall i | 0 <= i < |o.nodes|
      ensures o.nodes[i].op == o.what[i].op && Defines(g, o.what[i], o.nodes[i].key)
      ensures o.nodes[i].outcome == Allowed ==> Entails(g.w, o.what[i], o.nodes[i].key, g.m, g.m) {
      assert l'.nodes[i].op == l'.what[i].op;
      if i != idx { assert o.nodes[i] == l'.nodes[i]; }
    }
  }

  lemma AttachedTree(mid: Log, l: Log, idx: int, child: int)
    requires TreeOk(mid) && TreeOk(l) && 0 <= idx < |mid.nodes| <= |l.nodes| && l.nodes[idx] == mid.nodes[idx]
    requires child == |mid.nodes| < |l.nodes| && l.parents[child] == NO_NODE
    ensures TreeOk(Attached(l, idx, child))
  {
    var a := Attached(l, idx, child);
    var kids := l.nodes[idx].children;
    assert a.nodes[idx].children == kids + [child];
    assert forall c :: c in kids + [child] <==> c in kids || c == child;
    forall p, c ensures ChildOf(a, p, c) <==> ChildOf(l, p, c) || (p == idx && c == child) {
      if 0 <= p < |l.nodes| && p != idx { assert a.nodes[p] == l.nodes[p]; }
    }
    forall i | 0 <= i < |kids| ensures kids[i] < child {
      assert ChildOf(mid, idx, kids[i]);
    }
    forall p | 0 <= p < |a.nodes| ensures Rising(a.nodes[p].children) {
      if p != idx { assert a.nodes[p] == l.nodes[p]; }
    }
  }

  /** Hanging a child's block under idx makes one block of the two. */
  lemma AttachedOk(g: Setting, l: Log, mid: Log, l': Log, idx: int, child: int)
    requires TreeOk(mid) && TreeOk(l') && TruthOk(g, l') && idx != NO_NODE && child != NO_NODE
    requires Grown(l, mid, idx) && Grown(mid, l', child)
    ensures TreeOk(Attached(l', idx, child)) && TruthOk(g, Attached(l', idx, child))
    ensures Grown(l, Attached(l', idx, child), idx)
  {
    hide TruthOk, TreeOk;
    AttachedTree(mid, l', idx, child);
    AttachedTruth(g, l', idx, child);
  }

  lemma AttachedTruth(g: Setting, l: Log, idx: int, child: int)
    requires TruthOk(g, l) && 0 <= idx < |l.nodes| && 0 <= child < |l.parents|
    ensures TruthOk(g, Attached(l, idx, child))
  {
    hide Entails, Defines;
    var a := Attached(l, idx, child);
    forall i | 0 <= i < |a.nodes|
      ensures a.nodes[i].op == a.what[i].op && Defines(g, a.what[i], a.nodes[i].key)
      ensures a.nodes[i].outcome == Allowed ==> Entails(g.w, a.what[i], a.nodes[i].key, g.m, g.m) {
      assert a.nodes[i].outcome == l.nodes[i].outcome && a.nodes[i].key == l.nodes[i].key && a.nodes[i].op == l.nodes[i].op;
    }
  }

  /** Node idx, if there is one, says how its evaluation ended; nothing else changed. */
  ghost predicate OutcomeSet(before: seq<ProofNode>, idx: int, allowed: bool, after: seq<ProofNode>) {
    if idx == NO_NODE then after == before
    else 0 <= idx < |before| && after == before[idx := before[idx].(outcome := OutcomeOf(allowed))]
  }

  /** Where both are recorded, child is listed last under parent; nothing else changed. */
  ghost predicate ChildListed(before: seq<ProofNode>, parent: int, child: int, after: seq<ProofNode>) {
    if parent == NO_NODE || child == NO_NODE then after == before
    else 0 <= parent < |before| && after == before[parent := before[parent].(children := before[parent].children + [child])]
  }

  class Recorder {
    const mode: ProofMode
    var nodes: seq<ProofNode>
    var truncated: bool
    var paused: nat
    ghost var what: seq<Rewrite>
    ghost var parents: seq<int>

    ghost function Value(): Log reads this { Log(mode, nodes, truncated, paused, what, parents) }

    constructor (mode: ProofMode)
      ensures Value() == Log(mode, [], false, 0, [], [])
    {
      this.mode := mode;
      nodes, truncated, paused, what, parents := [], false, 0, [], [];
    }

    predicate Enabled() reads this { mode != ProofNone && paused == 0 }

    /** Nothing is recorded until the matching Resume; pauses nest. */
    method Pause()
      modifies this
      ensures Value() == old(Value()).(paused := old(paused) + 1) && Value().Blocked()
    { paused := paused + 1; }

    method Resume()
      requires paused > 0
      modifies this
      ensures Value() == old(Value()).(paused := old(paused) - 1)
    { paused := paused - 1; }

    method Open(k: Key, op: Op, ghost rw: Rewrite, ghost g: Setting) returns (idx: int)
      requires rw.op == op && Defines(g, rw, k) && TreeOk(Value()) && TruthOk(g, Value())
      modifies this
      ensures Under(g, old(Value()), Value(), idx, rw, k)
      ensures idx != NO_NODE ==> idx == |old(nodes)| && nodes == old(nodes) + [ProofNode(k, op, Incomplete, false, [])]
      ensures idx == NO_NODE ==> nodes == old(nodes)
      ensures idx == NO_NODE <==> old(Value()).Blocked()
      ensures truncated == (old(truncated) || (old(Enabled()) && |old(nodes)| >= MAX_PROOF_NODES))
    {
      if !Enabled() { return NO_NODE; }
      if |nodes| >= MAX_PROOF_NODES {
        truncated := true;
        SameNodes(g, old(Value()), Value());
        return NO_NODE;
      }
      OpenedOk(g, Value(), rw, k);
      nodes, what, parents := nodes + [ProofNode(k, op, Incomplete, false, [])], what + [rw], parents + [NO_NODE];
      return |nodes| - 1;
    }

    method Leaf(k: Key, op: Op, outcome: Outcome, memoized: bool, ghost rw: Rewrite, ghost g: Setting) returns (idx: int)
      requires rw.op == op && Defines(g, rw, k) && TreeOk(Value()) && TruthOk(g, Value())
      requires outcome == Allowed ==> Entails(g.w, rw, k, g.m, g.m)
      modifies this
      ensures Recorded(g, old(Value()), Value(), idx) && Names(Value(), idx, rw, k)
      ensures nodes == if idx == NO_NODE then old(nodes) else old(nodes) + [ProofNode(k, op, outcome, memoized, [])]
      ensures idx != NO_NODE ==> idx == |old(nodes)|
    {
      idx := Open(k, op, rw, g);
      if idx == NO_NODE { return; }
      ClosedOk(g, old(Value()), Value(), idx, outcome, memoized);
      nodes := nodes[idx := nodes[idx].(outcome := outcome, memoized := memoized)];
    }

    method Close(idx: int, allowed: bool, ghost l: Log, ghost rw: Rewrite, ghost k: Key, ghost g: Setting)
      requires Recorded(g, l, Value(), idx) && Names(Value(), idx, rw, k) && (idx == NO_NODE ==> Value().Blocked())
      requires allowed ==> Entails(g.w, rw, k, g.m, g.m)
      modifies this
      ensures Recorded(g, l, Value(), idx) && Told(Value(), idx, rw, k, allowed)
      ensures OutcomeSet(old(nodes), idx, allowed, nodes)
    {
      if idx == NO_NODE { return; }
      ClosedOk(g, l, Value(), idx, OutcomeOf(allowed), nodes[idx].memoized);
      nodes := nodes[idx := nodes[idx].(outcome := OutcomeOf(allowed))];
    }

    method AddChild(parent: int, child: int, ghost l: Log, ghost mid: Log, ghost rw: Rewrite, ghost k: Key, ghost g: Setting)
      requires Under(g, l, mid, parent, rw, k) && Recorded(g, mid, Value(), child)
      modifies this
      ensures Under(g, l, Value(), parent, rw, k)
      ensures ChildListed(old(nodes), parent, child, nodes)
    {
      if parent == NO_NODE || child == NO_NODE {
        if child == NO_NODE { GrownOver(l, mid, Value(), parent, rw, k); }
        return;
      }
      AttachedOk(g, l, mid, Value(), parent, child);
      nodes := nodes[parent := nodes[parent].(children := nodes[parent].children + [child])];
      parents := parents[child := parent];
    }
  }
}
