/** The dependency graph between relations: walking it, and what having no loop through a subtract buys. */
module Graph {
  import opened Refs
  import opened Schema
  import opened Model

  function EdgeSet(edges: seq<Edge>): set<Edge> { set e | e in edges }

  predicate Linked(edges: set<Edge>, a: RelationRef, b: RelationRef) {
    Edge(a, b, false) in edges || Edge(a, b, true) in edges
  }

  ghost predicate IsPath(edges: set<Edge>, p: seq<RelationRef>, a: RelationRef, b: RelationRef) {
    && |p| > 0 && p[0] == a && p[|p| - 1] == b
    && forall i :: 0 <= i < |p| - 1 ==> Linked(edges, p[i], p[i + 1])
  }

  /** b can be reached from a by following edges of either kind, or none. */
  ghost predicate Reach(edges: set<Edge>, a: RelationRef, b: RelationRef) {
    exists p :: IsPath(edges, p, a, b)
  }

  lemma ReachSelf(edges: set<Edge>, a: RelationRef)
    ensures Reach(edges, a, a)
  {
    assert IsPath(edges, [a], a, a);
  }

  lemma ReachTrans(edges: set<Edge>, a: RelationRef, b: RelationRef, c: RelationRef)
    requires Reach(edges, a, b) && Reach(edges, b, c)
    ensures Reach(edges, a, c)
  {
    var p :| IsPath(edges, p, a, b);
    var q :| IsPath(edges, q, b, c);
    assert IsPath(edges, p + q[1..], a, c);
  }

  lemma ReachEdge(edges: set<Edge>, e: Edge)
    requires e in edges
    ensures Reach(edges, e.src, e.dst)
  {
    assert IsPath(edges, [e.src, e.dst], e.src, e.dst);
  }

  /** A set closed under edges holds everything reachable from it. */
  lemma {:induction false} ClosedReach(edges: set<Edge>, s: set<RelationRef>, p: seq<RelationRef>, a: RelationRef, b: RelationRef)
    requires a in s && IsPath(edges, p, a, b)
    requires forall e :: e in edges && e.src in s ==> e.dst in s
    ensures b in s
  {
    if |p| > 1 {
      assert Linked(edges, p[0], p[1]);
      assert forall i :: 0 <= i < |p[1..]| ==> p[1..][i] == p[i + 1];
      assert IsPath(edges, p[1..], p[1], b);
      ClosedReach(edges, s, p[1..], p[1], b);
    }
  }

  // ---- Levels ----

  /** No subtract side reads back to the relation it is subtracted for. */
  ghost predicate Stratified(edges: set<Edge>) {
    forall e :: e in edges && e.negated ==> !Reach(edges, e.dst, e.src)
  }

  /** u can be reached from v by a walk that crosses a negated edge. */
  ghost predicate Crosses(edges: set<Edge>, v: RelationRef, u: RelationRef) {
    exists e :: e in edges && e.negated && Reach(edges, v, e.src) && Reach(edges, e.dst, u)
  }

  ghost function Below(edges: set<Edge>, v: RelationRef): set<RelationRef> {
    set e | e in edges && Crosses(edges, v, e.dst) :: e.dst
  }

  ghost function Level(edges: set<Edge>, v: RelationRef): nat { |Below(edges, v)| }

  ghost function LevelsOf(edges: set<Edge>): Levels { v => Level(edges, v) }

  lemma LevelEdge(edges: set<Edge>, e: Edge)
    requires Stratified(edges) && e in edges
    ensures NoHigher(LevelsOf(edges), e.src, e.dst, e.negated)
  {
    var low, high := Below(edges, e.dst), Below(edges, e.src);
    forall u | u in low ensures u in high {
      var f :| f in edges && f.negated && Reach(edges, e.dst, f.src) && Reach(edges, f.dst, u);
      ReachEdge(edges, e);
      ReachTrans(edges, e.src, e.dst, f.src);
      assert Crosses(edges, e.src, u);
    }
    if e.negated {
      ReachSelf(edges, e.src);
      ReachSelf(edges, e.dst);
      assert Crosses(edges, e.src, e.dst);
      if e.dst in low {
        var f :| f in edges && f.negated && Reach(edges, e.dst, f.src) && Reach(edges, f.dst, e.dst);
        ReachTrans(edges, f.dst, e.dst, f.src);
        assert false;
      }
    }
    SubsetSize(low, high);
  }

  lemma {:induction false} LevelsFall(edges: set<Edge>, lv: Levels, p: seq<RelationRef>, a: RelationRef, b: RelationRef)
    requires Leveled(edges, lv) && IsPath(edges, p, a, b)
    ensures lv(a) >= lv(b)
  {
    if |p| > 1 {
      assert Linked(edges, p[0], p[1]);
      var e :| e in {Edge(p[0], p[1], false), Edge(p[0], p[1], true)} && e in edges;
      assert NoHigher(lv, e.src, e.dst, e.negated);
      assert forall i :: 0 <= i < |p[1..]| ==> p[1..][i] == p[i + 1];
      assert IsPath(edges, p[1..], p[1], b);
      LevelsFall(edges, lv, p[1..], p[1], b);
    }
  }

  /** A set of dependencies can be levelled exactly when no loop passes through a subtract. */
  lemma StratifiedIffLevels(edges: set<Edge>)
    ensures Stratified(edges) <==> exists lv :: Leveled(edges, lv)
  {
    if Stratified(edges) {
      forall e | e in edges ensures NoHigher(LevelsOf(edges), e.src, e.dst, e.negated) { LevelEdge(edges, e); }
      assert Leveled(edges, LevelsOf(edges));
    }
    if exists lv :: Leveled(edges, lv) {
      var lv :| Leveled(edges, lv);
      forall e | e in edges && e.negated ensures !Reach(edges, e.dst, e.src) {
        assert NoHigher(lv, e.src, e.dst, true);
        if Reach(edges, e.dst, e.src) {
          var p :| IsPath(edges, p, e.dst, e.src);
          LevelsFall(edges, lv, p, e.dst, e.src);
        }
      }
    }
  }

  // ---- The walks ----

  ghost function Nodes(edges: seq<Edge>): set<RelationRef> { set e | e in edges :: e.dst }

  /** Everything seen and no longer queued has had its successors seen. */
  ghost predicate Explored(edges: seq<Edge>, seen: set<RelationRef>, queue: seq<RelationRef>) {
    && (forall v :: v in queue ==> v in seen)
    && forall e :: e in edges && e.src in seen && e.src !in queue ==> e.dst in seen
  }

  /** Takes the first relation off the queue, and marks and queues its unseen successors. */
  method Visit(edges: seq<Edge>, seen0: set<RelationRef>, queue0: seq<RelationRef>)
    returns (seen: set<RelationRef>, queue: seq<RelationRef>)
    requires |queue0| > 0 && Explored(edges, seen0, queue0)
    ensures seen == seen0 + (set e | e in edges && e.src == queue0[0] :: e.dst)
    ensures Explored(edges, seen, queue)
    ensures forall v :: v in queue0 && v != queue0[0] ==> v in queue
    ensures forall v :: v in seen - seen0 ==> v in queue
    ensures if seen == seen0 then |queue| < |queue0| else |Nodes(edges) - seen| < |Nodes(edges) - seen0|
  {
    var cur := queue0[0];
    assert queue0 == [cur] + queue0[1..];
    seen, queue := seen0, queue0[1..];
    for i := 0 to |edges|
      invariant seen == seen0 + (set e | e in edges[..i] && e.src == cur :: e.dst)
      invariant forall v :: v in queue <==> v in queue0[1..] || v in seen - seen0
      invariant seen == seen0 ==> queue == queue0[1..]
    {
      var e := edges[i];
      assert edges[..i + 1] == edges[..i] + [e];
      if e.src == cur && e.dst !in seen {
        seen, queue := seen + {e.dst}, queue + [e.dst];
      }
    }
    assert edges[..|edges|] == edges;
    if seen != seen0 {
      var v :| v in seen - seen0;
      assert v in Nodes(edges) - seen0;
      SubsetSize(Nodes(edges) - seen, Nodes(edges) - seen0);
    }
  }

  /** Decides whether a path leads from start to the relation sought. */
  method Reaches(edges: seq<Edge>, start: RelationRef, to: RelationRef) returns (found: bool)
    ensures found <==> Reach(EdgeSet(edges), start, to)
  {
    ghost var es := EdgeSet(edges);
    var seen, queue := {start}, [start];
    ReachSelf(es, start);
    while |queue| > 0
      invariant start in seen && Explored(edges, seen, queue)
      invariant forall v :: v in seen ==> Reach(es, start, v)
      invariant to in seen ==> to in queue
      decreases |Nodes(edges) - seen|, |queue|
    {
      var cur := queue[0];
      if cur == to { return true; }
      ghost var before := seen;
      seen, queue := Visit(edges, seen, queue);
      forall v | v in seen ensures Reach(es, start, v) {
        if v !in before {
          var e :| e in edges && e.src == cur && e.dst == v;
          ReachEdge(es, e);
          ReachTrans(es, start, cur, v);
        }
      }
    }
    if Reach(es, start, to) {
      var p :| IsPath(es, p, start, to);
      ClosedReach(es, seen, p, start, to);
    }
    return false;
  }

  /** Everything a subtract side reads, directly or not. */
  ghost predicate Subtracted(edges: set<Edge>, v: RelationRef) {
    exists e :: e in edges && e.negated && Reach(edges, e.dst, v)
  }

  ghost predicate ReachFrom(edges: set<Edge>, from: set<RelationRef>, v: RelationRef) {
    exists u :: u in from && Reach(edges, u, v)
  }

  lemma ReachFromStep(edges: set<Edge>, from: set<RelationRef>, e: Edge)
    requires ReachFrom(edges, from, e.src) && e in edges
    ensures ReachFrom(edges, from, e.dst)
  {
    var u :| u in from && Reach(edges, u, e.src);
    ReachEdge(edges, e);
    ReachTrans(edges, u, e.src, e.dst);
  }

  lemma ReachFromAll(edges: seq<Edge>, from: set<RelationRef>, seen: set<RelationRef>, cur: RelationRef)
    requires forall v :: v in seen ==> ReachFrom(EdgeSet(edges), from, v)
    requires cur in seen
    ensures forall v :: v in seen + (set e | e in edges && e.src == cur :: e.dst) ==> ReachFrom(EdgeSet(edges), from, v)
  {
    forall e | e in edges && e.src == cur ensures ReachFrom(EdgeSet(edges), from, e.dst) {
      ReachFromStep(EdgeSet(edges), from, e);
    }
  }

  lemma StartsReached(edges: set<Edge>, from: set<RelationRef>)
    ensures forall v :: v in from ==> ReachFrom(edges, from, v)
  {
    forall v | v in from ensures ReachFrom(edges, from, v) { ReachSelf(edges, v); }
  }

  lemma ReachedWithin(edges: seq<Edge>, from: set<RelationRef>, seen: set<RelationRef>)
    requires from <= seen && Explored(edges, seen, [])
    ensures forall v :: ReachFrom(EdgeSet(edges), from, v) ==> v in seen
  {
    forall v | ReachFrom(EdgeSet(edges), from, v) ensures v in seen {
      var u :| u in from && Reach(EdgeSet(edges), u, v);
      var p :| IsPath(EdgeSet(edges), p, u, v);
      ClosedReach(EdgeSet(edges), seen, p, u, v);
    }
  }

  /** Everything reachable from the queued relations. */
  method Close(edges: seq<Edge>, start: seq<RelationRef>) returns (seen: set<RelationRef>)
    ensures forall v :: v in seen <==> ReachFrom(EdgeSet(edges), (set u | u in start), v)
  {
    ghost var es, from := EdgeSet(edges), set u | u in start;
    var queue := start;
    seen := set u | u in start;
    StartsReached(es, from);
    hide ReachFrom, Nodes, EdgeSet;
    while |queue| > 0
      invariant Explored(edges, seen, queue) && from <= seen
      invariant forall v :: v in seen ==> ReachFrom(es, from, v)
      decreases |Nodes(edges) - seen|, |queue|
    {
      var cur := queue[0];
      ghost var before := seen;
      seen, queue := Visit(edges, seen, queue);
      ReachFromAll(edges, from, before, cur);
    }
    ReachedWithin(edges, from, seen);
  }

  /** The union of what the negated edges' targets reach. */
  method ExclusionReachable(edges: seq<Edge>) returns (seen: set<RelationRef>)
    ensures forall v :: v in seen <==> Subtracted(EdgeSet(edges), v)
  {
    ghost var es := EdgeSet(edges);
    var queue: seq<RelationRef> := [];
    for i := 0 to |edges|
      invariant forall v :: v in queue <==> exists e :: e in edges[..i] && e.negated && e.dst == v
    {
      var e := edges[i];
      assert edges[..i + 1] == edges[..i] + [e];
      if e.negated && e.dst !in queue {
        queue := queue + [e.dst];
      }
    }
    assert edges[..|edges|] == edges;
    seen := Close(edges, queue);
    forall v ensures ReachFrom(es, (set u | u in queue), v) <==> Subtracted(es, v) {
      if ReachFrom(es, (set u | u in queue), v) {
        var u :| u in queue && Reach(es, u, v);
      }
      if Subtracted(es, v) {
        var e :| e in es && e.negated && Reach(es, e.dst, v);
        assert e.dst in queue;
      }
    }
  }

  /** Whether no exclusion subtracts something that reads back to it: true where the checker reports nothing. */
  method CheckStratified(edges: seq<Edge>) returns (ok: bool)
    ensures ok <==> Stratified(EdgeSet(edges))
  {
    ok := true;
    for i := 0 to |edges|
      invariant ok <==> forall e :: e in edges[..i] && e.negated ==> !Reach(EdgeSet(edges), e.dst, e.src)
    {
      assert edges[..i + 1] == edges[..i] + [edges[i]];
      if edges[i].negated {
        var back := Reaches(edges, edges[i].dst, edges[i].src);
        if back { ok := false; }
      }
    }
    assert edges[..|edges|] == edges;
  }
}
