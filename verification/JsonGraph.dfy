/**
 The admission walk over a graph of mutable Python objects. Objects are named by
 references (Python's `id`), so a value may be shared or lie on a cycle.
 */
module JsonGraph {
  import opened Wrappers
  import opened Json

  type Ref = nat

  datatype Value =
    | VNull
    | VBool(b: bool)
    | VInt(i: int)
    | VStr(s: string)
    | VFloat(x: Option<real>) // None: an infinity or NaN
    | VRef(r: Ref)
    | VOther // neither a scalar nor a list nor a dict

  datatype Key = StrKey(s: string) | OtherKey

  datatype Object = ListObject(items: seq<Value>) | DictObject(entries: seq<(Key, Value)>)

  type Heap = Ref -> Object

  datatype Refusal = TooManyNodes | TooDeep | NotFinite | Cyclic | KeyNotString | NotJson

  /** One step from a container to a child; `keyOk` is true for every list item. */
  datatype Edge = Edge(keyOk: bool, child: Value)

  function Edges(o: Object): seq<Edge> {
    match o
    case ListObject(items) => seq(|items|, i requires 0 <= i < |items| => Edge(true, items[i]))
    case DictObject(entries) =>
      seq(|entries|, i requires 0 <= i < |entries| => Edge(entries[i].0.StrKey?, entries[i].1))
  }

  datatype Walk = Walk(nodes: nat, refusal: Option<Refusal>)

  /** The walk as a function of the path set `seen` and the node counter. */
  function VisitValue(heap: Heap, v: Value, depth: nat, seen: set<Ref>, nodes: nat): Walk
    requires depth <= MAX_JSON_DEPTH + 1
    decreases MAX_JSON_DEPTH + 1 - depth, 1, 0
  {
    var n := nodes + 1;
    if n > MAX_JSON_NODES then Walk(n, Some(TooManyNodes))
    else if depth > MAX_JSON_DEPTH then Walk(n, Some(TooDeep))
    else match v
      case VFloat(None) => Walk(n, Some(NotFinite))
      case VOther => Walk(n, Some(NotJson))
      case VRef(r) =>
        if r in seen then Walk(n, Some(Cyclic))
        else VisitEdges(heap, Edges(heap(r)), depth + 1, seen + {r}, n)
      case _ => Walk(n, None)
  }

  function VisitEdges(heap: Heap, es: seq<Edge>, depth: nat, seen: set<Ref>, nodes: nat): Walk
    requires depth <= MAX_JSON_DEPTH + 1
    decreases MAX_JSON_DEPTH + 1 - depth, 2, |es|
  {
    if es == [] then Walk(nodes, None)
    else if !es[0].keyOk then Walk(nodes, Some(KeyNotString))
    else
      var w := VisitValue(heap, es[0].child, depth, seen, nodes);
      if w.refusal.Some? then w else VisitEdges(heap, es[1..], depth, seen, w.nodes)
  }

  /** The walker itself: a node counter and the set of references on the current path. */
  class JsonWalker {
    var nodes: nat
    var seen: set<Ref>

    constructor ()
      ensures nodes == 0 && seen == {}
    {
      nodes, seen := 0, {};
    }

    method Visit(heap: Heap, item: Value, depth: nat) returns (refusal: Option<Refusal>)
      requires depth <= MAX_JSON_DEPTH + 1
      modifies this
      ensures Walk(nodes, refusal) == VisitValue(heap, item, depth, old(seen), old(nodes))
      ensures seen == old(seen) // restored on every exit
      decreases MAX_JSON_DEPTH + 1 - depth, 0
    {
      nodes := nodes + 1;
      if nodes > MAX_JSON_NODES { return Some(TooManyNodes); }
      if depth > MAX_JSON_DEPTH { return Some(TooDeep); }
      if item == VFloat(None) { return Some(NotFinite); }
      if item.VOther? { return Some(NotJson); }
      refusal := None;
      if item.VRef? {
        if item.r in seen { return Some(Cyclic); }
        seen := seen + {item.r};
        refusal := VisitChildren(heap, Edges(heap(item.r)), depth + 1);
        seen := seen - {item.r};
      }
    }

    /** The loop over the children of a container, up to the first refusal. */
    method VisitChildren(heap: Heap, edges: seq<Edge>, depth: nat) returns (refusal: Option<Refusal>)
      requires 0 < depth <= MAX_JSON_DEPTH + 1
      modifies this
      ensures Walk(nodes, refusal) == VisitEdges(heap, edges, depth, old(seen), old(nodes))
      ensures seen == old(seen)
      decreases MAX_JSON_DEPTH + 1 - depth, 1
    {
      refusal := None;
      var i := 0;
      while i < |edges|
        invariant 0 <= i <= |edges| && seen == old(seen) && refusal.None?
        invariant VisitEdges(heap, edges[i..], depth, seen, nodes)
               == VisitEdges(heap, edges, depth, old(seen), old(nodes))
      {
        if !edges[i].keyOk { return Some(KeyNotString); }
        refusal := Visit(heap, edges[i].child, depth);
        if refusal.Some? { return; }
        assert edges[i..][1..] == edges[i + 1..];
        i := i + 1;
      }
    }
  }

  method EnsureJsonCompatible(heap: Heap, value: Value) returns (refusal: Option<Refusal>)
    ensures refusal == Admission(heap, value)
  {
    var walker := new JsonWalker();
    refusal := walker.Visit(heap, value, 0);
  }

  function Admission(heap: Heap, value: Value): Option<Refusal> {
    VisitValue(heap, value, 0, {}, 0).refusal
  }

  // ---- What the walk decides -------------------------------------------------

  predicate Leaf(v: Value) {
    !v.VRef? && !v.VOther? && v != VFloat(None)
  }

  /** The unfolding of v is a tree of height at most h, with JSON leaves and string keys. */
  predicate Unfolds(heap: Heap, v: Value, h: nat)
    decreases h
  {
    Leaf(v) || (v.VRef? && forall e | e in Edges(heap(v.r)) :: e.keyOk && h > 0 && Unfolds(heap, e.child, h - 1))
  }

  function KeyText(k: Key): string {
    if k.StrKey? then k.s else ""
  }

  /** `_deep_freeze`: the immutable tree that a finite unfolding stands for. */
  function Freeze(heap: Heap, v: Value, h: nat): Json
    requires Unfolds(heap, v, h)
    decreases h, 1
  {
    match v
    case VNull => Null
    case VBool(b) => Bool(b)
    case VInt(i) => Int(i)
    case VStr(s) => Str(s)
    case VFloat(Some(x)) => Float(x)
    case VRef(r) =>
      (match heap(r)
       case ListObject(_) => List(FreezeAll(heap, Edges(heap(r)), h))
       case DictObject(entries) =>
         Dict(seq(|entries|, i requires 0 <= i < |entries| => KeyText(entries[i].0)),
              FreezeAll(heap, Edges(heap(r)), h)))
  }

  predicate AllUnfold(heap: Heap, es: seq<Edge>, h: nat) {
    forall e | e in es :: e.keyOk && h > 0 && Unfolds(heap, e.child, h - 1)
  }

  function FreezeAll(heap: Heap, es: seq<Edge>, h: nat): (items: seq<Json>)
    requires AllUnfold(heap, es, h)
    ensures |items| == |es|
    decreases h, 0, |es|
  {
    if es == [] then [] else [Freeze(heap, es[0].child, h - 1)] + FreezeAll(heap, es[1..], h)
  }

  lemma FreezeContainer(heap: Heap, v: Value, h: nat)
    requires v.VRef? && Unfolds(heap, v, h)
    ensures
      var items := FreezeAll(heap, Edges(heap(v.r)), h);
      Nodes(Freeze(heap, v, h)) == 1 + NodesAll(items) && Height(Freeze(heap, v, h)) == HeightAll(items)
  {
  }

  lemma {:induction false} FreezeHeight(heap: Heap, v: Value, h: nat)
    requires Unfolds(heap, v, h)
    ensures Height(Freeze(heap, v, h)) <= h
    decreases h, 1
  {
    if v.VRef? { FreezeHeightAll(heap, Edges(heap(v.r)), h); }
  }

  lemma {:induction false} FreezeHeightAll(heap: Heap, es: seq<Edge>, h: nat)
    requires AllUnfold(heap, es, h)
    ensures HeightAll(FreezeAll(heap, es, h)) <= h
    decreases h, 0, |es|
  {
    if es != [] {
      FreezeHeight(heap, es[0].child, h - 1);
      FreezeHeightAll(heap, es[1..], h);
    }
  }

  /** The frozen tree does not depend on the bound, which may shrink to its height. */
  lemma {:induction false} FreezeStable(heap: Heap, v: Value, h: nat, g: nat)
    requires Unfolds(heap, v, h) && Height(Freeze(heap, v, h)) <= g
    ensures Unfolds(heap, v, g) && Freeze(heap, v, g) == Freeze(heap, v, h)
    decreases h, 1
  {
    if v.VRef? { FreezeStableAll(heap, Edges(heap(v.r)), h, g); }
  }

  lemma {:induction false} FreezeStableAll(heap: Heap, es: seq<Edge>, h: nat, g: nat)
    requires AllUnfold(heap, es, h) && HeightAll(FreezeAll(heap, es, h)) <= g
    ensures AllUnfold(heap, es, g) && FreezeAll(heap, es, g) == FreezeAll(heap, es, h)
    decreases h, 0, |es|
  {
    if es != [] {
      FreezeStable(heap, es[0].child, h - 1, g - 1);
      FreezeStableAll(heap, es[1..], h, g);
    }
  }

  lemma {:induction false} AdmittedUnfolds(heap: Heap, v: Value, depth: nat, seen: set<Ref>, nodes: nat)
    requires depth <= MAX_JSON_DEPTH + 1
    requires VisitValue(heap, v, depth, seen, nodes).refusal.None?
    ensures depth <= MAX_JSON_DEPTH && Unfolds(heap, v, MAX_JSON_DEPTH - depth)
    decreases MAX_JSON_DEPTH + 1 - depth, 1, 0
  {
    if v.VRef? {
      AdmittedUnfoldAll(heap, Edges(heap(v.r)), depth + 1, seen + {v.r}, nodes + 1);
    }
  }

  lemma {:induction false} AdmittedUnfoldAll(heap: Heap, es: seq<Edge>, depth: nat, seen: set<Ref>, nodes: nat)
    requires 0 < depth <= MAX_JSON_DEPTH + 1
    requires VisitEdges(heap, es, depth, seen, nodes).refusal.None?
    ensures AllUnfold(heap, es, MAX_JSON_DEPTH + 1 - depth)
    decreases MAX_JSON_DEPTH + 1 - depth, 2, |es|
  {
    if es != [] {
      AdmittedUnfolds(heap, es[0].child, depth, seen, nodes);
      AdmittedUnfoldAll(heap, es[1..], depth, seen, VisitValue(heap, es[0].child, depth, seen, nodes).nodes);
    }
  }

  /** Two bounds within which v unfolds give one tree. */
  lemma FreezeUnique(heap: Heap, v: Value, g: nat, h: nat)
    requires Unfolds(heap, v, g) && Unfolds(heap, v, h)
    ensures Freeze(heap, v, g) == Freeze(heap, v, h)
  {
    var top := if g > h then g else h;
    FreezeHeight(heap, v, g);
    FreezeHeight(heap, v, h);
    FreezeStable(heap, v, g, top);
    FreezeStable(heap, v, h, top);
  }

  ghost predicate Higher(heap: Heap, v: Value, h: int) {
    exists g: nat :: Unfolds(heap, v, g) && Height(Freeze(heap, v, g)) > h
  }

  /** Every reference on the path unfolds to a tree strictly higher than h. */
  ghost predicate Above(heap: Heap, seen: set<Ref>, h: int) {
    forall r | r in seen :: Higher(heap, VRef(r), h)
  }

  /** The walk ends at this count, or fails by passing the limit on the way to it. */
  predicate Counted(w: Walk, total: nat) {
    if total <= MAX_JSON_NODES then w == Walk(total, None) else w.refusal == Some(TooManyNodes)
  }

  /** Visiting a container that is not on the path. */
  lemma VisitContainer(heap: Heap, v: Value, depth: nat, seen: set<Ref>, nodes: nat)
    requires v.VRef? && v.r !in seen && depth <= MAX_JSON_DEPTH
    ensures VisitValue(heap, v, depth, seen, nodes) ==
            if nodes + 1 > MAX_JSON_NODES then Walk(nodes + 1, Some(TooManyNodes))
            else VisitEdges(heap, Edges(heap(v.r)), depth + 1, seen + {v.r}, nodes + 1)
  {
  }

  lemma VisitLeaf(heap: Heap, v: Value, depth: nat, seen: set<Ref>, nodes: nat)
    requires Leaf(v) && depth <= MAX_JSON_DEPTH
    ensures Counted(VisitValue(heap, v, depth, seen, nodes), nodes + 1)
  {
  }

  /**
   On a finite unfolding within the depth limit the walk meets no cycle and fails
   only by counting past the node limit.
   */
  lemma {:induction false} WalkCounts(heap: Heap, v: Value, h: nat, depth: nat, seen: set<Ref>, nodes: nat)
    requires depth + h == MAX_JSON_DEPTH && Unfolds(heap, v, h)
    requires Above(heap, seen, Height(Freeze(heap, v, h)))
    ensures Counted(VisitValue(heap, v, depth, seen, nodes), nodes + Nodes(Freeze(heap, v, h)))
    decreases h, 1
  {
    if v.VRef? {
      AboveGrows(heap, seen, v, h);
      FreezeContainer(heap, v, h);
      VisitContainer(heap, v, depth, seen, nodes);
      if nodes + 1 <= MAX_JSON_NODES {
        WalkCountsAll(heap, Edges(heap(v.r)), h, depth + 1, seen + {v.r}, nodes + 1);
      }
    } else {
      FreezeLeaf(heap, v, h);
      VisitLeaf(heap, v, depth, seen, nodes);
    }
  }

  lemma FreezeLeaf(heap: Heap, v: Value, h: nat)
    requires Leaf(v)
    ensures Nodes(Freeze(heap, v, h)) == 1
  {
  }

  lemma AboveGrows(heap: Heap, seen: set<Ref>, v: Value, h: nat)
    requires v.VRef? && Unfolds(heap, v, h) && Above(heap, seen, Height(Freeze(heap, v, h)))
    ensures v.r !in seen && Above(heap, seen + {v.r}, Height(Freeze(heap, v, h)) - 1)
  {
    if v.r in seen {
      assert Higher(heap, v, Height(Freeze(heap, v, h)));
      var g: nat :| Unfolds(heap, v, g) && Height(Freeze(heap, v, g)) > Height(Freeze(heap, v, h));
      FreezeUnique(heap, v, g, h);
      assert false;
    }
    AboveLess(heap, seen, Height(Freeze(heap, v, h)), Height(Freeze(heap, v, h)) - 1);
  }

  lemma AboveLess(heap: Heap, seen: set<Ref>, h: int, g: int)
    requires Above(heap, seen, h) && g <= h
    ensures Above(heap, seen, g)
  {
    forall r | r in seen
      ensures Higher(heap, VRef(r), g)
    {
      assert Higher(heap, VRef(r), h);
    }
  }

  lemma VisitNext(heap: Heap, es: seq<Edge>, depth: nat, seen: set<Ref>, nodes: nat, first: nat, total: nat)
    requires es != [] && es[0].keyOk && depth <= MAX_JSON_DEPTH + 1 && first <= total
    requires Counted(VisitValue(heap, es[0].child, depth, seen, nodes), first)
    requires first <= MAX_JSON_NODES ==> Counted(VisitEdges(heap, es[1..], depth, seen, first), total)
    ensures Counted(VisitEdges(heap, es, depth, seen, nodes), total)
  {
  }

  lemma {:induction false} WalkCountsAll(
    heap: Heap, es: seq<Edge>, h: nat, depth: nat, seen: set<Ref>, nodes: nat)
    requires depth + h == MAX_JSON_DEPTH + 1 && depth > 0 && AllUnfold(heap, es, h)
    requires nodes <= MAX_JSON_NODES
    requires Above(heap, seen, HeightAll(FreezeAll(heap, es, h)) - 1)
    ensures Counted(VisitEdges(heap, es, depth, seen, nodes), nodes + NodesAll(FreezeAll(heap, es, h)))
    decreases h, 0, |es|
  {
    if es != [] {
      var tree, rest := Freeze(heap, es[0].child, h - 1), FreezeAll(heap, es[1..], h);
      var top := HeightAll(FreezeAll(heap, es, h)) - 1;
      AboveLess(heap, seen, top, Height(tree));
      AboveLess(heap, seen, top, HeightAll(rest) - 1);
      WalkCounts(heap, es[0].child, h - 1, depth, seen, nodes);
      var first := nodes + Nodes(tree);
      if first <= MAX_JSON_NODES { WalkCountsAll(heap, es[1..], h, depth, seen, first); }
      VisitNext(heap, es, depth, seen, nodes, first, first + NodesAll(rest));
    }
  }

  /** A tree within the limits is admitted whole. */
  lemma UnfoldingAdmitted(heap: Heap, v: Value, h: nat)
    requires Unfolds(heap, v, h) && Admissible(Freeze(heap, v, h))
    ensures Admission(heap, v).None?
  {
    FreezeStable(heap, v, h, MAX_JSON_DEPTH);
    WalkCounts(heap, v, MAX_JSON_DEPTH, 0, {}, 0);
  }

  lemma AdmittedUnfolding(heap: Heap, v: Value)
    requires Admission(heap, v).None?
    ensures Unfolds(heap, v, MAX_JSON_DEPTH) && Admissible(Freeze(heap, v, MAX_JSON_DEPTH))
  {
    AdmittedUnfolds(heap, v, 0, {}, 0);
    FreezeHeight(heap, v, MAX_JSON_DEPTH);
    WalkCounts(heap, v, MAX_JSON_DEPTH, 0, {}, 0);
  }

  /**
   Admission is exact: a value is admitted if and only if it unfolds to a finite tree
   (no cycle, JSON leaves, string keys) that is within the depth and node limits,
   nodes being counted with repetition.
   */
  lemma AdmissionIsExact(heap: Heap, v: Value)
    ensures Admission(heap, v).None? <==> exists h: nat :: Unfolds(heap, v, h) && Admissible(Freeze(heap, v, h))
  {
    if Admission(heap, v).None? {
      AdmittedUnfolding(heap, v);
      var h := MAX_JSON_DEPTH;
      assert Unfolds(heap, v, h) && Admissible(Freeze(heap, v, h));
    }
    if h: nat :| Unfolds(heap, v, h) && Admissible(Freeze(heap, v, h)) { UnfoldingAdmitted(heap, v, h); }
  }

  // ---- The same, said by paths from the root -----------------------------------

  /** The value reached from v by taking the edges at these positions, if they exist. */
  function Follow(heap: Heap, v: Value, path: seq<nat>): Option<Value>
    decreases |path|
  {
    if path == [] then Some(v)
    else if v.VRef? && path[0] < |Edges(heap(v.r))| then Follow(heap, Edges(heap(v.r))[path[0]].child, path[1..])
    else None
  }

  /** v is a JSON leaf, or a container all of whose keys are strings. */
  predicate Sound(heap: Heap, v: Value) {
    Leaf(v) || (v.VRef? && forall e | e in Edges(heap(v.r)) :: e.keyOk)
  }

  ghost predicate BoundedBy(heap: Heap, v: Value, h: nat) {
    forall p: seq<nat> | Follow(heap, v, p).Some? :: |p| <= h && Sound(heap, Follow(heap, v, p).value)
  }

  lemma {:induction false} UnfoldsByPaths(heap: Heap, v: Value, h: nat)
    ensures Unfolds(heap, v, h) <==> BoundedBy(heap, v, h)
    decreases h
  {
    if Unfolds(heap, v, h) {
      forall p: seq<nat> | Follow(heap, v, p).Some?
        ensures |p| <= h && Sound(heap, Follow(heap, v, p).value)
      {
        if p != [] {
          var e := Edges(heap(v.r))[p[0]];
          UnfoldsByPaths(heap, e.child, h - 1);
          assert Follow(heap, e.child, p[1..]).Some?;
        }
      }
    }
    if BoundedBy(heap, v, h) {
      assert Follow(heap, v, []).Some?;
      if v.VRef? {
        forall e | e in Edges(heap(v.r))
          ensures h > 0 && Unfolds(heap, e.child, h - 1)
        {
          var i :| 0 <= i < |Edges(heap(v.r))| && Edges(heap(v.r))[i] == e;
          assert Follow(heap, v, [i]) == Some(e.child) by { assert [i][1..] == []; }
          forall p: seq<nat> | Follow(heap, e.child, p).Some?
            ensures |p| <= h - 1 && Sound(heap, Follow(heap, e.child, p).value)
          {
            assert ([i] + p)[1..] == p;
            assert Follow(heap, v, [i] + p) == Follow(heap, e.child, p);
          }
          UnfoldsByPaths(heap, e.child, h - 1);
        }
      }
    }
  }

  lemma {:induction false} FollowAppend(heap: Heap, v: Value, p: seq<nat>, q: seq<nat>)
    requires Follow(heap, v, p).Some?
    ensures Follow(heap, v, p + q) == Follow(heap, Follow(heap, v, p).value, q)
    decreases |p|
  {
    if p == [] {
      assert p + q == q;
    } else {
      var child := Edges(heap(v.r))[p[0]].child;
      assert (p + q)[0] == p[0] && (p + q)[1..] == p[1..] + q;
      assert Follow(heap, v, p + q) == Follow(heap, child, p[1..] + q);
      FollowAppend(heap, child, p[1..], q);
    }
  }

  /** A way round a cycle k times. */
  function Laps(loop: seq<nat>, k: nat): seq<nat> {
    if k == 0 then [] else loop + Laps(loop, k - 1)
  }

  lemma {:induction false} LapsReturn(heap: Heap, v: Value, loop: seq<nat>, k: nat)
    requires Follow(heap, v, loop) == Some(v) && loop != []
    ensures Follow(heap, v, Laps(loop, k)) == Some(v) && |Laps(loop, k)| >= k
  {
    if k > 0 {
      LapsReturn(heap, v, loop, k - 1);
      FollowAppend(heap, v, loop, Laps(loop, k - 1));
    }
  }

  /** A path that returns to where it was can be made as long as one likes. */
  lemma LongPath(heap: Heap, v: Value, p: seq<nat>, loop: seq<nat>, h: nat) returns (q: seq<nat>)
    requires Follow(heap, v, p).Some? && loop != [] && Follow(heap, v, p + loop) == Follow(heap, v, p)
    ensures |q| > h && Follow(heap, v, q).Some?
  {
    var u := Follow(heap, v, p).value;
    var around := Laps(loop, h + 1);
    FollowAppend(heap, v, p, loop);
    LapsReturn(heap, u, loop, h + 1);
    FollowAppend(heap, v, p, around);
    q := p + around;
  }

  /** No admitted value has a container below itself, however it is reached. */
  lemma AdmittedIsAcyclic(heap: Heap, v: Value, p: seq<nat>, loop: seq<nat>)
    requires Admission(heap, v).None?
    requires Follow(heap, v, p).Some? && loop != []
    ensures Follow(heap, v, p + loop) != Follow(heap, v, p)
  {
    AdmittedUnfolds(heap, v, 0, {}, 0);
    UnfoldsByPaths(heap, v, MAX_JSON_DEPTH);
    if Follow(heap, v, p + loop) == Follow(heap, v, p) {
      var q := LongPath(heap, v, p, loop, MAX_JSON_DEPTH);
    }
  }

  /** Admission said by paths: every path is short and ends in a sound value, and there are few nodes. */
  lemma AdmissionByPaths(heap: Heap, v: Value)
    ensures Admission(heap, v).None? <==>
            BoundedBy(heap, v, MAX_JSON_DEPTH) &&
            (UnfoldsByPaths(heap, v, MAX_JSON_DEPTH); Nodes(Freeze(heap, v, MAX_JSON_DEPTH)) <= MAX_JSON_NODES)
  {
    AdmissionIsExact(heap, v);
    UnfoldsByPaths(heap, v, MAX_JSON_DEPTH);
    if h: nat :| Unfolds(heap, v, h) && Admissible(Freeze(heap, v, h)) {
      FreezeStable(heap, v, h, MAX_JSON_DEPTH);
    }
    if Unfolds(heap, v, MAX_JSON_DEPTH) {
      FreezeHeight(heap, v, MAX_JSON_DEPTH);
    }
  }
}
