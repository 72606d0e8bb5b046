/** What admission refuses and what freezing keeps, said of the objects and positions of the graph itself. */
module JsonMeaning {
  import opened Wrappers
  import opened Json
  import opened JsonGraph

  // ---- Positions in the graph and in the tree ------------------------------------------------

  /** The item or entry at this position of a container. */
  function ChildAt(o: Object, i: nat): Option<Value> {
    match o
    case ListObject(items) => if i < |items| then Some(items[i]) else None
    case DictObject(entries) => if i < |entries| then Some(entries[i].1) else None
  }

  /** The value that these positions lead to. */
  function ValueAt(heap: Heap, v: Value, path: seq<nat>): Option<Value>
    decreases |path|
  {
    if path == [] then Some(v)
    else if v.VRef? && ChildAt(heap(v.r), path[0]).Some?
    then ValueAt(heap, ChildAt(heap(v.r), path[0]).value, path[1..])
    else None
  }

  /** The node of a tree that these positions lead to. */
  function NodeAt(j: Json, path: seq<nat>): Option<Json>
    decreases |path|
  {
    if path == [] then Some(j)
    else if (j.List? || j.Dict?) && path[0] < |j.items| then NodeAt(j.items[path[0]], path[1..])
    else None
  }

  /** The node says what the value is: the same scalar, or a container of the same size with the same keys. */
  predicate Mirrors(heap: Heap, v: Value, j: Json) {
    match v
    case VNull => j == Null
    case VBool(b) => j == Bool(b)
    case VInt(i) => j == Int(i)
    case VStr(s) => j == Str(s)
    case VFloat(x) => x.Some? && j == Float(x.value)
    case VOther => false
    case VRef(r) => MirrorsObject(heap(r), j)
  }

  predicate MirrorsObject(o: Object, j: Json) {
    match o
    case ListObject(items) => j.List? && |j.items| == |items|
    case DictObject(entries) =>
      && j.Dict? && |j.items| == |j.keys| == |entries|
      && forall i :: 0 <= i < |entries| ==> entries[i].0 == StrKey(j.keys[i])
  }

  // ---- Freezing ---------------------------------------------------------------------------------

  lemma EdgesAre(o: Object, i: nat)
    ensures ChildAt(o, i) == if i < |Edges(o)| then Some(Edges(o)[i].child) else None
  {
  }

  lemma {:induction false} FreezeAllAt(heap: Heap, es: seq<Edge>, h: nat, i: nat)
    requires AllUnfold(heap, es, h) && i < |es|
    ensures h > 0 && Unfolds(heap, es[i].child, h - 1)
    ensures FreezeAll(heap, es, h)[i] == Freeze(heap, es[i].child, h - 1)
    decreases |es|
  {
    assert es[i] in es;
    if i > 0 { FreezeAllAt(heap, es[1..], h, i - 1); }
  }

  lemma FreezeMirrorsRoot(heap: Heap, v: Value, h: nat)
    requires Unfolds(heap, v, h)
    ensures Mirrors(heap, v, Freeze(heap, v, h))
  {
    if v.VRef? && heap(v.r).DictObject? {
      var entries := heap(v.r).entries;
      forall i | 0 <= i < |entries|
        ensures entries[i].0.StrKey?
      {
        assert Edges(heap(v.r))[i] in Edges(heap(v.r));
      }
    }
  }

  lemma FrozenItems(heap: Heap, v: Value, h: nat)
    requires Unfolds(heap, v, h)
    ensures
      var j := Freeze(heap, v, h);
      if v.VRef? then (j.List? || j.Dict?) && j.items == FreezeAll(heap, Edges(heap(v.r)), h)
      else !j.List? && !j.Dict?
  {
  }

  /**
   Freezing keeps everything: the frozen tree has a node exactly where the graph has a value, and the node
   is that very scalar, or a container of as many children with the same keys in the same order.
   */
  lemma {:induction false} FreezeMirrors(heap: Heap, v: Value, h: nat, path: seq<nat>)
    requires Unfolds(heap, v, h)
    ensures
      var value, node := ValueAt(heap, v, path), NodeAt(Freeze(heap, v, h), path);
      && (value.Some? <==> node.Some?)
      && (value.Some? ==> Mirrors(heap, value.value, node.value))
    decreases |path|
  {
    if path == [] {
      FreezeMirrorsRoot(heap, v, h);
    } else {
      FrozenItems(heap, v, h);
      if v.VRef? {
        EdgesAre(heap(v.r), path[0]);
        if path[0] < |Edges(heap(v.r))| {
          var child := Edges(heap(v.r))[path[0]].child;
          FreezeAllAt(heap, Edges(heap(v.r)), h, path[0]);
          FreezeMirrors(heap, child, h - 1, path[1..]);
        }
      }
    }
  }

  // ---- Refusals name real defects ------------------------------------------------------------------

  /** Some positions lead to a value like this. */
  ghost predicate Leads(heap: Heap, v: Value, path: seq<nat>, value: Value) {
    ValueAt(heap, v, path) == Some(value)
  }

  predicate HasOtherKey(o: Object) {
    o.DictObject? && exists i :: 0 <= i < |o.entries| && o.entries[i].0 == OtherKey
  }

  predicate PathsDiffer(paths: seq<seq<nat>>) {
    forall i, j :: 0 <= i < j < |paths| ==> paths[i] != paths[j]
  }

  /** Every path leads somewhere. */
  ghost predicate AllLead(heap: Heap, v: Value, paths: seq<seq<nat>>) {
    forall p | p in paths :: ValueAt(heap, v, p).Some?
  }

  /** What a refusal says of the value. */
  ghost predicate Defect(heap: Heap, v: Value, refusal: Refusal) {
    match refusal
    case NotFinite => exists p :: Leads(heap, v, p, VFloat(None))
    case NotJson => exists p :: Leads(heap, v, p, VOther)
    case KeyNotString => exists p, r :: Leads(heap, v, p, VRef(r)) && HasOtherKey(heap(r))
    case Cyclic => exists p, n: nat, r :: n < |p| && Leads(heap, v, p, VRef(r)) && Leads(heap, v, p[..n], VRef(r))
    case TooDeep => exists p, value :: |p| == 65 && Leads(heap, v, p, value)
    case TooManyNodes => exists paths :: |paths| == 10_001 && PathsDiffer(paths) && AllLead(heap, v, paths)
  }

  lemma {:induction false} ValueAtAppend(heap: Heap, v: Value, p: seq<nat>, i: nat)
    requires ValueAt(heap, v, p).Some? && ValueAt(heap, v, p).value.VRef?
    ensures ValueAt(heap, v, p + [i]) == ChildAt(heap(ValueAt(heap, v, p).value.r), i)
    decreases |p|
  {
    if p == [] {
      assert (p + [i])[1..] == [];
    } else {
      assert (p + [i])[0] == p[0] && (p + [i])[1..] == p[1..] + [i];
      ValueAtAppend(heap, ChildAt(heap(v.r), p[0]).value, p[1..], i);
    }
  }

  /** The references on the way to p. */
  ghost predicate OnTheWay(heap: Heap, root: Value, p: seq<nat>, seen: set<Ref>) {
    forall r | r in seen :: MetBefore(heap, root, p, r)
  }

  ghost predicate MetBefore(heap: Heap, root: Value, p: seq<nat>, r: Ref) {
    exists n: nat :: n < |p| && Leads(heap, root, p[..n], VRef(r))
  }

  lemma FurtherOn(heap: Heap, root: Value, p: seq<nat>, i: nat, seen: set<Ref>, r: Ref)
    requires OnTheWay(heap, root, p, seen) && Leads(heap, root, p, VRef(r))
    ensures OnTheWay(heap, root, p + [i], seen + {r})
  {
    var q := p + [i];
    forall x | x in seen + {r}
      ensures MetBefore(heap, root, q, x)
    {
      if x in seen {
        assert MetBefore(heap, root, p, x);
        var n: nat :| n < |p| && Leads(heap, root, p[..n], VRef(x));
        assert q[..n] == p[..n];
      } else {
        assert q[..|p|] == p;
      }
    }
  }

  /** A refusal other than of the count, met at p, is a defect of the root. */
  lemma {:induction false} VisitDefect(
    heap: Heap, root: Value, p: seq<nat>, v: Value, seen: set<Ref>, nodes: nat)
    requires |p| <= MAX_JSON_DEPTH + 1 && Leads(heap, root, p, v) && OnTheWay(heap, root, p, seen)
    ensures
      var refusal := VisitValue(heap, v, |p|, seen, nodes).refusal;
      refusal.Some? && refusal.value != TooManyNodes ==> Defect(heap, root, refusal.value)
    decreases MAX_JSON_DEPTH + 1 - |p|, 1, 0
  {
    var refusal := VisitValue(heap, v, |p|, seen, nodes).refusal;
    if refusal.Some? && refusal.value != TooManyNodes && |p| <= MAX_JSON_DEPTH && v.VRef? {
      if v.r in seen {
        assert MetBefore(heap, root, p, v.r);
      } else {
        EdgesDefect(heap, root, p, v.r, 0, seen + {v.r}, seen, nodes + 1);
        assert Edges(heap(v.r))[0..] == Edges(heap(v.r));
      }
    }
  }

  /** The same of the children from position k on. */
  lemma {:induction false} EdgesDefect(
    heap: Heap, root: Value, p: seq<nat>, r: Ref, k: nat, seen: set<Ref>, before: set<Ref>, nodes: nat)
    requires |p| <= MAX_JSON_DEPTH && Leads(heap, root, p, VRef(r)) && k <= |Edges(heap(r))|
    requires OnTheWay(heap, root, p, before) && seen == before + {r}
    ensures
      var refusal := VisitEdges(heap, Edges(heap(r))[k..], |p| + 1, seen, nodes).refusal;
      refusal.Some? && refusal.value != TooManyNodes ==> Defect(heap, root, refusal.value)
    decreases MAX_JSON_DEPTH + 1 - (|p| + 1), 2, |Edges(heap(r))| - k
  {
    var es := Edges(heap(r));
    if k < |es| {
      if !es[k].keyOk {
        assert heap(r).entries[k].0 == OtherKey;
        assert HasOtherKey(heap(r));
      } else {
        EdgesAre(heap(r), k);
        ValueAtAppend(heap, root, p, k);
        FurtherOn(heap, root, p, k, before, r);
        VisitDefect(heap, root, p + [k], es[k].child, seen, nodes);
        var w := VisitValue(heap, es[k].child, |p| + 1, seen, nodes);
        if w.refusal.None? { EdgesDefect(heap, root, p, r, k + 1, seen, before, w.nodes); }
        assert es[k..][0] == es[k] && es[k..][1..] == es[k + 1..];
      }
    }
  }

  // ---- The count --------------------------------------------------------------------------------------

  /** These paths, one step further from the container. */
  function Under(i: nat, paths: seq<seq<nat>>): (r: seq<seq<nat>>)
    ensures |r| == |paths| && forall k :: 0 <= k < |r| ==> r[k] == [i] + paths[k]
  {
    seq(|paths|, k requires 0 <= k < |paths| => [i] + paths[k])
  }

  lemma UnderDiffers(i: nat, paths: seq<seq<nat>>)
    requires PathsDiffer(paths)
    ensures PathsDiffer(Under(i, paths)) && forall p | p in Under(i, paths) :: p != [] && p[0] == i
  {
    forall j, k | 0 <= j < k < |paths|
      ensures Under(i, paths)[j] != Under(i, paths)[k]
    {
      assert ([i] + paths[j])[1..] == paths[j] && ([i] + paths[k])[1..] == paths[k];
    }
  }

  /** Distinct paths from v, as many as the walk counts. */
  ghost predicate Counts(heap: Heap, v: Value, paths: seq<seq<nat>>, n: int) {
    |paths| == n && PathsDiffer(paths) && AllLead(heap, v, paths)
  }

  /** Distinct paths from a container through its children from position k on. */
  ghost predicate CountsFrom(heap: Heap, r: Ref, k: nat, paths: seq<seq<nat>>, n: int) {
    Counts(heap, VRef(r), paths, n) && forall p | p in paths :: p != [] && p[0] >= k
  }

  lemma ChildLeads(heap: Heap, r: Ref, i: nat, paths: seq<seq<nat>>)
    requires i < |Edges(heap(r))| && AllLead(heap, Edges(heap(r))[i].child, paths)
    ensures AllLead(heap, VRef(r), Under(i, paths))
  {
    EdgesAre(heap(r), i);
    forall p | p in Under(i, paths)
      ensures ValueAt(heap, VRef(r), p).Some?
    {
      var k :| 0 <= k < |paths| && p == [i] + paths[k];
      assert p[1..] == paths[k];
    }
  }

  lemma JoinCounts(heap: Heap, r: Ref, k: nat, first: seq<seq<nat>>, rest: seq<seq<nat>>, n: int, m: int)
    requires k < |Edges(heap(r))| && Counts(heap, Edges(heap(r))[k].child, first, n)
    requires CountsFrom(heap, r, k + 1, rest, m)
    ensures CountsFrom(heap, r, k, Under(k, first) + rest, n + m)
  {
    var here := Under(k, first);
    UnderDiffers(k, first);
    ChildLeads(heap, r, k, first);
    forall i, j | 0 <= i < j < |here + rest|
      ensures (here + rest)[i] != (here + rest)[j]
    {
      assert i < |here| ==> here[i] in here;
      assert j >= |here| ==> rest[j - |here|] in rest;
    }
  }

  /** The container itself is one way more. */
  lemma RootCounts(heap: Heap, r: Ref, below: seq<seq<nat>>, n: int)
    requires CountsFrom(heap, r, 0, below, n)
    ensures Counts(heap, VRef(r), [[]] + below, n + 1)
  {
    var paths: seq<seq<nat>> := [[]] + below;
    forall i, j | 0 <= i < j < |paths|
      ensures paths[i] != paths[j]
    {
      assert below[j - 1] in below;
    }
  }

  lemma {:induction false} VisitCounts(heap: Heap, v: Value, depth: nat, seen: set<Ref>, nodes: nat)
    returns (paths: seq<seq<nat>>)
    requires depth <= MAX_JSON_DEPTH + 1
    ensures Counts(heap, v, paths, VisitValue(heap, v, depth, seen, nodes).nodes - nodes)
    decreases MAX_JSON_DEPTH + 1 - depth, 1, 0
  {
    paths := [[]];
    if nodes + 1 <= MAX_JSON_NODES && depth <= MAX_JSON_DEPTH && v.VRef? && v.r !in seen {
      assert Edges(heap(v.r))[0..] == Edges(heap(v.r));
      var below := EdgesCount(heap, v.r, 0, depth + 1, seen + {v.r}, nodes + 1);
      paths := paths + below;
      RootCounts(heap, v.r, below, |below|);
    }
  }

  lemma {:induction false} EdgesCount(heap: Heap, r: Ref, k: nat, depth: nat, seen: set<Ref>, nodes: nat)
    returns (paths: seq<seq<nat>>)
    requires 0 < depth <= MAX_JSON_DEPTH + 1 && k <= |Edges(heap(r))|
    ensures CountsFrom(heap, r, k, paths, VisitEdges(heap, Edges(heap(r))[k..], depth, seen, nodes).nodes - nodes)
    decreases MAX_JSON_DEPTH + 1 - depth, 2, |Edges(heap(r))| - k
  {
    var es := Edges(heap(r));
    paths := [];
    if k < |es| {
      assert es[k..][0] == es[k] && es[k..][1..] == es[k + 1..];
      if es[k].keyOk {
        var w := VisitValue(heap, es[k].child, depth, seen, nodes);
        var first := VisitCounts(heap, es[k].child, depth, seen, nodes);
        var rest: seq<seq<nat>> := [];
        var after := w.nodes;
        if w.refusal.None? {
          rest := EdgesCount(heap, r, k + 1, depth, seen, w.nodes);
          after := VisitEdges(heap, es[k + 1..], depth, seen, w.nodes).nodes;
        }
        JoinCounts(heap, r, k, first, rest, w.nodes - nodes, after - w.nodes);
        paths := Under(k, first) + rest;
      }
    }
  }

  lemma {:induction false} RefusedCount(heap: Heap, v: Value, depth: nat, seen: set<Ref>, nodes: nat)
    requires depth <= MAX_JSON_DEPTH + 1 && nodes <= MAX_JSON_NODES
    ensures
      var w := VisitValue(heap, v, depth, seen, nodes);
      if w.refusal == Some(TooManyNodes) then w.nodes == MAX_JSON_NODES + 1 else w.nodes <= MAX_JSON_NODES
    decreases MAX_JSON_DEPTH + 1 - depth, 1, 0
  {
    if v.VRef? && nodes < MAX_JSON_NODES && depth <= MAX_JSON_DEPTH && v.r !in seen {
      RefusedCountAll(heap, Edges(heap(v.r)), depth + 1, seen + {v.r}, nodes + 1);
    }
  }

  lemma {:induction false} RefusedCountAll(heap: Heap, es: seq<Edge>, depth: nat, seen: set<Ref>, nodes: nat)
    requires 0 < depth <= MAX_JSON_DEPTH + 1 && nodes <= MAX_JSON_NODES
    ensures
      var w := VisitEdges(heap, es, depth, seen, nodes);
      if w.refusal == Some(TooManyNodes) then w.nodes == MAX_JSON_NODES + 1 else w.nodes <= MAX_JSON_NODES
    decreases MAX_JSON_DEPTH + 1 - depth, 2, |es|
  {
    if es != [] && es[0].keyOk {
      RefusedCount(heap, es[0].child, depth, seen, nodes);
      var w := VisitValue(heap, es[0].child, depth, seen, nodes);
      if w.refusal.None? { RefusedCountAll(heap, es[1..], depth, seen, w.nodes); }
    }
  }

  /**
   No refusal is wrong: each names a defect that the value has. Somewhere in it stands what is not finite,
   not JSON or a key that is no string; or a way returns to where it was, or is 65 steps long; or there
   are 10,001 different ways.
   */
  lemma RefusalTrue(heap: Heap, v: Value)
    ensures Admission(heap, v).Some? ==> Defect(heap, v, Admission(heap, v).value)
  {
    if Admission(heap, v).Some? {
      if Admission(heap, v).value == TooManyNodes {
        var paths := VisitCounts(heap, v, 0, {}, 0);
        RefusedCount(heap, v, 0, {}, 0);
        assert |paths| == 10_001 && PathsDiffer(paths) && AllLead(heap, v, paths);
      } else {
        VisitDefect(heap, v, [], v, {}, 0);
      }
    }
  }
}
