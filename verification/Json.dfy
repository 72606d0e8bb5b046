/** JSON values as trees: what a request holds once it has been admitted and frozen. */
module Json {
  const MAX_JSON_DEPTH: nat := 64
  const MAX_JSON_NODES: nat := 10_000

  datatype Json =
    | Null
    | Bool(b: bool)
    | Int(i: int)
    | Float(x: real)
    | Str(s: string)
    | List(items: seq<Json>)
    | Dict(keys: seq<string>, items: seq<Json>)

  /** Nodes of the tree; a key is not a node. */
  function Nodes(j: Json): nat {
    if j.List? || j.Dict? then 1 + NodesAll(j.items) else 1
  }

  function NodesAll(items: seq<Json>): nat {
    if items == [] then 0 else Nodes(items[0]) + NodesAll(items[1..])
  }

  /** The longest way down from the root; 0 for a leaf and for an empty container. */
  function Height(j: Json): nat {
    if j.List? || j.Dict? then HeightAll(j.items) else 0
  }

  function HeightAll(items: seq<Json>): nat {
    if items == [] then 0 else
      var h, rest := 1 + Height(items[0]), HeightAll(items[1..]);
      if h > rest then h else rest
  }

  /** The resource limits that `ensure_json_compatible` enforces, on a tree. */
  predicate Admissible(j: Json) {
    Height(j) <= MAX_JSON_DEPTH && Nodes(j) <= MAX_JSON_NODES
  }

  lemma {:induction false} NodesAppend(a: seq<Json>, b: seq<Json>)
    ensures NodesAll(a + b) == NodesAll(a) + NodesAll(b)
  {
    if a == [] {
      assert a + b == b;
    } else {
      NodesAppend(a[1..], b);
      assert (a + b)[1..] == a[1..] + b;
    }
  }

  lemma {:induction false} HeightAppend(a: seq<Json>, b: seq<Json>)
    ensures HeightAll(a + b) == if HeightAll(a) > HeightAll(b) then HeightAll(a) else HeightAll(b)
  {
    if a == [] {
      assert a + b == b;
    } else {
      HeightAppend(a[1..], b);
      assert (a + b)[1..] == a[1..] + b;
    }
  }

  lemma {:induction false} HeightOfChild(items: seq<Json>, i: nat)
    requires i < |items|
    ensures Height(items[i]) < HeightAll(items)
  {
    if i > 0 { HeightOfChild(items[1..], i - 1); }
  }
}
