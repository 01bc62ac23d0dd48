/** Ordered trees of output pages: what the fact tree machine accepts, and what it builds. */
module PageTrees {
  import opened Outcomes
  import opened ModularArithmetic
  import opened Bytes
  import opened FactTopology
  import opened FactTree

  datatype PageTree = Leaf(page: seq<nat>) | Inner(children: seq<PageTree>)

  /** Inner nodes have at least one child. */
  predicate WellShaped(t: PageTree) {
    t.Inner? ==> t.children != [] && AllWellShaped(t.children)
  }

  predicate AllWellShaped(ts: seq<PageTree>) {
    ts == [] || (WellShaped(ts[0]) && AllWellShaped(ts[1..]))
  }

  /** The words of the leaves, left to right. */
  function Output(t: PageTree): seq<nat> {
    match t
    case Leaf(page) => page
    case Inner(children) => Outputs(children)
  }

  function Outputs(ts: seq<PageTree>): seq<nat> {
    if ts == [] then [] else Output(ts[0]) + Outputs(ts[1..])
  }

  /** The sizes of the leaves, left to right. */
  function LeafSizes(t: PageTree): seq<nat> {
    match t
    case Leaf(page) => [|page|]
    case Inner(children) => AllLeafSizes(children)
  }

  function AllLeafSizes(ts: seq<PageTree>): seq<nat> {
    if ts == [] then [] else LeafSizes(ts[0]) + AllLeafSizes(ts[1..])
  }

  /** One machine step: push a page, or make a parent of the top n nodes. */
  datatype Op = Push | Group(n: nat)

  /** The post-order of a tree. */
  function PostOrder(t: PageTree): seq<Op> {
    match t
    case Leaf(_) => [Push]
    case Inner(children) => PostOrders(children) + [Group(|children|)]
  }

  function PostOrders(ts: seq<PageTree>): seq<Op> {
    if ts == [] then [] else PostOrder(ts[0]) + PostOrders(ts[1..])
  }

  /** The fact node of a tree whose first word is word `start` of the output; none on a hash overflow. */
  function NodeOf(keccak: Hash, t: PageTree, start: nat): Option<FactNode> {
    match t
    case Leaf(page) => Some(FactNode(keccak(StoredBytes(page)), start + |page|, |page|, []))
    case Inner(children) =>
      match NodesOf(keccak, children, start)
      case None => None
      case Some(nodes) => if nodes == [] then None else Parent(keccak, nodes)
  }

  function NodesOf(keccak: Hash, ts: seq<PageTree>, start: nat): Option<seq<FactNode>> {
    if ts == [] then Some([])
    else Prepend(NodeOf(keccak, ts[0], start), NodesOf(keccak, ts[1..], start + |Output(ts[0])|))
  }

  /** A node in front of a list of nodes, if there are both. */
  function Prepend(a: Option<FactNode>, b: Option<seq<FactNode>>): Option<seq<FactNode>> {
    if a.Some? && b.Some? then Some([a.value] + b.value) else None
  }

  /** Both lists of nodes, or none. */
  function Append(a: Option<seq<FactNode>>, b: Option<seq<FactNode>>): Option<seq<FactNode>> {
    if a.Some? && b.Some? then Some(a.value + b.value) else None
  }

  // ---- Lists of trees split ----------------------------------------------------------------------

  lemma TailOfJoin(a: seq<PageTree>, b: seq<PageTree>)
    requires a != []
    ensures (a + b)[0] == a[0] && (a + b)[1..] == a[1..] + b
  {
  }

  lemma {:induction false} SplitOutputs(a: seq<PageTree>, b: seq<PageTree>)
    ensures Outputs(a + b) == Outputs(a) + Outputs(b)
    ensures AllLeafSizes(a + b) == AllLeafSizes(a) + AllLeafSizes(b)
    decreases |a|
  {
    if a == [] {
      assert a + b == b;
    } else {
      SplitOutputs(a[1..], b);
      TailOfJoin(a, b);
      Assoc(Output(a[0]), Outputs(a[1..]), Outputs(b));
      Assoc(LeafSizes(a[0]), AllLeafSizes(a[1..]), AllLeafSizes(b));
    }
  }

  lemma {:induction false} SplitForest(a: seq<PageTree>, b: seq<PageTree>)
    ensures PostOrders(a + b) == PostOrders(a) + PostOrders(b)
    ensures AllWellShaped(a + b) <==> AllWellShaped(a) && AllWellShaped(b)
    decreases |a|
  {
    if a == [] {
      assert a + b == b;
    } else {
      SplitForest(a[1..], b);
      TailOfJoin(a, b);
    }
  }

  lemma Regroup(a: Option<FactNode>, b: Option<seq<FactNode>>, c: Option<seq<FactNode>>, joined: Option<seq<FactNode>>,
                part: Option<seq<FactNode>>, whole: Option<seq<FactNode>>)
    requires joined == Append(b, c) && part == Prepend(a, b) && whole == Prepend(a, joined)
    ensures whole == Append(part, c)
  {
    if a.Some? && b.Some? && c.Some? {
      Assoc([a.value], b.value, c.value);
    }
  }

  lemma AppendNone(b: Option<seq<FactNode>>)
    ensures Append(Some([]), b) == b
  {
    if b.Some? {
      assert [] + b.value == b.value;
    }
  }

  /** The nodes of a non-empty list, the first one apart. */
  lemma NodesStep(keccak: Hash, ts: seq<PageTree>, t: PageTree, rest: seq<PageTree>, start: nat, next: nat)
    requires ts != [] && ts[0] == t && ts[1..] == rest && next == start + |Output(t)|
    ensures NodesOf(keccak, ts, start) == Prepend(NodeOf(keccak, t, start), NodesOf(keccak, rest, next))
  {
  }

  /** Two lists with the same first tree. */
  lemma SameFirst(keccak: Hash, a: seq<PageTree>, rest: seq<PageTree>, all: seq<PageTree>, more: seq<PageTree>,
                  start: nat, next: nat)
    returns (node: Option<FactNode>)
    requires a != [] && a[1..] == rest && all != [] && all[0] == a[0] && all[1..] == more
    requires next == start + |Output(a[0])|
    ensures NodesOf(keccak, a, start) == Prepend(node, NodesOf(keccak, rest, next))
    ensures NodesOf(keccak, all, start) == Prepend(node, NodesOf(keccak, more, next))
  {
    node := NodeOf(keccak, a[0], start);
    NodesStep(keccak, a, a[0], rest, start, next);
    NodesStep(keccak, all, a[0], more, start, next);
  }

  lemma OutputStep(ts: seq<PageTree>, t: PageTree, rest: seq<PageTree>)
    requires ts != [] && ts[0] == t && ts[1..] == rest
    ensures |Outputs(ts)| == |Output(t)| + |Outputs(rest)|
  {
  }

  lemma {:induction false} SplitNodes(keccak: Hash, a: seq<PageTree>, b: seq<PageTree>, start: nat)
    ensures NodesOf(keccak, a + b, start)
         == Append(NodesOf(keccak, a, start), NodesOf(keccak, b, start + |Outputs(a)|))
    decreases |a|
  {
    if a == [] {
      assert a + b == b;
      AppendNone(NodesOf(keccak, b, start));
    } else {
      var t, rest := a[0], a[1..];
      var next := start + |Output(t)|;
      var end := start + |Outputs(a)|;
      SplitNodes(keccak, rest, b, next);
      TailOfJoin(a, b);
      OutputStep(a, t, rest);
      var node := SameFirst(keccak, a, rest, a + b, rest + b, start, next);
      Regroup(node, NodesOf(keccak, rest, next), NodesOf(keccak, b, end),
              NodesOf(keccak, rest + b, next), NodesOf(keccak, a, start), NodesOf(keccak, a + b, start));
    }
  }

  lemma {:induction false} NodesCount(keccak: Hash, ts: seq<PageTree>, start: nat)
    requires NodesOf(keccak, ts, start).Some?
    ensures |NodesOf(keccak, ts, start).value| == |ts|
    decreases |ts|
  {
    if ts != [] {
      NodesCount(keccak, ts[1..], start + |Output(ts[0])|);
    }
  }

  lemma Singleton(t: PageTree)
    ensures Outputs([t]) == Output(t) && AllLeafSizes([t]) == LeafSizes(t) && PostOrders([t]) == PostOrder(t)
    ensures AllWellShaped([t]) <==> WellShaped(t)
  {
    assert [t][1..] == [];
  }

  lemma SingletonNode(keccak: Hash, t: PageTree, start: nat)
    ensures NodesOf(keccak, [t], start)
         == Prepend(NodeOf(keccak, t, start), Some([]))
  {
    assert [t][1..] == [];
    assert NodesOf(keccak, [], start + |Output(t)|) == Some([]);
  }

  // ---- Offsets and sizes of nodes -----------------------------------------------------------------

  lemma ParentMeasures(keccak: Hash, nodes: seq<FactNode>)
    requires nodes != [] && Parent(keccak, nodes).Some?
    ensures Parent(keccak, nodes).value.endOffset == nodes[|nodes| - 1].endOffset
    ensures Parent(keccak, nodes).value.pageSize == TotalPageSize(nodes)
  {
  }

  /** A node's end offset is that of its last leaf, and its page size the sum of its leaves. */
  lemma {:induction false} NodeMeasures(keccak: Hash, t: PageTree, start: nat)
    requires NodeOf(keccak, t, start).Some?
    ensures NodeOf(keccak, t, start).value.endOffset == start + |Output(t)|
    ensures NodeOf(keccak, t, start).value.pageSize == |Output(t)|
    decreases t, 1
  {
    match t {
      case Leaf(_) =>
      case Inner(children) =>
        var nodes := NodesOf(keccak, children, start).value;
        NodesMeasures(keccak, children, start);
        ParentMeasures(keccak, nodes);
        assert NodeOf(keccak, t, start) == Parent(keccak, nodes) && Output(t) == Outputs(children);
    }
  }

  lemma {:induction false} NodesMeasures(keccak: Hash, ts: seq<PageTree>, start: nat)
    requires NodesOf(keccak, ts, start).Some?
    ensures TotalPageSize(NodesOf(keccak, ts, start).value) == |Outputs(ts)|
    ensures var ns := NodesOf(keccak, ts, start).value;
            ns != [] ==> ns[|ns| - 1].endOffset == start + |Outputs(ts)|
    decreases ts, 0
  {
    if ts != [] {
      NodeMeasures(keccak, ts[0], start);
      NodesMeasures(keccak, ts[1..], start + |Output(ts[0])|);
      var ns := NodesOf(keccak, ts, start).value;
      assert ns[1..] == NodesOf(keccak, ts[1..], start + |Output(ts[0])|).value;
    }
  }

  // ---- The machine, step by step -------------------------------------------------------------------

  /** The steps of a list of pairs: pushes, then a grouping unless the node count is zero. */
  function Ops(structure: seq<nat>): seq<Op>
    decreases |structure|
  {
    if |structure| < 2 then []
    else
      seq(structure[0], _ => Push)
      + (if structure[1] > 0 then [Group(structure[1])] else [])
      + Ops(structure[2..])
  }

  /** A pair is n_pages leaves, and a parent of the last n_nodes nodes unless that is zero. */
  lemma OpsOfPair(pages: nat, nodes: nat, rest: seq<nat>)
    ensures Ops([pages, nodes] + rest)
         == seq(pages, _ => Push) + (if nodes == 0 then [] else [Group(nodes)]) + Ops(rest)
  {
    assert ([pages, nodes] + rest)[2..] == rest;
  }

  function Step(keccak: Hash, m: Machine, op: Op): Option<Machine> {
    match op
    case Push => if m.pageSizes == [] then None else Some(PushPage(keccak, m))
    case Group(n) => if 0 < n <= |m.stack| then Reduce(keccak, m, n) else None
  }

  function RunOps(keccak: Hash, m: Machine, ops: seq<Op>): Option<Machine>
    decreases |ops|
  {
    if ops == [] then Some(m)
    else
      match Step(keccak, m, ops[0])
      case None => None
      case Some(m') => RunOps(keccak, m', ops[1..])
  }

  lemma {:induction false} RunOpsConcat(keccak: Hash, m: Machine, a: seq<Op>, b: seq<Op>)
    ensures RunOps(keccak, m, a + b)
         == match RunOps(keccak, m, a) case None => None case Some(m') => RunOps(keccak, m', b)
    decreases |a|
  {
    if a == [] {
      assert a + b == b;
    } else {
      assert (a + b)[1..] == a[1..] + b;
      match Step(keccak, m, a[0]) {
        case None =>
        case Some(m') => RunOpsConcat(keccak, m', a[1..], b);
      }
    }
  }

  lemma {:induction false} RunPushes(keccak: Hash, m: Machine, n: nat)
    ensures RunOps(keccak, m, seq(n, _ => Push))
         == if n <= |m.pageSizes| then Some(PushPages(keccak, m, n)) else None
    decreases n
  {
    if n != 0 {
      var ops := seq(n, _ => Push);
      assert ops[0] == Push && ops[1..] == seq(n - 1, _ => Push);
      if m.pageSizes != [] {
        RunPushes(keccak, PushPage(keccak, m), n - 1);
      }
    }
  }

  lemma RunPairIsOps(keccak: Hash, m: Machine, pages: nat, nodes: nat)
    ensures RunOps(keccak, m, seq(pages, _ => Push) + (if nodes > 0 then [Group(nodes)] else []))
         == match RunPair(keccak, m, pages, nodes) case Err(_) => None case Ok(m') => Some(m')
  {
    var pushes := seq(pages, _ => Push);
    RunPushes(keccak, m, pages);
    if nodes > 0 {
      RunOpsConcat(keccak, m, pushes, [Group(nodes)]);
      assert [Group(nodes)][1..] == [];
    } else {
      assert pushes + [] == pushes;
    }
  }

  /** Running pairs is running their steps. */
  lemma {:induction false} RunPairsIsOps(keccak: Hash, m: Machine, structure: seq<nat>)
    ensures RunOps(keccak, m, Ops(structure))
         == match RunPairs(keccak, m, structure) case Err(_) => None case Ok(m') => Some(m')
    decreases |structure|
  {
    if |structure| >= 2 {
      var head := seq(structure[0], _ => Push) + (if structure[1] > 0 then [Group(structure[1])] else []);
      RunPairIsOps(keccak, m, structure[0], structure[1]);
      RunOpsConcat(keccak, m, head, Ops(structure[2..]));
      match RunPair(keccak, m, structure[0], structure[1]) {
        case Err(_) =>
        case Ok(m') => RunPairsIsOps(keccak, m', structure[2..]);
      }
    }
  }

  // ---- Completeness: the post-order of a tree rebuilds it --------------------------------------------

  /** The machine behind a tree: its pages and words consumed, its node on the stack. */
  function Behind(keccak: Hash, m: Machine, t: PageTree, pageSizes: seq<nat>, rest: seq<nat>): Option<Machine> {
    match NodeOf(keccak, t, m.endOffset)
    case None => None
    case Some(node) => Some(Machine(pageSizes, rest, m.endOffset + |Output(t)|, m.stack + [node]))
  }

  /** The machine with more nodes, which took n more words. */
  function Put(m: Machine, nodes: Option<seq<FactNode>>, n: nat, pageSizes: seq<nat>, rest: seq<nat>): Option<Machine> {
    match nodes
    case None => None
    case Some(ns) => Some(Machine(pageSizes, rest, m.endOffset + n, m.stack + ns))
  }

  function BehindAll(keccak: Hash, m: Machine, ts: seq<PageTree>, pageSizes: seq<nat>, rest: seq<nat>): Option<Machine> {
    Put(m, NodesOf(keccak, ts, m.endOffset), |Outputs(ts)|, pageSizes, rest)
  }

  lemma PutFirst(m: Machine, head: Option<FactNode>, tail: Option<seq<FactNode>>, n: nat, k: nat,
                 sizes: seq<nat>, words: seq<nat>, pageSizes: seq<nat>, rest: seq<nat>)
    ensures Put(m, Prepend(head, tail), n + k, pageSizes, rest)
         == if head.None? then None
            else Put(Machine(sizes, words, m.endOffset + n, m.stack + [head.value]), tail, k, pageSizes, rest)
  {
    if head.Some? && tail.Some? {
      Assoc(m.stack, [head.value], tail.value);
    }
  }

  lemma RunLeaf(keccak: Hash, m: Machine, page: seq<nat>, pageSizes: seq<nat>, rest: seq<nat>)
    requires m.pageSizes == [|page|] + pageSizes && m.rest == page + rest
    ensures RunOps(keccak, m, [Push]) == Behind(keccak, m, Leaf(page), pageSizes, rest)
  {
    assert [Push][1..] == [];
    assert m.pageSizes[1..] == pageSizes;
    assert m.rest[..|page|] == page && m.rest[|page|..] == rest;
  }

  lemma ReduceTop(keccak: Hash, m: Machine, below: seq<FactNode>, nodes: seq<FactNode>)
    requires nodes != [] && m.stack == below + nodes
    ensures RunOps(keccak, m, [Group(|nodes|)])
         == match Parent(keccak, nodes) case None => None case Some(p) => Some(m.(stack := below + [p]))
  {
    var n := |nodes|;
    assert [Group(n)][1..] == [];
    assert m.stack[|below|..] == nodes && m.stack[..|below|] == below;
  }

  /** Grouping the nodes of all children gives the node of their parent. */
  lemma RunGroup(keccak: Hash, m: Machine, children: seq<PageTree>, pageSizes: seq<nat>, rest: seq<nat>)
    requires children != []
    ensures var behind := BehindAll(keccak, m, children, pageSizes, rest);
            Behind(keccak, m, Inner(children), pageSizes, rest)
            == if behind.None? then None else RunOps(keccak, behind.value, [Group(|children|)])
  {
    var behind := BehindAll(keccak, m, children, pageSizes, rest);
    if behind.Some? {
      NodesCount(keccak, children, m.endOffset);
      ReduceTop(keccak, behind.value, m.stack, NodesOf(keccak, children, m.endOffset).value);
    }
  }

  lemma {:induction false} RunTree(keccak: Hash, m: Machine, t: PageTree, pageSizes: seq<nat>, rest: seq<nat>)
    requires WellShaped(t)
    requires m.pageSizes == LeafSizes(t) + pageSizes && m.rest == Output(t) + rest
    ensures RunOps(keccak, m, PostOrder(t)) == Behind(keccak, m, t, pageSizes, rest)
    decreases t, 1
  {
    match t {
      case Leaf(page) => RunLeaf(keccak, m, page, pageSizes, rest);
      case Inner(children) =>
        RunForest(keccak, m, children, pageSizes, rest);
        RunOpsConcat(keccak, m, PostOrders(children), [Group(|children|)]);
        RunGroup(keccak, m, children, pageSizes, rest);
    }
  }

  lemma Assoc<T>(a: seq<T>, b: seq<T>, c: seq<T>)
    ensures a + b + c == a + (b + c)
  {
  }

  /** The sizes and words of the first tree come first. */
  lemma FirstTreeFirst(ts: seq<PageTree>, pageSizes: seq<nat>, rest: seq<nat>)
    requires ts != []
    ensures AllLeafSizes(ts) + pageSizes == LeafSizes(ts[0]) + (AllLeafSizes(ts[1..]) + pageSizes)
    ensures Outputs(ts) + rest == Output(ts[0]) + (Outputs(ts[1..]) + rest)
  {
    Assoc(LeafSizes(ts[0]), AllLeafSizes(ts[1..]), pageSizes);
    Assoc(Output(ts[0]), Outputs(ts[1..]), rest);
  }

  lemma {:induction false} RunForest(keccak: Hash, m: Machine, ts: seq<PageTree>, pageSizes: seq<nat>, rest: seq<nat>)
    requires AllWellShaped(ts)
    requires m.pageSizes == AllLeafSizes(ts) + pageSizes && m.rest == Outputs(ts) + rest
    ensures RunOps(keccak, m, PostOrders(ts)) == BehindAll(keccak, m, ts, pageSizes, rest)
    decreases ts, 0
  {
    if ts == [] {
      assert m.pageSizes == pageSizes && m.rest == rest && m.stack + [] == m.stack;
    } else {
      var t, tail := ts[0], ts[1..];
      var sizes, words := AllLeafSizes(tail) + pageSizes, Outputs(tail) + rest;
      FirstTreeFirst(ts, pageSizes, rest);
      RunTree(keccak, m, t, sizes, words);
      var behind := Behind(keccak, m, t, sizes, words);
      if behind.Some? {
        RunForest(keccak, behind.value, tail, pageSizes, rest);
      }
      RunFirst(keccak, m, ts, t, tail, behind);
      BehindCons(keccak, m, ts, t, tail, pageSizes, rest);
    }
  }

  /** Running the trees of a list is running the first one and then the others. */
  lemma RunFirst(keccak: Hash, m: Machine, ts: seq<PageTree>, t: PageTree, tail: seq<PageTree>, behind: Option<Machine>)
    requires ts != [] && ts[0] == t && ts[1..] == tail && RunOps(keccak, m, PostOrder(t)) == behind
    ensures RunOps(keccak, m, PostOrders(ts))
         == if behind.None? then None else RunOps(keccak, behind.value, PostOrders(tail))
  {
    RunOpsConcat(keccak, m, PostOrder(t), PostOrders(tail));
  }

  /** The machine behind a list is the machine behind its first tree, run on over the others. */
  lemma BehindCons(keccak: Hash, m: Machine, ts: seq<PageTree>, t: PageTree, tail: seq<PageTree>, pageSizes: seq<nat>,
                   rest: seq<nat>)
    requires ts != [] && ts[0] == t && ts[1..] == tail
    ensures var behind := Behind(keccak, m, t, AllLeafSizes(tail) + pageSizes, Outputs(tail) + rest);
            BehindAll(keccak, m, ts, pageSizes, rest)
            == if behind.None? then None else BehindAll(keccak, behind.value, tail, pageSizes, rest)
  {
    NodesStep(keccak, ts, t, tail, m.endOffset, m.endOffset + |Output(t)|);
    OutputStep(ts, t, tail);
    var node := NodeOf(keccak, t, m.endOffset);
    var nodes := NodesOf(keccak, tail, m.endOffset + |Output(t)|);
    var sizes, words := AllLeafSizes(tail) + pageSizes, Outputs(tail) + rest;
    PutFirst(m, node, nodes, |Output(t)|, |Outputs(tail)|, sizes, words, pageSizes, rest);
  }
}
