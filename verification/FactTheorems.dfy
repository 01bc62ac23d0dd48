/** What generate_merkle_root accepts, what it returns, and what its root hash commits to. */
module FactTheorems {
  import opened Outcomes
  import opened ModularArithmetic
  import opened Bytes
  import opened FactTopology
  import opened FactTree
  import opened PageTrees

  // ---- Soundness: whatever the machine accepts is a tree over the whole output ---------------------

  /** The stack holds the nodes of a forest over the words taken so far. */
  ghost predicate Holds(keccak: Hash, m: Machine, forest: seq<PageTree>, total: nat) {
    && AllWellShaped(forest)
    && NodesOf(keccak, forest, 0) == Some(m.stack)
    && m.endOffset == |Outputs(forest)|
    && m.endOffset + |m.rest| == total
  }

  /** The end offset never decreases. */
  lemma {:induction false} OffsetGrows(keccak: Hash, m: Machine, ops: seq<Op>)
    requires RunOps(keccak, m, ops).Some?
    ensures RunOps(keccak, m, ops).value.endOffset >= m.endOffset
    decreases |ops|
  {
    if ops != [] {
      OffsetGrows(keccak, Step(keccak, m, ops[0]).value, ops[1..]);
    }
  }

  /** From m to m' the forest grew by the given steps, and pages and words moved from the machine into it. */
  ghost predicate Grows(m: Machine, forest: seq<PageTree>, ops: seq<Op>, m': Machine, forest': seq<PageTree>) {
    && PostOrders(forest') == PostOrders(forest) + ops
    && AllLeafSizes(forest') + m'.pageSizes == AllLeafSizes(forest) + m.pageSizes
    && Outputs(forest') + m'.rest == Outputs(forest) + m.rest
  }

  lemma SnocNode(keccak: Hash, forest: seq<PageTree>, t: PageTree, nodes: seq<FactNode>, node: FactNode, start: nat)
    requires NodesOf(keccak, forest, start) == Some(nodes)
    requires NodeOf(keccak, t, start + |Outputs(forest)|) == Some(node)
    ensures NodesOf(keccak, forest + [t], start) == Some(nodes + [node])
  {
    SplitNodes(keccak, forest, [t], start);
    SingletonNode(keccak, t, start + |Outputs(forest)|);
    assert [node] + [] == [node];
  }

  lemma SnocForest(forest: seq<PageTree>, t: PageTree)
    ensures Outputs(forest + [t]) == Outputs(forest) + Output(t)
    ensures AllLeafSizes(forest + [t]) == AllLeafSizes(forest) + LeafSizes(t)
    ensures PostOrders(forest + [t]) == PostOrders(forest) + PostOrder(t)
    ensures AllWellShaped(forest + [t]) <==> AllWellShaped(forest) && WellShaped(t)
  {
    SplitForest(forest, [t]);
    SplitOutputs(forest, [t]);
    Singleton(t);
  }

  lemma PushGrows(m: Machine, forest: seq<PageTree>, size: nat, page: seq<nat>, m': Machine)
    requires m.pageSizes == [size] + m'.pageSizes && m.rest == page + m'.rest && size == |page|
    ensures Grows(m, forest, [Push], m', forest + [Leaf(page)])
  {
    SnocForest(forest, Leaf(page));
    Assoc(AllLeafSizes(forest), [size], m'.pageSizes);
    Assoc(Outputs(forest), page, m'.rest);
  }

  lemma PushKeeps(keccak: Hash, m: Machine, forest: seq<PageTree>, total: nat) returns (forest': seq<PageTree>)
    requires Holds(keccak, m, forest, total) && m.pageSizes != []
    requires m.endOffset + m.pageSizes[0] <= total
    ensures Holds(keccak, PushPage(keccak, m), forest', total)
    ensures Grows(m, forest, [Push], PushPage(keccak, m), forest')
  {
    var size := m.pageSizes[0];
    var page := m.rest[..size];
    forest' := forest + [Leaf(page)];
    assert m.rest == page + m.rest[size..];
    assert m.pageSizes == [size] + m.pageSizes[1..];
    PushGrows(m, forest, size, page, PushPage(keccak, m));
    SnocForest(forest, Leaf(page));
    SnocNode(keccak, forest, Leaf(page), m.stack,
             FactNode(keccak(StoredBytes(page)), m.endOffset + size, size, []), 0);
  }

  lemma SplitNodesAt(keccak: Hash, forest: seq<PageTree>, k: nat, stack: seq<FactNode>, start: nat)
    requires k <= |forest| && NodesOf(keccak, forest, start) == Some(stack)
    ensures |stack| == |forest|
    ensures NodesOf(keccak, forest[..k], start) == Some(stack[..k])
    ensures NodesOf(keccak, forest[k..], start + |Outputs(forest[..k])|) == Some(stack[k..])
  {
    assert forest[..k] + forest[k..] == forest;
    SplitNodes(keccak, forest[..k], forest[k..], start);
    NodesCount(keccak, forest, start);
    NodesCount(keccak, forest[..k], start);
  }

  /** The stack after grouping the last trees of a forest. */
  lemma GroupNodes(keccak: Hash, forest: seq<PageTree>, k: nat, stack: seq<FactNode>, parent: FactNode, start: nat)
    requires k < |forest| && NodesOf(keccak, forest, start) == Some(stack)
    requires |stack| == |forest| && Parent(keccak, stack[k..]) == Some(parent)
    ensures NodesOf(keccak, forest[..k] + [Inner(forest[k..])], start) == Some(stack[..k] + [parent])
  {
    SplitNodesAt(keccak, forest, k, stack, start);
    assert NodeOf(keccak, Inner(forest[k..]), start + |Outputs(forest[..k])|) == Some(parent);
    SnocNode(keccak, forest[..k], Inner(forest[k..]), stack[..k], parent, start);
  }

  lemma GroupLists(front: seq<PageTree>, back: seq<PageTree>)
    requires back != [] && AllWellShaped(front + back)
    ensures AllWellShaped(front + [Inner(back)])
    ensures AllLeafSizes(front + [Inner(back)]) == AllLeafSizes(front + back)
    ensures Outputs(front + [Inner(back)]) == Outputs(front + back)
    ensures PostOrders(front + [Inner(back)]) == PostOrders(front + back) + [Group(|back|)]
  {
    SplitForest(front, back);
    SplitOutputs(front, back);
    SnocForest(front, Inner(back));
    Associates(PostOrders(front), PostOrders(back), [Group(|back|)]);
  }

  lemma Associates(a: seq<Op>, b: seq<Op>, c: seq<Op>)
    ensures a + (b + c) == a + b + c
  {}

  lemma GroupKeeps(keccak: Hash, m: Machine, forest: seq<PageTree>, n: nat, total: nat) returns (forest': seq<PageTree>)
    requires Holds(keccak, m, forest, total) && 0 < n <= |m.stack| && Reduce(keccak, m, n).Some?
    ensures Holds(keccak, Reduce(keccak, m, n).value, forest', total)
    ensures Grows(m, forest, [Group(n)], Reduce(keccak, m, n).value, forest')
  {
    NodesCount(keccak, forest, 0);
    var k := |forest| - n;
    forest' := forest[..k] + [Inner(forest[k..])];
    assert forest[..k] + forest[k..] == forest;
    GroupLists(forest[..k], forest[k..]);
    GroupNodes(keccak, forest, k, m.stack, Parent(keccak, m.stack[k..]).value, 0);
  }

  lemma {:induction false} RunKeeps(keccak: Hash, m: Machine, forest: seq<PageTree>, ops: seq<Op>, total: nat)
    returns (forest': seq<PageTree>)
    requires Holds(keccak, m, forest, total)
    requires RunOps(keccak, m, ops).Some? && RunOps(keccak, m, ops).value.endOffset <= total
    ensures Holds(keccak, RunOps(keccak, m, ops).value, forest', total)
    ensures Grows(m, forest, ops, RunOps(keccak, m, ops).value, forest')
    decreases |ops|
  {
    if ops == [] {
      forest' := forest;
      assert PostOrders(forest) + [] == PostOrders(forest);
    } else {
      var next := Step(keccak, m, ops[0]).value;
      OffsetGrows(keccak, next, ops[1..]);
      var grown := StepKeeps(keccak, m, forest, ops[0], total);
      forest' := RunKeeps(keccak, next, grown, ops[1..], total);
      GrowsTwice(m, forest, ops, next, grown, RunOps(keccak, m, ops).value, forest');
    }
  }

  lemma GrowsTwice(m: Machine, forest: seq<PageTree>, ops: seq<Op>,
                   m1: Machine, forest1: seq<PageTree>, m2: Machine, forest2: seq<PageTree>)
    requires ops != [] && Grows(m, forest, [ops[0]], m1, forest1) && Grows(m1, forest1, ops[1..], m2, forest2)
    ensures Grows(m, forest, ops, m2, forest2)
  {
    assert PostOrders(forest) + [ops[0]] + ops[1..] == PostOrders(forest) + ops;
  }

  lemma StepKeeps(keccak: Hash, m: Machine, forest: seq<PageTree>, op: Op, total: nat) returns (forest': seq<PageTree>)
    requires Holds(keccak, m, forest, total)
    requires Step(keccak, m, op).Some? && Step(keccak, m, op).value.endOffset <= total
    ensures Holds(keccak, Step(keccak, m, op).value, forest', total)
    ensures Grows(m, forest, [op], Step(keccak, m, op).value, forest')
  {
    match op {
      case Push => forest' := PushKeeps(keccak, m, forest, total);
      case Group(n) => forest' := GroupKeeps(keccak, m, forest, n, total);
    }
  }

  /** t is the tree that the topology describes over the output. */
  ghost predicate Describes(t: PageTree, output: seq<nat>, topology: Topology) {
    && WellShaped(t)
    && PostOrder(t) == Ops(topology.treeStructure)
    && LeafSizes(t) == topology.pageSizes
    && Output(t) == output
  }

  /** Behind the loop, one node on the stack and the whole output taken mean a tree. */
  lemma OneNodeIsTree(keccak: Hash, output: seq<nat>, topology: Topology, m: Machine) returns (t: PageTree)
    requires RunPairs(keccak, Machine(topology.pageSizes, output, 0, []), topology.treeStructure) == Ok(m)
    requires |m.stack| == 1 && m.pageSizes == [] && m.endOffset == |output|
    ensures Describes(t, output, topology) && NodeOf(keccak, t, 0) == Some(m.stack[0])
  {
    var start := Machine(topology.pageSizes, output, 0, []);
    RunPairsIsOps(keccak, start, topology.treeStructure);
    var forest := RunKeeps(keccak, start, [], Ops(topology.treeStructure), |output|);
    NodesCount(keccak, forest, 0);
    t := forest[0];
    assert forest == [t];
    Singleton(t);
    SingletonNode(keccak, t, 0);
  }

  /** Completeness: the post-order encoding of a tree, however it is cut into pairs, rebuilds that tree. */
  lemma TreeIsRebuilt(keccak: Hash, t: PageTree, output: seq<nat>, topology: Topology)
    requires Describes(t, output, topology)
    ensures NodeOf(keccak, t, 0).Some? ==> MerkleRoot(keccak, output, topology) == Ok(NodeOf(keccak, t, 0).value)
    ensures NodeOf(keccak, t, 0).None? ==> MerkleRoot(keccak, output, topology).Err?
  {
    var start := Machine(topology.pageSizes, output, 0, []);
    assert LeafSizes(t) + [] == LeafSizes(t) && Output(t) + [] == Output(t);
    RunTree(keccak, start, t, [], []);
    RunPairsIsOps(keccak, start, topology.treeStructure);
    if NodeOf(keccak, t, 0).Some? {
      NodeMeasures(keccak, t, 0);
    }
  }

  /** Soundness: an accepted input is a tree over exactly the given pages and the whole output. */
  lemma AcceptedIsTree(keccak: Hash, output: seq<nat>, topology: Topology) returns (t: PageTree)
    requires MerkleRoot(keccak, output, topology).Ok?
    ensures Describes(t, output, topology)
    ensures NodeOf(keccak, t, 0) == Some(MerkleRoot(keccak, output, topology).value)
  {
    var m := RunPairs(keccak, Machine(topology.pageSizes, output, 0, []), topology.treeStructure).value;
    t := OneNodeIsTree(keccak, output, topology, m);
  }

  /** generate_merkle_root returns a root exactly for the descriptions of trees, and it is that tree's node. */
  lemma AcceptedIff(keccak: Hash, output: seq<nat>, topology: Topology, root: FactNode)
    ensures MerkleRoot(keccak, output, topology) == Ok(root)
       <==> exists t :: Describes(t, output, topology) && NodeOf(keccak, t, 0) == Some(root)
  {
    if MerkleRoot(keccak, output, topology) == Ok(root) {
      var t := AcceptedIsTree(keccak, output, topology);
    }
    if t :| Describes(t, output, topology) && NodeOf(keccak, t, 0) == Some(root) {
      TreeIsRebuilt(keccak, t, output, topology);
    }
  }

  // ---- Checks that cannot fire ------------------------------------------------------------------------

  /** The last check of generate_merkle_root is implied by the ones before it. */
  lemma RootOffsetAlwaysValid(keccak: Hash, output: seq<nat>, topology: Topology)
    ensures match MerkleRoot(keccak, output, topology)
            case Ok(root) => root.endOffset == |output| && root.pageSize == |output|
            case Err(e) => !e.TreeStructureRootOffsetInvalid?
  {
    match RunPairs(keccak, Machine(topology.pageSizes, output, 0, []), topology.treeStructure) {
      case Err(_) => RunPairsErrors(keccak, Machine(topology.pageSizes, output, 0, []), topology.treeStructure);
      case Ok(m) =>
        if |m.stack| == 1 && m.pageSizes == [] && m.endOffset == |output| {
          var t := OneNodeIsTree(keccak, output, topology, m);
          NodeMeasures(keccak, t, 0);
        }
    }
  }

  lemma {:induction false} RunPairsErrors(keccak: Hash, m: Machine, structure: seq<nat>)
    requires RunPairs(keccak, m, structure).Err?
    ensures var e := RunPairs(keccak, m, structure).error;
            e.TreeStructurePagesCountOutOfRange? || e.TreeStructureNodesCountOutOfRange? || e.NodeHashOverflow?
    decreases |structure|
  {
    match RunPair(keccak, m, structure[0], structure[1]) {
      case Err(_) =>
      case Ok(m') => RunPairsErrors(keccak, m', structure[2..]);
    }
  }

  lemma {:induction false} SumHead(s: seq<nat>)
    requires s != []
    ensures SumSizes(s) == s[0] + SumSizes(s[1..])
  {
    if |s| == 1 {
      assert s[..0] == [] && s[1..] == [];
    } else {
      SumHead(s[..|s| - 1]);
      assert s[..|s| - 1][1..] == s[1..][..|s| - 2];
    }
  }

  /** The end offset counts the sizes of the pages taken. */
  lemma {:induction false} OffsetCountsPages(keccak: Hash, m: Machine, ops: seq<Op>)
    requires RunOps(keccak, m, ops).Some?
    ensures var m' := RunOps(keccak, m, ops).value;
            m'.endOffset + SumSizes(m'.pageSizes) == m.endOffset + SumSizes(m.pageSizes)
    decreases |ops|
  {
    if ops != [] {
      if ops[0].Push? {
        SumHead(m.pageSizes);
      }
      OffsetCountsPages(keccak, Step(keccak, m, ops[0]).value, ops[1..]);
    }
  }

  /** With page sizes that add up to the output, the end offset check cannot fire either. */
  lemma EndOffsetValidForTilings(keccak: Hash, output: seq<nat>, topology: Topology)
    requires SumSizes(topology.pageSizes) == |output|
    ensures match MerkleRoot(keccak, output, topology)
            case Ok(_) => true
            case Err(e) => !IsOffsetError(e)
  {
    var start := Machine(topology.pageSizes, output, 0, []);
    RootOffsetAlwaysValid(keccak, output, topology);
    match RunPairs(keccak, start, topology.treeStructure) {
      case Err(_) => RunPairsErrors(keccak, start, topology.treeStructure);
      case Ok(m) =>
        RunPairsIsOps(keccak, start, topology.treeStructure);
        OffsetCountsPages(keccak, start, Ops(topology.treeStructure));
    }
  }

  // ---- Binding ----------------------------------------------------------------------------------------

  /** The byte strings hashed for a tree: the pages' and the inner nodes'. */
  datatype Strings = Strings(leaves: set<seq<byte>>, inner: set<seq<byte>>)

  function Union(a: Strings, b: Strings): Strings {
    Strings(a.leaves + b.leaves, a.inner + b.inner)
  }

  function Hashed(keccak: Hash, t: PageTree, start: nat): Strings {
    match t
    case Leaf(page) => Strings({StoredBytes(page)}, {})
    case Inner(children) =>
      Union(Strings({}, match NodesOf(keccak, children, start) case Some(ns) => {NodeData(ns)} case None => {}),
            AllHashed(keccak, children, start))
  }

  function AllHashed(keccak: Hash, ts: seq<PageTree>, start: nat): Strings {
    if ts == [] then Strings({}, {})
    else Union(Hashed(keccak, ts[0], start), AllHashed(keccak, ts[1..], start + |Output(ts[0])|))
  }

  /** Two hashed strings that defeat the hash: different pages or different inner nodes with equal digests,
      or a page whose digest is one above an inner node's. */
  datatype Clash =
    | LeafCollision(x: seq<byte>, y: seq<byte>)
    | InnerCollision(x: seq<byte>, y: seq<byte>)
    | OffByOne(leaf: seq<byte>, inner: seq<byte>)

  ghost predicate Defeats(keccak: Hash, c: Clash, a: Strings, b: Strings) {
    match c
    case LeafCollision(x, y) => x in a.leaves && y in b.leaves && x != y && keccak(x) == keccak(y)
    case InnerCollision(x, y) => x in a.inner && y in b.inner && x != y && keccak(x) == keccak(y)
    case OffByOne(leaf, inner) =>
      ((leaf in a.leaves && inner in b.inner) || (leaf in b.leaves && inner in a.inner))
      && ValueBe(keccak(leaf)) == ValueBe(keccak(inner)) + 1
  }

  ghost predicate WordsFit(words: seq<nat>) {
    forall i | 0 <= i < |words| :: words[i] < Pow(256, WORD)
  }

  /** Equal incremented digests are equal digests. */
  lemma NodeHashInjective(keccak: Hash, a: seq<byte>, b: seq<byte>)
    requires NodeHash(keccak, a).Some? && NodeHash(keccak, a) == NodeHash(keccak, b)
    ensures keccak(a) == keccak(b)
  {
    NodeHashValue(keccak, a);
    NodeHashValue(keccak, b);
    ValueBeFixed(keccak(a));
    ValueBeFixed(keccak(b));
  }

  lemma {:induction false} NodeDataLength(ns: seq<FactNode>)
    ensures |NodeData(ns)| == 2 * WORD * |ns|
  {
    if ns != [] {
      NodeDataLength(ns[1..]);
    }
  }

  /** The node data fixes the number of children and their hashes. */
  lemma {:induction false} NodeDataInjective(a: seq<FactNode>, b: seq<FactNode>)
    requires NodeData(a) == NodeData(b)
    ensures |a| == |b| && forall i | 0 <= i < |a| :: a[i].nodeHash == b[i].nodeHash
  {
    NodeDataLength(a);
    NodeDataLength(b);
    if a != [] {
      var da, db := NodeData(a), NodeData(b);
      assert da[..WORD] == a[0].nodeHash && db[..WORD] == b[0].nodeHash;
      assert da[2 * WORD..] == NodeData(a[1..]) && db[2 * WORD..] == NodeData(b[1..]);
      NodeDataInjective(a[1..], b[1..]);
      forall i | 0 <= i < |a| ensures a[i].nodeHash == b[i].nodeHash {
        if i > 0 {
          assert a[1..][i - 1] == a[i] && b[1..][i - 1] == b[i];
        }
      }
    }
  }

  lemma StoredBytesInjective(a: seq<nat>, b: seq<nat>)
    requires WordsFit(a) && WordsFit(b) && StoredBytes(a) == StoredBytes(b)
    ensures a == b
  {
    SplitStored(a);
    SplitStored(b);
  }

  lemma {:induction false} WordsFitForest(ts: seq<PageTree>)
    requires ts != [] && WordsFit(Outputs(ts))
    ensures WordsFit(Output(ts[0])) && WordsFit(Outputs(ts[1..]))
  {
    var a, b := Output(ts[0]), Outputs(ts[1..]);
    assert forall i | 0 <= i < |a| :: a[i] == Outputs(ts)[i];
    assert forall i | 0 <= i < |b| :: b[i] == Outputs(ts)[|a| + i];
  }

  /** What a comparison of two hashes yields: the same tree, or a clash among the strings hashed for them. */
  lemma {:induction false} TreesBind(keccak: Hash, t: PageTree, s: nat, u: PageTree, r: nat) returns (c: Option<Clash>)
    requires NodeOf(keccak, t, s).Some? && NodeOf(keccak, u, r).Some?
    requires WordsFit(Output(t)) && WordsFit(Output(u))
    requires NodeOf(keccak, t, s).value.nodeHash == NodeOf(keccak, u, r).value.nodeHash
    ensures c.None? ==> t == u
    ensures c.Some? ==> Defeats(keccak, c.value, Hashed(keccak, t, s), Hashed(keccak, u, r))
    decreases t, 1
  {
    match (t, u) {
      case (Leaf(p), Leaf(q)) =>
        if StoredBytes(p) == StoredBytes(q) {
          StoredBytesInjective(p, q);
          c := None;
        } else {
          c := Some(LeafCollision(StoredBytes(p), StoredBytes(q)));
        }
      case (Leaf(p), Inner(us)) =>
        var inner := NodeData(NodesOf(keccak, us, r).value);
        NodeHashValue(keccak, inner);
        c := Some(OffByOne(StoredBytes(p), inner));
      case (Inner(ts), Leaf(q)) =>
        var inner := NodeData(NodesOf(keccak, ts, s).value);
        NodeHashValue(keccak, inner);
        c := Some(OffByOne(StoredBytes(q), inner));
      case (Inner(ts), Inner(us)) =>
        var ns, ms := NodesOf(keccak, ts, s).value, NodesOf(keccak, us, r).value;
        NodeHashInjective(keccak, NodeData(ns), NodeData(ms));
        if NodeData(ns) == NodeData(ms) {
          NodeDataInjective(ns, ms);
          NodesCount(keccak, ts, s);
          NodesCount(keccak, us, r);
          c := ForestsBind(keccak, ts, s, us, r);
        } else {
          c := Some(InnerCollision(NodeData(ns), NodeData(ms)));
        }
    }
  }

  predicate SameHashes(ns: seq<FactNode>, ms: seq<FactNode>) {
    |ns| == |ms| && forall i | 0 <= i < |ns| :: ns[i].nodeHash == ms[i].nodeHash
  }

  lemma SameTail(ns: seq<FactNode>, ms: seq<FactNode>)
    requires SameHashes(ns, ms) && ns != []
    ensures ms != [] && ns[0].nodeHash == ms[0].nodeHash && SameHashes(ns[1..], ms[1..])
  {
  }

  /** The first node of a list, and the rest of it. */
  lemma FirstNode(keccak: Hash, ts: seq<PageTree>, start: nat)
    requires ts != [] && NodesOf(keccak, ts, start).Some?
    ensures var ns := NodesOf(keccak, ts, start).value;
            ns != [] && NodeOf(keccak, ts[0], start) == Some(ns[0])
            && NodesOf(keccak, ts[1..], start + |Output(ts[0])|) == Some(ns[1..])
  {
    var rest := NodesOf(keccak, ts[1..], start + |Output(ts[0])|);
    assert NodesOf(keccak, ts, start).value[1..] == rest.value;
  }

  /** A clash in the first trees, or behind them, is a clash of the forests. */
  lemma ClashLifts(keccak: Hash, c: Clash, ts: seq<PageTree>, s: nat, us: seq<PageTree>, r: nat)
    requires ts != [] && us != []
    requires Defeats(keccak, c, Hashed(keccak, ts[0], s), Hashed(keccak, us[0], r))
             || Defeats(keccak, c, AllHashed(keccak, ts[1..], s + |Output(ts[0])|),
                        AllHashed(keccak, us[1..], r + |Output(us[0])|))
    ensures Defeats(keccak, c, AllHashed(keccak, ts, s), AllHashed(keccak, us, r))
  {
  }

  lemma SameLists<T>(a: seq<T>, b: seq<T>)
    requires a != [] && b != [] && a[0] == b[0] && a[1..] == b[1..]
    ensures a == b
  {
    assert a == [a[0]] + a[1..] && b == [b[0]] + b[1..];
  }

  lemma {:induction false} ForestsBind(keccak: Hash, ts: seq<PageTree>, s: nat, us: seq<PageTree>, r: nat)
    returns (c: Option<Clash>)
    requires |ts| == |us| && NodesOf(keccak, ts, s).Some? && NodesOf(keccak, us, r).Some?
    requires WordsFit(Outputs(ts)) && WordsFit(Outputs(us))
    requires SameHashes(NodesOf(keccak, ts, s).value, NodesOf(keccak, us, r).value)
    ensures c.None? ==> ts == us
    ensures c.Some? ==> Defeats(keccak, c.value, AllHashed(keccak, ts, s), AllHashed(keccak, us, r))
    decreases ts, 0
  {
    if ts == [] {
      c := None;
    } else {
      WordsFitForest(ts);
      WordsFitForest(us);
      FirstNode(keccak, ts, s);
      FirstNode(keccak, us, r);
      SameTail(NodesOf(keccak, ts, s).value, NodesOf(keccak, us, r).value);
      c := TreesBind(keccak, ts[0], s, us[0], r);
      if c.None? {
        c := ForestsBind(keccak, ts[1..], s + |Output(ts[0])|, us[1..], r + |Output(us[0])|);
      }
      if c.Some? {
        ClashLifts(keccak, c.value, ts, s, us, r);
      } else {
        SameLists(ts, us);
      }
    }
  }

  /** Two successful runs with the same root hash had the same output, pages and tree structure,
      or two strings that were hashed during them defeat the hash. */
  lemma RootBinds(keccak: Hash, outputA: seq<nat>, topologyA: Topology, outputB: seq<nat>, topologyB: Topology)
    returns (a: PageTree, b: PageTree, c: Option<Clash>)
    requires WordsFit(outputA) && WordsFit(outputB)
    requires var ra, rb := MerkleRoot(keccak, outputA, topologyA), MerkleRoot(keccak, outputB, topologyB);
             ra.Ok? && rb.Ok? && ra.value.nodeHash == rb.value.nodeHash
    ensures Describes(a, outputA, topologyA) && Describes(b, outputB, topologyB)
    ensures c.None? ==> outputA == outputB && topologyA.pageSizes == topologyB.pageSizes
    ensures c.None? ==> Ops(topologyA.treeStructure) == Ops(topologyB.treeStructure)
    ensures c.Some? ==> Defeats(keccak, c.value, Hashed(keccak, a, 0), Hashed(keccak, b, 0))
  {
    a := AcceptedIsTree(keccak, outputA, topologyA);
    b := AcceptedIsTree(keccak, outputB, topologyB);
    c := TreesBind(keccak, a, 0, b, 0);
  }
}
