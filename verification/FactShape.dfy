/** The fact node of a tree, told by what is hashed where: which string each hash is the digest of, byte by
    byte, and which words of the output each leaf covers. */
module FactShape {
  import opened Outcomes
  import opened ModularArithmetic
  import opened Bytes
  import opened FactTopology
  import opened FactTree
  import opened PageTrees
  import opened FactTheorems

  /** s is the page, 32 bytes for each word. */
  ghost predicate PageBytes(s: seq<byte>, page: seq<nat>) {
    |s| == 32 * |page|
    && forall k :: 0 <= k < |page| && page[k] < Pow(256, WORD) ==> ValueBe(s[32 * k..32 * k + 32]) == page[k]
  }

  /** The hash of a parent is one more than the digest of the list of its children's hashes and end offsets. */
  ghost predicate ParentHash(keccak: Hash, node: FactNode) {
    exists s :: ChildBytes(s, node.children) && ValueBe(node.nodeHash) == ValueBe(keccak(s)) + 1
  }

  /** The hash of a leaf is the digest of its page. */
  ghost predicate LeafHash(keccak: Hash, node: FactNode, page: seq<nat>) {
    exists s :: PageBytes(s, page) && node.nodeHash == keccak(s)
  }

  /** The node is the tree's, with its first word at word `start` of the output: hashes and measures are right
      at every level, and the children cover their own parts of the output, one after the other. */
  ghost predicate Shows(keccak: Hash, node: FactNode, t: PageTree, start: nat)
    decreases t, 1
  {
    node.endOffset == start + node.pageSize
    && match t
       case Leaf(page) => node.children == [] && node.pageSize == |page| && LeafHash(keccak, node, page)
       case Inner(ts) =>
         node.children != [] && node.endOffset == node.children[|node.children| - 1].endOffset
         && ParentHash(keccak, node) && AllShow(keccak, node.children, ts, start)
  }

  /** Each node shows its own tree, from where the one before it ends. */
  ghost predicate AllShow(keccak: Hash, nodes: seq<FactNode>, ts: seq<PageTree>, start: nat)
    decreases ts, 0
  {
    if ts == [] then nodes == []
    else
      nodes != [] && Shows(keccak, nodes[0], ts[0], start) && AllShow(keccak, nodes[1..], ts[1..], nodes[0].endOffset)
  }

  // ---- The machine's nodes show their trees -------------------------------------------------------

  lemma {:induction false} StoredAre(page: seq<nat>)
    ensures PageBytes(StoredBytes(page), page)
    decreases |page|
  {
    if page != [] {
      var n := |page| - 1;
      StoredAre(page[..n]);
      if page[n] < Pow(256, WORD) {
        FixedBeValue(page[n], WORD);
      }
      PageSnoc(StoredBytes(page), StoredBytes(page[..n]), FixedBe(page[n], WORD), page);
    }
  }

  lemma PageSnoc(s: seq<byte>, front: seq<byte>, word: seq<byte>, page: seq<nat>)
    requires page != [] && s == front + word && |word| == 32
    requires PageBytes(front, page[..|page| - 1])
    requires page[|page| - 1] < Pow(256, WORD) ==> ValueBe(word) == page[|page| - 1]
    ensures PageBytes(s, page)
  {
    var n := |page| - 1;
    assert s[32 * n..32 * n + 32] == word;
    forall k | 0 <= k < n && page[k] < Pow(256, WORD) ensures ValueBe(s[32 * k..32 * k + 32]) == page[k] {
      assert page[..n][k] == page[k];
      assert s[32 * k..32 * k + 32] == front[32 * k..32 * k + 32];
    }
  }

  lemma ParentShows(keccak: Hash, nodes: seq<FactNode>, node: FactNode)
    requires nodes != [] && Parent(keccak, nodes) == Some(node)
    ensures node.children == nodes && node.endOffset == nodes[|nodes| - 1].endOffset && ParentHash(keccak, node)
  {
    NodeDataBytes(nodes);
    NodeHashValue(keccak, NodeData(nodes));
  }

  lemma InnerNode(keccak: Hash, ts: seq<PageTree>, start: nat, node: FactNode) returns (nodes: seq<FactNode>)
    requires NodeOf(keccak, Inner(ts), start) == Some(node)
    ensures NodesOf(keccak, ts, start) == Some(nodes) && nodes != [] && Parent(keccak, nodes) == Some(node)
  {
    nodes := NodesOf(keccak, ts, start).value;
  }

  /** The first node of a list, and the others from where it ends. */
  lemma FirstEnds(keccak: Hash, ts: seq<PageTree>, start: nat, nodes: seq<FactNode>)
    requires ts != [] && NodesOf(keccak, ts, start) == Some(nodes)
    ensures nodes != [] && NodeOf(keccak, ts[0], start) == Some(nodes[0])
    ensures nodes[0].endOffset == start + |Output(ts[0])|
    ensures NodesOf(keccak, ts[1..], nodes[0].endOffset) == Some(nodes[1..])
  {
    FirstNode(keccak, ts, start);
    NodeMeasures(keccak, ts[0], start);
  }

  lemma {:induction false} NodeShows(keccak: Hash, t: PageTree, start: nat, node: FactNode)
    requires NodeOf(keccak, t, start) == Some(node)
    ensures Shows(keccak, node, t, start)
    decreases t, 1
  {
    NodeMeasures(keccak, t, start);
    match t
    case Leaf(page) => StoredAre(page);
    case Inner(ts) =>
      var nodes := InnerNode(keccak, ts, start, node);
      NodesShow(keccak, ts, start, nodes);
      ParentShows(keccak, nodes, node);
  }

  lemma {:induction false} NodesShow(keccak: Hash, ts: seq<PageTree>, start: nat, nodes: seq<FactNode>)
    requires NodesOf(keccak, ts, start) == Some(nodes)
    ensures AllShow(keccak, nodes, ts, start)
    decreases ts, 0
  {
    if ts != [] {
      FirstEnds(keccak, ts, start, nodes);
      NodeShows(keccak, ts[0], start, nodes[0]);
      NodesShow(keccak, ts[1..], nodes[0].endOffset, nodes[1..]);
    }
  }

  // ---- Nothing else shows a tree ------------------------------------------------------------------

  lemma SameBytes(a: seq<byte>, b: seq<byte>)
    requires |a| == |b| && ValueBe(a) == ValueBe(b)
    ensures a == b
  {
    ValueBeFixed(a);
    ValueBeFixed(b);
  }

  lemma PageBytesUnique(a: seq<byte>, b: seq<byte>, page: seq<nat>)
    requires PageBytes(a, page) && PageBytes(b, page) && WordsFit(page)
    ensures a == b
  {
    forall p | 0 <= p < |a| ensures a[p] == b[p] {
      var k := p / 32;
      var x, y := a[32 * k..32 * k + 32], b[32 * k..32 * k + 32];
      assert page[k] < Pow(256, WORD) && ValueBe(x) == page[k] == ValueBe(y);
      SameBytes(x, y);
      assert a[p] == x[p - 32 * k] && b[p] == y[p - 32 * k];
    }
  }

  lemma ChildBytesUnique(a: seq<byte>, b: seq<byte>, children: seq<FactNode>)
    requires ChildBytes(a, children) && ChildBytes(b, children)
    requires forall i :: 0 <= i < |children| ==> children[i].endOffset < Pow(256, WORD)
    ensures a == b
  {
    forall p | 0 <= p < |a| ensures a[p] == b[p] {
      var i := p / 64;
      var x, y := a[64 * i..64 * i + 32], b[64 * i..64 * i + 32];
      var u, v := a[64 * i + 32..64 * i + 64], b[64 * i + 32..64 * i + 64];
      assert x == children[i].nodeHash == y;
      SameBytes(u, v);
      if p < 64 * i + 32 {
        assert a[p] == x[p - 64 * i] && b[p] == y[p - 64 * i];
      } else {
        assert a[p] == u[p - 64 * i - 32] && b[p] == v[p - 64 * i - 32];
      }
    }
  }

  lemma IncrementedHash(keccak: Hash, s: seq<byte>, h: Digest)
    requires ValueBe(h) == ValueBe(keccak(s)) + 1
    ensures NodeHash(keccak, s) == Some(h)
  {
    ValueBeFixed(h);
  }

  lemma ShownLeaf(keccak: Hash, node: FactNode, page: seq<nat>)
    requires LeafHash(keccak, node, page) && WordsFit(page)
    ensures node.nodeHash == keccak(StoredBytes(page))
  {
    var s :| PageBytes(s, page) && node.nodeHash == keccak(s);
    StoredAre(page);
    PageBytesUnique(s, StoredBytes(page), page);
  }

  predicate EndsFit(nodes: seq<FactNode>) {
    forall i :: 0 <= i < |nodes| ==> nodes[i].endOffset < Pow(256, WORD)
  }

  lemma ShownParent(keccak: Hash, node: FactNode) returns (parent: FactNode)
    requires node.children != [] && EndsFit(node.children) && ParentHash(keccak, node)
    ensures Parent(keccak, node.children) == Some(parent) && parent.nodeHash == node.nodeHash
    ensures parent.endOffset == node.children[|node.children| - 1].endOffset && parent.children == node.children
  {
    var s :| ChildBytes(s, node.children) && ValueBe(node.nodeHash) == ValueBe(keccak(s)) + 1;
    NodeDataBytes(node.children);
    ChildBytesUnique(s, NodeData(node.children), node.children);
    IncrementedHash(keccak, s, node.nodeHash);
    parent := Parent(keccak, node.children).value;
  }

  /** The node made of the shown children is the shown node. */
  lemma ShownInner(keccak: Hash, node: FactNode, ts: seq<PageTree>, start: nat)
    requires node.children != [] && EndsFit(node.children) && ParentHash(keccak, node)
    requires node.endOffset == node.children[|node.children| - 1].endOffset == start + node.pageSize
    requires NodesOf(keccak, ts, start) == Some(node.children)
    ensures NodeOf(keccak, Inner(ts), start) == Some(node)
  {
    var parent := ShownParent(keccak, node);
    assert NodeOf(keccak, Inner(ts), start) == Some(parent);
    NodeMeasures(keccak, Inner(ts), start);
  }

  /** Behind a start below 2^256, at most one node shows a tree over fitting words: the machine's. */
  lemma {:induction false} ShownIsNode(keccak: Hash, node: FactNode, t: PageTree, start: nat)
    requires Shows(keccak, node, t, start) && WordsFit(Output(t)) && start + |Output(t)| < Pow(256, WORD)
    ensures NodeOf(keccak, t, start) == Some(node)
    decreases t, 1
  {
    match t
    case Leaf(page) => ShownLeaf(keccak, node, page);
    case Inner(ts) =>
      ShownAreNodes(keccak, node.children, ts, start);
      EndsOfNodes(keccak, ts, start, node.children);
      ShownInner(keccak, node, ts, start);
  }

  lemma {:induction false} ShownAreNodes(keccak: Hash, nodes: seq<FactNode>, ts: seq<PageTree>, start: nat)
    requires AllShow(keccak, nodes, ts, start) && WordsFit(Outputs(ts)) && start + |Outputs(ts)| < Pow(256, WORD)
    ensures NodesOf(keccak, ts, start) == Some(nodes)
    decreases ts, 0
  {
    if ts != [] {
      FirstShown(keccak, nodes, ts, start);
      ShownEnds(keccak, nodes[0], ts[0], start);
      ShownAreNodes(keccak, nodes[1..], ts[1..], nodes[0].endOffset);
      ShownCons(keccak, nodes, ts, start, nodes[0].endOffset);
    }
  }

  lemma FirstShown(keccak: Hash, nodes: seq<FactNode>, ts: seq<PageTree>, start: nat)
    requires AllShow(keccak, nodes, ts, start) && ts != []
    requires WordsFit(Outputs(ts)) && start + |Outputs(ts)| < Pow(256, WORD)
    ensures nodes != [] && Shows(keccak, nodes[0], ts[0], start)
    ensures AllShow(keccak, nodes[1..], ts[1..], nodes[0].endOffset)
    ensures WordsFit(Output(ts[0])) && WordsFit(Outputs(ts[1..]))
    ensures start + |Output(ts[0])| + |Outputs(ts[1..])| < Pow(256, WORD)
  {
    WordsFitForest(ts);
    OutputStep(ts, ts[0], ts[1..]);
  }

  lemma ShownEnds(keccak: Hash, node: FactNode, t: PageTree, start: nat)
    requires Shows(keccak, node, t, start) && WordsFit(Output(t)) && start + |Output(t)| < Pow(256, WORD)
    ensures NodeOf(keccak, t, start) == Some(node) && node.endOffset == start + |Output(t)|
    decreases t, 2
  {
    ShownIsNode(keccak, node, t, start);
    NodeMeasures(keccak, t, start);
  }

  lemma ShownCons(keccak: Hash, nodes: seq<FactNode>, ts: seq<PageTree>, start: nat, next: nat)
    requires nodes != [] && ts != [] && NodeOf(keccak, ts[0], start) == Some(nodes[0])
    requires next == start + |Output(ts[0])| && NodesOf(keccak, ts[1..], next) == Some(nodes[1..])
    ensures NodesOf(keccak, ts, start) == Some(nodes)
  {
    NodesStep(keccak, ts, ts[0], ts[1..], start, next);
    assert nodes == [nodes[0]] + nodes[1..];
  }

  /** No node of a list ends behind the list's words. */
  lemma {:induction false} EndsInside(keccak: Hash, ts: seq<PageTree>, start: nat, nodes: seq<FactNode>, i: nat)
    requires NodesOf(keccak, ts, start) == Some(nodes) && i < |nodes|
    ensures nodes[i].endOffset <= start + |Outputs(ts)|
    decreases i
  {
    if ts != [] {
      FirstEnds(keccak, ts, start, nodes);
      OutputStep(ts, ts[0], ts[1..]);
      if i > 0 {
        EndsInside(keccak, ts[1..], nodes[0].endOffset, nodes[1..], i - 1);
      }
    }
  }

  lemma EndsOfNodes(keccak: Hash, ts: seq<PageTree>, start: nat, nodes: seq<FactNode>)
    requires NodesOf(keccak, ts, start) == Some(nodes) && start + |Outputs(ts)| < Pow(256, WORD)
    ensures EndsFit(nodes)
  {
    forall i | 0 <= i < |nodes| ensures nodes[i].endOffset < Pow(256, WORD) {
      EndsInside(keccak, ts, start, nodes, i);
    }
  }

  // ---- generate_merkle_root -----------------------------------------------------------------------

  /** What is returned shows the tree that the topology describes over the output. */
  lemma RootShows(keccak: Hash, output: seq<nat>, topology: Topology, root: FactNode) returns (t: PageTree)
    requires MerkleRoot(keccak, output, topology) == Ok(root)
    ensures Describes(t, output, topology) && Shows(keccak, root, t, 0)
  {
    t := AcceptedIsTree(keccak, output, topology);
    NodeShows(keccak, t, 0, root);
  }

  /** For 256-bit words and offsets this decides the root: it is returned if and only if it shows a tree that
      the topology describes. */
  lemma RootIffShown(keccak: Hash, output: seq<nat>, topology: Topology, root: FactNode)
    requires WordsFit(output) && |output| < Pow(256, WORD)
    ensures MerkleRoot(keccak, output, topology) == Ok(root)
       <==> exists t :: Describes(t, output, topology) && Shows(keccak, root, t, 0)
  {
    if MerkleRoot(keccak, output, topology) == Ok(root) {
      var t := RootShows(keccak, output, topology, root);
    }
    if t :| Describes(t, output, topology) && Shows(keccak, root, t, 0) {
      ShownIsNode(keccak, root, t, 0);
      TreeIsRebuilt(keccak, t, output, topology);
    }
  }
}
