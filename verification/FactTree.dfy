/** The fact tree: a stack machine that rebuilds a non-binary Merkle tree over the output pages
    (crates/orchestrator/src/jobs/snos_job/fact_node.rs). keccak is any function to 32 bytes. */
module FactTree {
  import opened Outcomes
  import opened ModularArithmetic
  import opened Bytes
  import opened FactTopology

  type Digest = d: seq<byte> | |d| == WORD witness ZeroBytes(WORD)
  type Hash = seq<byte> -> Digest

  datatype FactNode = FactNode(nodeHash: Digest, endOffset: nat, pageSize: nat, children: seq<FactNode>)

  // ---- Node hashes ----------------------------------------------------------------------------

  /** One more than the keccak digest, as 32 bytes; none when the sum needs 33 bytes. */
  function NodeHash(keccak: Hash, data: seq<byte>): Option<Digest> {
    var v := ValueBe(keccak(data)) + 1;
    if v < Pow(256, WORD) then Some(FixedBe(v, WORD)) else None
  }

  /** calculate_node_hash: where the code would underflow the padding length and panic, none. */
  method CalculateNodeHash(keccak: Hash, nodeData: seq<byte>) returns (r: Option<Digest>)
    ensures r == NodeHash(keccak, nodeData)
  {
    var incremented := ValueBe(keccak(nodeData)) + 1;
    var hashBytes := MinimalBe(incremented);
    MinimalLength(incremented, WORD);
    if |hashBytes| > WORD {
      return None;
    }
    MinimalFitsFixed(incremented, WORD);
    r := Some(ZeroBytes(WORD - |hashBytes|) + hashBytes);
  }

  lemma {:induction false} MinimalLength(n: nat, width: nat)
    requires width > 0
    ensures |MinimalBe(n)| <= width <==> n < Pow(256, width)
  {
    if width == 1 {
      assert Pow(256, 1) == 256;
    } else if n < 256 {
      PowPositive(256, width - 1);
      assert Pow(256, width) == 256 * Pow(256, width - 1);
    } else {
      MinimalLength(n / 256, width - 1);
      assert Pow(256, width) == 256 * Pow(256, width - 1);
    }
  }

  /** Hash and padded end offset of each child. */
  function NodeData(nodes: seq<FactNode>): seq<byte> {
    if nodes == [] then []
    else nodes[0].nodeHash + FixedBe(nodes[0].endOffset, WORD) + NodeData(nodes[1..])
  }

  function TotalPageSize(nodes: seq<FactNode>): nat {
    if nodes == [] then 0 else nodes[0].pageSize + TotalPageSize(nodes[1..])
  }

  /** The parent of the given children; none when its hash overflows. */
  function Parent(keccak: Hash, children: seq<FactNode>): Option<FactNode>
    requires children != []
  {
    match NodeHash(keccak, NodeData(children))
    case None => None
    case Some(h) => Some(FactNode(h, children[|children| - 1].endOffset, TotalPageSize(children), children))
  }

  // ---- What the hashes are of -----------------------------------------------------------------

  /** s lists, for each child in turn, its hash and then its end offset as a 32-byte number. */
  ghost predicate ChildBytes(s: seq<byte>, children: seq<FactNode>) {
    |s| == 64 * |children|
    && forall i :: 0 <= i < |children| ==>
         s[64 * i..64 * i + 32] == children[i].nodeHash
         && (children[i].endOffset < Pow(256, WORD) ==> ValueBe(s[64 * i + 32..64 * i + 64]) == children[i].endOffset)
  }

  /** At every level below the node, a parent's hash is one more than the digest of the string that lists
      its children, and its end offset is that of its last child. */
  ghost predicate WellHashed(keccak: Hash, node: FactNode) {
    node.children != [] ==>
      (exists s :: ChildBytes(s, node.children) && ValueBe(node.nodeHash) == ValueBe(keccak(s)) + 1)
      && node.endOffset == node.children[|node.children| - 1].endOffset
      && forall i :: 0 <= i < |node.children| ==> WellHashed(keccak, node.children[i])
  }

  lemma ChildBytesCons(s: seq<byte>, hash: Digest, end: seq<byte>, rest: seq<byte>, children: seq<FactNode>)
    requires children != [] && s == hash + end + rest && |end| == 32 && hash == children[0].nodeHash
    requires children[0].endOffset < Pow(256, WORD) ==> ValueBe(end) == children[0].endOffset
    requires ChildBytes(rest, children[1..])
    ensures ChildBytes(s, children)
  {
    var tail := children[1..];
    assert s[0..32] == hash && s[32..64] == end;
    forall i | 0 < i < |children|
      ensures s[64 * i..64 * i + 32] == children[i].nodeHash
      ensures children[i].endOffset < Pow(256, WORD) ==> ValueBe(s[64 * i + 32..64 * i + 64]) == children[i].endOffset
    {
      var k := i - 1;
      assert tail[k] == children[i];
      assert s[64 * i..64 * i + 32] == rest[64 * k..64 * k + 32];
      assert s[64 * i + 32..64 * i + 64] == rest[64 * k + 32..64 * k + 64];
    }
  }

  lemma {:induction false} NodeDataBytes(children: seq<FactNode>)
    ensures ChildBytes(NodeData(children), children)
    decreases |children|
  {
    if children != [] {
      var end := children[0].endOffset;
      NodeDataBytes(children[1..]);
      if end < Pow(256, WORD) {
        FixedBeValue(end, WORD);
      }
      ChildBytesCons(NodeData(children), children[0].nodeHash, FixedBe(end, WORD), NodeData(children[1..]), children);
    }
  }

  lemma NodeHashValue(keccak: Hash, data: seq<byte>)
    requires NodeHash(keccak, data).Some?
    ensures ValueBe(NodeHash(keccak, data).value) == ValueBe(keccak(data)) + 1
  {
    FixedBeValue(ValueBe(keccak(data)) + 1, WORD);
  }

  lemma ParentHashed(keccak: Hash, children: seq<FactNode>, parent: FactNode)
    requires children != [] && Parent(keccak, children) == Some(parent)
    requires forall i :: 0 <= i < |children| ==> WellHashed(keccak, children[i])
    ensures WellHashed(keccak, parent)
  {
    NodeDataBytes(children);
    NodeHashValue(keccak, NodeData(children));
  }

  // ---- The stack machine ----------------------------------------------------------------------

  datatype Machine = Machine(pageSizes: seq<nat>, rest: seq<nat>, endOffset: nat, stack: seq<FactNode>)

  function Min(a: nat, b: nat): nat {
    if a < b then a else b
  }

  /** One leaf: takes the next page size and as many words of the output as are left for it. */
  function PushPage(keccak: Hash, m: Machine): Machine
    requires m.pageSizes != []
  {
    var size := m.pageSizes[0];
    var taken := Min(size, |m.rest|);
    var end := m.endOffset + size;
    Machine(m.pageSizes[1..], m.rest[taken..], end,
            m.stack + [FactNode(keccak(StoredBytes(m.rest[..taken])), end, size, [])])
  }

  function PushPages(keccak: Hash, m: Machine, n: nat): Machine
    requires n <= |m.pageSizes|
    decreases n
  {
    if n == 0 then m else PushPages(keccak, PushPage(keccak, m), n - 1)
  }

  /** The top n nodes become the children of a new node. */
  function Reduce(keccak: Hash, m: Machine, n: nat): Option<Machine>
    requires 0 < n <= |m.stack|
  {
    var k := |m.stack| - n;
    match Parent(keccak, m.stack[k..])
    case None => None
    case Some(node) => Some(m.(stack := m.stack[..k] + [node]))
  }

  function RunPair(keccak: Hash, m: Machine, pages: nat, nodes: nat): Result<Machine, FactError> {
    if pages > |m.pageSizes| then Err(TreeStructurePagesCountOutOfRange(pages, |m.pageSizes|))
    else
      var m' := PushPages(keccak, m, pages);
      if nodes > |m'.stack| then Err(TreeStructureNodesCountOutOfRange(nodes, |m'.stack|))
      else if nodes == 0 then Ok(m')
      else
        match Reduce(keccak, m', nodes)
        case None => Err(NodeHashOverflow)
        case Some(m'') => Ok(m'')
  }

  /** All (n_pages, n_nodes) pairs; an odd last entry is dropped. */
  function RunPairs(keccak: Hash, m: Machine, structure: seq<nat>): Result<Machine, FactError>
    decreases |structure|
  {
    if |structure| < 2 then Ok(m)
    else
      match RunPair(keccak, m, structure[0], structure[1])
      case Err(e) => Err(e)
      case Ok(m') => RunPairs(keccak, m', structure[2..])
  }

  /** The checks behind the loop. */
  function Finish(m: Machine, outputSize: nat): (r: Result<FactNode, FactError>)
    ensures r.Err? && r.error.TreeStructureRootInvalid? <==> |m.stack| != 1
    ensures r.Err? && r.error.TreeStructurePagesNotProcessed? <==> |m.stack| == 1 && m.pageSizes != []
    ensures r.Err? && r.error.TreeStructureEndOffsetInvalid? <==>
              |m.stack| == 1 && m.pageSizes == [] && m.endOffset != outputSize
    ensures r.Ok? ==> m.stack == [r.value] && r.value.endOffset == m.endOffset == outputSize
  {
    if |m.stack| != 1 then Err(TreeStructureRootInvalid)
    else if m.pageSizes != [] then Err(TreeStructurePagesNotProcessed(|m.pageSizes|))
    else if m.endOffset != outputSize then Err(TreeStructureEndOffsetInvalid(m.endOffset, outputSize))
    else if m.stack[0].endOffset != outputSize then
      Err(TreeStructureRootOffsetInvalid(m.stack[0].endOffset, outputSize))
    else Ok(m.stack[0])
  }

  function MerkleRoot(keccak: Hash, output: seq<nat>, topology: Topology): Result<FactNode, FactError> {
    match RunPairs(keccak, Machine(topology.pageSizes, output, 0, []), topology.treeStructure)
    case Err(e) => Err(e)
    case Ok(m) => Finish(m, |output|)
  }

  /** The inner loop over children: node data, total page size and last end offset. */
  method CollectChildren(children: seq<FactNode>) returns (nodeData: seq<byte>, totalPageSize: nat, endOffset: nat)
    ensures nodeData == NodeData(children) && totalPageSize == TotalPageSize(children)
    ensures endOffset == if children == [] then 0 else children[|children| - 1].endOffset
  {
    nodeData, totalPageSize, endOffset := [], 0, 0;
    for i := 0 to |children|
      invariant nodeData + NodeData(children[i..]) == NodeData(children)
      invariant totalPageSize + TotalPageSize(children[i..]) == TotalPageSize(children)
      invariant endOffset == if i == 0 then 0 else children[i - 1].endOffset
    {
      assert children[i..][1..] == children[i + 1..];
      var node := children[i];
      nodeData := nodeData + node.nodeHash + FixedBe(node.endOffset, WORD);
      totalPageSize := totalPageSize + node.pageSize;
      endOffset := node.endOffset;
    }
  }

  /** Pushes n leaves; the page sizes, the output iterator, the end offset and the stack advance together. */
  method PushLeaves(keccak: Hash, m: Machine, n: nat) returns (r: Machine)
    requires n <= |m.pageSizes|
    ensures r == PushPages(keccak, m, n)
  {
    var pageSizes, rest, endOffset, stack := m.pageSizes, m.rest, m.endOffset, m.stack;
    for i := 0 to n
      invariant n - i <= |pageSizes|
      invariant PushPages(keccak, Machine(pageSizes, rest, endOffset, stack), n - i) == PushPages(keccak, m, n)
    {
      var pageSize := pageSizes[0];
      pageSizes := pageSizes[1..];
      var taken := Min(pageSize, |rest|);
      var nodeHash := keccak(StoredBytes(rest[..taken]));
      rest := rest[taken..];
      endOffset := endOffset + pageSize;
      stack := stack + [FactNode(nodeHash, endOffset, pageSize, [])];
    }
    r := Machine(pageSizes, rest, endOffset, stack);
  }

  /** Replaces the top n nodes by their parent. */
  method MakeParent(keccak: Hash, stack: seq<FactNode>, n: nat) returns (r: Option<seq<FactNode>>)
    requires 0 < n <= |stack|
    ensures var parent := Parent(keccak, stack[|stack| - n..]);
            r == if parent.None? then None else Some(stack[..|stack| - n] + [parent.value])
  {
    var children := stack[|stack| - n..];
    var nodeData, totalPageSize, childEndOffset := CollectChildren(children);
    var nodeHash := CalculateNodeHash(keccak, nodeData);
    if nodeHash.None? {
      return None;
    }
    r := Some(stack[..|stack| - n] + [FactNode(nodeHash.value, childEndOffset, totalPageSize, children)]);
  }

  /** One turn of the main loop. */
  method RunOnePair(keccak: Hash, m: Machine, nPages: nat, nNodes: nat) returns (r: Result<Machine, FactError>)
    ensures r == RunPair(keccak, m, nPages, nNodes)
  {
    if nPages > |m.pageSizes| {
      return Err(TreeStructurePagesCountOutOfRange(nPages, |m.pageSizes|));
    }
    var pushed := PushLeaves(keccak, m, nPages);
    if nNodes > |pushed.stack| {
      return Err(TreeStructureNodesCountOutOfRange(nNodes, |pushed.stack|));
    }
    if nNodes > 0 {
      var stack := MakeParent(keccak, pushed.stack, nNodes);
      if stack.None? {
        return Err(NodeHashOverflow);
      }
      pushed := pushed.(stack := stack.value);
    }
    r := Ok(pushed);
  }

  lemma PairsStep(keccak: Hash, m: Machine, structure: seq<nat>, at: nat)
    requires at + 1 < |structure|
    ensures RunPairs(keccak, m, structure[at..])
         == match RunPair(keccak, m, structure[at], structure[at + 1])
            case Err(e) => Err(e)
            case Ok(m') => RunPairs(keccak, m', structure[at + 2..])
  {
    assert structure[at..][2..] == structure[at + 2..];
  }

  ghost predicate StackHashed(keccak: Hash, m: Machine) {
    forall i :: 0 <= i < |m.stack| ==> WellHashed(keccak, m.stack[i])
  }

  lemma {:induction false} PushesHashed(keccak: Hash, m: Machine, n: nat)
    requires StackHashed(keccak, m) && n <= |m.pageSizes|
    ensures StackHashed(keccak, PushPages(keccak, m, n))
    decreases n
  {
    if n > 0 {
      PushesHashed(keccak, PushPage(keccak, m), n - 1);
    }
  }

  lemma ReduceHashed(keccak: Hash, m: Machine, n: nat)
    requires StackHashed(keccak, m) && 0 < n <= |m.stack| && Reduce(keccak, m, n).Some?
    ensures StackHashed(keccak, Reduce(keccak, m, n).value)
  {
    var children := m.stack[|m.stack| - n..];
    forall i | 0 <= i < |children| ensures WellHashed(keccak, children[i]) {
      assert children[i] == m.stack[|m.stack| - n + i];
    }
    ParentHashed(keccak, children, Parent(keccak, children).value);
  }

  lemma PairHashed(keccak: Hash, m: Machine, pages: nat, nodes: nat)
    requires StackHashed(keccak, m) && RunPair(keccak, m, pages, nodes).Ok?
    ensures StackHashed(keccak, RunPair(keccak, m, pages, nodes).value)
  {
    PushesHashed(keccak, m, pages);
    if nodes > 0 {
      ReduceHashed(keccak, PushPages(keccak, m, pages), nodes);
    }
  }

  lemma {:induction false} PairsHashed(keccak: Hash, m: Machine, structure: seq<nat>)
    requires StackHashed(keccak, m) && RunPairs(keccak, m, structure).Ok?
    ensures StackHashed(keccak, RunPairs(keccak, m, structure).value)
    decreases |structure|
  {
    if |structure| >= 2 {
      PairHashed(keccak, m, structure[0], structure[1]);
      PairsHashed(keccak, RunPair(keccak, m, structure[0], structure[1]).value, structure[2..]);
    }
  }

  lemma RootHashed(keccak: Hash, output: seq<nat>, topology: Topology)
    ensures var r := MerkleRoot(keccak, output, topology);
            r.Ok? ==> WellHashed(keccak, r.value)
  {
    if MerkleRoot(keccak, output, topology).Ok? {
      PairsHashed(keccak, Machine(topology.pageSizes, output, 0, []), topology.treeStructure);
    }
  }

  /** generate_merkle_root. */
  method GenerateMerkleRoot(keccak: Hash, output: seq<nat>, topology: Topology)
    returns (r: Result<FactNode, FactError>)
    ensures r == MerkleRoot(keccak, output, topology)
    ensures r.Ok? ==> WellHashed(keccak, r.value)
  {
    RootHashed(keccak, output, topology);
    var structure := topology.treeStructure;
    var m := Machine(topology.pageSizes, output, 0, []);
    ghost var all := RunPairs(keccak, m, structure);
    var at := 0;
    while at + 1 < |structure|
      invariant at <= |structure|
      invariant RunPairs(keccak, m, structure[at..]) == all
    {
      PairsStep(keccak, m, structure, at);
      var next := RunOnePair(keccak, m, structure[at], structure[at + 1]);
      if next.Err? {
        return Err(next.error);
      }
      m := next.value;
      at := at + 2;
    }
    r := Finish(m, |output|);
  }
}
