/** The fact of a program run: output words, topology and root hash
    (crates/orchestrator/src/jobs/snos_job/fact_info.rs). */
module FactInfo {
  import opened Outcomes
  import opened ModularArithmetic
  import opened Bytes
  import opened FactTopology
  import opened FactTree
  import opened PageTrees
  import opened FactShape
  import opened FactTheorems

  /** A memory cell: a field element or a relocatable address. */
  datatype Cell = Int(felt: nat) | Relocatable
  datatype Address = Address(index: nat, offset: nat)
  type Memory = map<Address, Cell>

  /** The output segment's number and size. */
  datatype Segment = Segment(index: nat, size: nat)

  /** The segment's cells are exactly the offsets below its size, all of them field elements. */
  ghost predicate Complete(segment: Segment, memory: Memory) {
    && (forall o: nat :: Address(segment.index, o) in memory <==> o < segment.size)
    && (forall o: nat | o < segment.size :: memory[Address(segment.index, o)].Int?)
  }

  /** The numbers below n. */
  function Below(n: nat): (s: set<nat>)
    ensures forall i :: i in s <==> 0 <= i < n
    ensures |s| == n
  {
    if n == 0 then {} else Below(n - 1) + {n - 1}
  }

  /** seen holds the offsets of the segment's cells that were visited. */
  ghost predicate Visited(memory: Memory, remaining: set<Address>, index: nat, seen: set<nat>) {
    forall o: nat :: o in seen <==> Address(index, o) in memory && Address(index, o) !in remaining
  }

  lemma VisitOther(memory: Memory, remaining: set<Address>, index: nat, seen: set<nat>, a: Address)
    requires Visited(memory, remaining, index, seen) && a in memory && a in remaining && a.index != index
    ensures Visited(memory, remaining - {a}, index, seen)
  {}

  lemma VisitCell(memory: Memory, remaining: set<Address>, index: nat, seen: set<nat>, a: Address)
    requires Visited(memory, remaining, index, seen) && a in memory && a in remaining && a.index == index
    ensures Visited(memory, remaining - {a}, index, seen + {a.offset}) && a.offset !in seen
  {}

  /** A full visit with as many cells as the size, all below it, is complete. */
  lemma VisitedComplete(memory: Memory, segment: Segment, seen: set<nat>)
    requires Visited(memory, {}, segment.index, seen) && seen <= Below(segment.size)
    requires forall o: nat | o in seen :: memory[Address(segment.index, o)].Int?
    ensures Complete(segment, memory) <==> |seen| == segment.size
    ensures |seen| == segment.size ==> seen == Below(segment.size)
  {
    if |seen| == segment.size {
      SubsetOfSameSize(seen, Below(segment.size));
    }
    if Complete(segment, memory) {
      assert forall o: nat | o in Below(segment.size) :: Address(segment.index, o) in memory;
      assert seen == Below(segment.size);
    }
  }

  /** The visited cells have been copied. */
  ghost predicate Copied(memory: Memory, segment: Segment, seen: set<nat>, output: seq<nat>) {
    |output| == segment.size && seen <= Below(segment.size)
    && forall o: nat | o in seen ::
         o < |output| && Address(segment.index, o) in memory && memory[Address(segment.index, o)] == Int(output[o])
  }

  lemma CopyCell(memory: Memory, segment: Segment, seen: set<nat>, output: seq<nat>, o: nat, felt: nat)
    requires Copied(memory, segment, seen, output) && o !in seen && o < segment.size
    requires Address(segment.index, o) in memory && memory[Address(segment.index, o)] == Int(felt)
    ensures Copied(memory, segment, seen + {o}, output[o := felt])
  {
  }

  /** One cell that does not fit makes the segment incomplete. */
  lemma BadCell(memory: Memory, segment: Segment, address: Address)
    requires address in memory && address.index == segment.index
    requires memory[address].Relocatable? || address.offset >= segment.size
    ensures !Complete(segment, memory)
  {
    assert address == Address(segment.index, address.offset);
  }

  /** output holds the segment's cells in order. */
  ghost predicate IsOutput(segmentInfo: Option<Segment>, memory: Memory, output: seq<nat>) {
    segmentInfo.Some? && Complete(segmentInfo.value, memory) && |output| == segmentInfo.value.size
    && forall o: nat | o < |output| :: memory[Address(segmentInfo.value.index, o)] == Int(output[o])
  }

  /** What an error of get_program_output says about the segment: a cell that is no field element, a cell
      behind its end, or a missing cell. Which of several bad cells is named depends on the iteration. */
  ghost predicate IsOutputError(segmentInfo: Option<Segment>, memory: Memory, e: FactError) {
    match segmentInfo
    case None => e == OutputBuiltinNoSegmentInfo
    case Some(segment) => IsSegmentError(segment, memory, e)
  }

  ghost predicate IsSegmentError(segment: Segment, memory: Memory, e: FactError) {
    match e
    case OutputSegmentUnexpectedRelocatable(o) =>
      Address(segment.index, o) in memory && memory[Address(segment.index, o)].Relocatable?
    case OutputOffsetPanic(o) =>
      Address(segment.index, o) in memory && memory[Address(segment.index, o)].Int? && o >= segment.size
    case InvalidSegment =>
      (exists o: nat :: o < segment.size && Address(segment.index, o) !in memory)
      && forall o: nat | Address(segment.index, o) in memory ::
           o < segment.size && memory[Address(segment.index, o)].Int?
    case _ => false
  }

  lemma OutputUnique(segmentInfo: Option<Segment>, memory: Memory, output: seq<nat>)
    requires IsOutput(segmentInfo, memory, output)
    ensures forall other | IsOutput(segmentInfo, memory, other) :: other == output
  {
    forall other | IsOutput(segmentInfo, memory, other) ensures other == output {
      forall o: nat | o < |output| ensures other[o] == output[o] {
        assert memory[Address(segmentInfo.value.index, o)] == Int(output[o]);
        assert memory[Address(segmentInfo.value.index, o)] == Int(other[o]);
      }
    }
  }

  /** A segment that was visited without finding a bad cell, and is too short, misses a cell. */
  lemma MissingCell(memory: Memory, segment: Segment, seen: set<nat>, output: seq<nat>)
    requires Visited(memory, {}, segment.index, seen) && Copied(memory, segment, seen, output) && |seen| != segment.size
    ensures IsSegmentError(segment, memory, InvalidSegment)
  {
    forall o: nat | Address(segment.index, o) in memory
      ensures o < segment.size && memory[Address(segment.index, o)].Int?
    {
      assert o in seen;
      assert o in Below(segment.size);
    }
    if forall o: nat | o < segment.size :: Address(segment.index, o) in memory {
      FullVisit(memory, segment, seen);
    }
  }

  lemma FullVisit(memory: Memory, segment: Segment, seen: set<nat>)
    requires Visited(memory, {}, segment.index, seen) && seen <= Below(segment.size)
    requires forall o: nat | o < segment.size :: Address(segment.index, o) in memory
    ensures |seen| == segment.size
  {
    forall o | o in Below(segment.size) ensures o in seen {
      assert Address(segment.index, o) in memory;
    }
    assert seen == Below(segment.size);
  }

  /** get_program_output: fills the output in the memory's iteration order, then compares counts.
      An offset behind the segment's size would panic in the code. */
  method GetProgramOutput(segmentInfo: Option<Segment>, memory: Memory) returns (r: Result<seq<nat>, FactError>)
    ensures r.Ok? <==> segmentInfo.Some? && Complete(segmentInfo.value, memory)
    ensures r.Ok? ==> IsOutput(segmentInfo, memory, r.value)
    ensures r.Err? ==> IsOutputError(segmentInfo, memory, r.error)
  {
    if segmentInfo.None? {
      return Err(OutputBuiltinNoSegmentInfo);
    }
    r := FillOutput(segmentInfo.value, memory);
  }

  method FillOutput(segment: Segment, memory: Memory) returns (r: Result<seq<nat>, FactError>)
    ensures r.Ok? <==> Complete(segment, memory)
    ensures r.Ok? ==> IsOutput(Some(segment), memory, r.value)
    ensures r.Err? ==> IsSegmentError(segment, memory, r.error)
  {
    var output: seq<nat> := seq(segment.size, _ => 0);
    var insertionCount := 0;
    var remaining := memory.Keys;
    ghost var seen: set<nat> := {};
    while remaining != {}
      invariant remaining <= memory.Keys && Visited(memory, remaining, segment.index, seen)
      invariant Copied(memory, segment, seen, output) && |seen| == insertionCount
      decreases |remaining|
    {
      var address :| address in remaining;
      assert address == Address(address.index, address.offset);
      if address.index == segment.index {
        match memory[address] {
          case Int(felt) =>
            if address.offset >= segment.size {
              BadCell(memory, segment, address);
              return Err(OutputOffsetPanic(address.offset));
            }
            VisitCell(memory, remaining, segment.index, seen, address);
            CopyCell(memory, segment, seen, output, address.offset, felt);
            output := output[address.offset := felt];
            insertionCount := insertionCount + 1;
            seen := seen + {address.offset};
          case Relocatable =>
            BadCell(memory, segment, address);
            return Err(OutputSegmentUnexpectedRelocatable(address.offset));
        }
      } else {
        VisitOther(memory, remaining, segment.index, seen, address);
      }
      remaining := remaining - {address};
    }
    VisitedComplete(memory, segment, seen);
    if insertionCount != segment.size {
      MissingCell(memory, segment, seen, output);
      return Err(InvalidSegment);
    }
    r := Ok(output);
  }

  datatype Info = Info(programOutput: seq<nat>, topology: Topology, fact: Digest)

  /** The string whose digest is the fact. */
  function FactInput(programHash: nat, root: FactNode): seq<byte> {
    FixedBe(programHash, WORD) + root.nodeHash
  }

  /** The parts a successful get_fact_info is made of. */
  ghost predicate IsFact(keccak: Hash, segmentInfo: Option<Segment>, memory: Memory, data: Option<OutputData>,
                         programHash: Option<nat>, info: Info) {
    IsOutput(segmentInfo, memory, info.programOutput)
    && IsTopology(data, |info.programOutput|, info.topology)
    && programHash.Some?
    && MerkleRoot(keccak, info.programOutput, info.topology).Ok?
    && info.fact == keccak(FactInput(programHash.value, MerkleRoot(keccak, info.programOutput, info.topology).value))
  }

  /** The fact is the digest of the program hash and the root's hash, 32 bytes each, and the root shows the tree
      that the topology describes over the output. */
  ghost predicate FactShows(keccak: Hash, programHash: nat, info: Info) {
    exists t: PageTree, root: FactNode, s: seq<byte> ::
      Describes(t, info.programOutput, info.topology) && Shows(keccak, root, t, 0)
      && |s| == 64 && (programHash < Pow(256, WORD) ==> ValueBe(s[..32]) == programHash) && s[32..] == root.nodeHash
      && info.fact == keccak(s)
  }

  lemma FactIsShown(keccak: Hash, programHash: nat, info: Info, root: FactNode)
    requires MerkleRoot(keccak, info.programOutput, info.topology) == Ok(root)
    requires info.fact == keccak(FactInput(programHash, root))
    ensures FactShows(keccak, programHash, info)
  {
    var t := RootShows(keccak, info.programOutput, info.topology, root);
    var s := FactInput(programHash, root);
    assert s[..32] == FixedBe(programHash, WORD) && s[32..] == root.nodeHash;
    if programHash < Pow(256, WORD) {
      FixedBeValue(programHash, WORD);
    }
  }

  /** The error of the first step that has one: the output, the topology, the program hash, the root. */
  ghost predicate IsFactError(keccak: Hash, segmentInfo: Option<Segment>, memory: Memory, data: Option<OutputData>,
                              programHash: Option<nat>, e: FactError) {
    if !(segmentInfo.Some? && Complete(segmentInfo.value, memory)) then IsOutputError(segmentInfo, memory, e)
    else exists output :: IsOutput(segmentInfo, memory, output) && IsLaterError(keccak, output, data, programHash, e)
  }

  ghost predicate IsLaterError(keccak: Hash, output: seq<nat>, data: Option<OutputData>,
                               programHash: Option<nat>, e: FactError) {
    if DataError(data).Some? || data.None? || !Tiles(data.value.pages, |output|) then IsTopologyError(data, |output|, e)
    else if programHash.None? then e == ProgramHashCompute
    else exists t :: IsTopology(data, |output|, t) && MerkleRoot(keccak, output, t) == Err(e)
  }

  /** Without a topology whose root exists, or without a program hash, there is no fact. */
  lemma NoFact(keccak: Hash, segmentInfo: Option<Segment>, memory: Memory, data: Option<OutputData>,
               programHash: Option<nat>, output: seq<nat>)
    requires IsOutput(segmentInfo, memory, output)
    requires forall t | IsTopology(data, |output|, t) :: programHash.None? || MerkleRoot(keccak, output, t).Err?
    ensures !exists info :: IsFact(keccak, segmentInfo, memory, data, programHash, info)
  {
    OutputUnique(segmentInfo, memory, output);
  }

  /** get_fact_info; the program hash is given, or computed by the VM library, which may fail. It succeeds
      exactly when every step does. */
  method GetFactInfo(keccak: Hash, segmentInfo: Option<Segment>, memory: Memory, data: Option<OutputData>,
                     programHash: Option<nat>)
    returns (r: Result<Info, FactError>)
    ensures r.Ok? <==> exists info :: IsFact(keccak, segmentInfo, memory, data, programHash, info)
    ensures r.Ok? ==> IsFact(keccak, segmentInfo, memory, data, programHash, r.value)
    ensures r.Ok? ==> FactShows(keccak, programHash.value, r.value)
    ensures r.Err? ==> IsFactError(keccak, segmentInfo, memory, data, programHash, r.error)
    // These two checks of generate_merkle_root cannot fire here.
    ensures r.Err? ==> !IsOffsetError(r.error)
  {
    var output := GetProgramOutput(segmentInfo, memory);
    if output.Err? {
      return Err(output.error);
    }
    r := FactOfOutput(keccak, segmentInfo, memory, output.value, data, programHash);
    if r.Ok? {
      FactIsShown(keccak, programHash.value, r.value,
                  MerkleRoot(keccak, r.value.programOutput, r.value.topology).value);
    }
  }

  /** The steps behind the output. */
  method FactOfOutput(keccak: Hash, ghost segmentInfo: Option<Segment>, ghost memory: Memory, output: seq<nat>,
                      data: Option<OutputData>, programHash: Option<nat>) returns (r: Result<Info, FactError>)
    requires IsOutput(segmentInfo, memory, output)
    ensures r.Ok? <==> exists info :: IsFact(keccak, segmentInfo, memory, data, programHash, info)
    ensures r.Ok? ==> IsFact(keccak, segmentInfo, memory, data, programHash, r.value)
    ensures r.Err? ==> IsLaterError(keccak, output, data, programHash, r.error) && !IsOffsetError(r.error)
  {
    var topology := GetFactTopology(data, |output|);
    if topology.Err? {
      NoFact(keccak, segmentInfo, memory, data, programHash, output);
      return Err(topology.error);
    }
    if programHash.None? {
      NoFact(keccak, segmentInfo, memory, data, programHash, output);
      return Err(ProgramHashCompute);
    }
    var root := RootOfOutput(keccak, output, data.value, topology.value);
    if root.Err? {
      TopologyUnique(data, |output|, topology.value);
      NoFact(keccak, segmentInfo, memory, data, programHash, output);
      return Err(root.error);
    }
    var fact := keccak(FixedBe(programHash.value, WORD) + root.value.nodeHash);
    var info := Info(output, topology.value, fact);
    assert IsFact(keccak, segmentInfo, memory, data, programHash, info);
    r := Ok(info);
  }

  method RootOfOutput(keccak: Hash, output: seq<nat>, ghost data: OutputData, topology: Topology)
    returns (r: Result<FactNode, FactError>)
    requires IsTopology(Some(data), |output|, topology)
    ensures r == MerkleRoot(keccak, output, topology)
    ensures r.Err? ==> !IsOffsetError(r.error)
  {
    SizesCoverOutput(topology.pageSizes, data.pages, |output|);
    EndOffsetValidForTilings(keccak, output, topology);
    r := GenerateMerkleRoot(keccak, output, topology);
  }

  /** Equal facts come from the same program, output, pages and tree structure; or the strings hashed for
      the two facts differ and have the same digest; or two strings hashed for the trees defeat the hash. */
  lemma FactBinds(keccak: Hash, programA: nat, outputA: seq<nat>, topologyA: Topology, rootA: FactNode,
                  programB: nat, outputB: seq<nat>, topologyB: Topology, rootB: FactNode)
    returns (a: PageTree, b: PageTree, c: Option<Clash>)
    requires programA < Pow(256, WORD) && programB < Pow(256, WORD) && WordsFit(outputA) && WordsFit(outputB)
    requires MerkleRoot(keccak, outputA, topologyA) == Ok(rootA) && MerkleRoot(keccak, outputB, topologyB) == Ok(rootB)
    requires keccak(FactInput(programA, rootA)) == keccak(FactInput(programB, rootB))
    ensures Describes(a, outputA, topologyA) && Describes(b, outputB, topologyB)
    ensures c.None? ==>
              FactInput(programA, rootA) != FactInput(programB, rootB)
              || (programA == programB && outputA == outputB && topologyA.pageSizes == topologyB.pageSizes
                  && Ops(topologyA.treeStructure) == Ops(topologyB.treeStructure))
    ensures c.Some? ==> Defeats(keccak, c.value, Hashed(keccak, a, 0), Hashed(keccak, b, 0))
  {
    var x, y := FactInput(programA, rootA), FactInput(programB, rootB);
    a := AcceptedIsTree(keccak, outputA, topologyA);
    b := AcceptedIsTree(keccak, outputB, topologyB);
    if x != y {
      c := None;
    } else {
      SameInput(programA, rootA, programB, rootB);
      c := TreesBind(keccak, a, 0, b, 0);
    }
  }

  lemma SameInput(programA: nat, rootA: FactNode, programB: nat, rootB: FactNode)
    requires programA < Pow(256, WORD) && programB < Pow(256, WORD)
    requires FactInput(programA, rootA) == FactInput(programB, rootB)
    ensures programA == programB && rootA.nodeHash == rootB.nodeHash
  {
    var x, y := FactInput(programA, rootA), FactInput(programB, rootB);
    assert x[..WORD] == FixedBe(programA, WORD) && y[..WORD] == FixedBe(programB, WORD);
    assert x[WORD..] == rootA.nodeHash && y[WORD..] == rootB.nodeHash;
    FixedBeValue(programA, WORD);
    FixedBeValue(programB, WORD);
  }
}
