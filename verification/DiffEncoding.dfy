/** The word layout of a state diff blob and a parser for it. */
module DiffEncoding {
  import opened Outcomes
  import opened DaWord

  /** Two field elements that travel together: a storage write, a class, a nonce, a deployment. */
  datatype Pair = Pair(key: Felt, value: Felt)

  /** What the blob says about one contract. */
  datatype ContractUpdate = ContractUpdate(address: Felt, classHash: Option<Felt>, nonce: Felt, writes: seq<Pair>)

  function FeltFromLength(n: nat): (f: Felt)
    ensures n < STARK_PRIME ==> f == n
  {
    n % STARK_PRIME
  }

  /** The nonce and the number of writes fit the fields of the packed word. */
  predicate Packable(c: ContractUpdate) {
    c.nonce < TWO_64 && |c.writes| < TWO_64
  }

  predicate AllPackable(cs: seq<ContractUpdate>) {
    forall i | 0 <= i < |cs| :: Packable(cs[i])
  }

  /** The packed word as arithmetic on its fields. */
  function PackedWord(c: ContractUpdate): Felt
    requires Packable(c)
  {
    (if c.classHash.Some? then TWO_128 else 0) + c.nonce * TWO_64 + |c.writes|
  }

  function Flatten(ps: seq<Pair>): seq<Felt> {
    if ps == [] then [] else [ps[0].key, ps[0].value] + Flatten(ps[1..])
  }

  /** The class hash, if any, and the writes. */
  function EncodeBody(c: ContractUpdate): seq<Felt> {
    (match c.classHash case Some(h) => [h] case None => []) + Flatten(c.writes)
  }

  function EncodeContract(c: ContractUpdate): seq<Felt>
    requires Packable(c)
  {
    [c.address, PackedWord(c)] + EncodeBody(c)
  }

  function EncodeContracts(cs: seq<ContractUpdate>): seq<Felt>
    requires AllPackable(cs)
  {
    if cs == [] then [] else EncodeContract(cs[0]) + EncodeContracts(cs[1..])
  }

  /** Contract count, contracts, class count, classes. */
  function Encode(cs: seq<ContractUpdate>, classes: seq<Pair>): seq<Felt>
    requires AllPackable(cs)
  {
    [FeltFromLength(|cs|)] + EncodeContracts(cs) + ([FeltFromLength(|classes|)] + Flatten(classes))
  }

  // ---- The parser --------------------------------------------------------------------------

  datatype Parsed<T> = Parsed(value: T, rest: seq<Felt>)

  function ParsePairs(ws: seq<Felt>, count: nat): Option<Parsed<seq<Pair>>> {
    if count == 0 then Some(Parsed([], ws))
    else if |ws| < 2 then None
    else
      match ParsePairs(ws[2..], count - 1)
      case None => None
      case Some(p) => Some(Parsed([Pair(ws[0], ws[1])] + p.value, p.rest))
  }

  /** The words behind address and packed word, for the fields found in the latter. */
  function ParseBody(address: Felt, fields: Fields, ws: seq<Felt>): Option<Parsed<ContractUpdate>>
    requires fields.nonce < TWO_64
  {
    if fields.classFlag && |ws| < 1 then None
    else
      match ParsePairs(if fields.classFlag then ws[1..] else ws, fields.numChanges)
      case None => None
      case Some(p) =>
        var classHash := if fields.classFlag then Some(ws[0]) else None;
        Some(Parsed(ContractUpdate(address, classHash, fields.nonce, p.value), p.rest))
  }

  function ParseContract(ws: seq<Felt>): Option<Parsed<ContractUpdate>> {
    if |ws| < 2 then None else ParseBody(ws[0], Unpack(ws[1]), ws[2..])
  }

  function ParseContracts(ws: seq<Felt>, count: nat): Option<Parsed<seq<ContractUpdate>>>
    decreases count
  {
    if count == 0 then Some(Parsed([], ws))
    else
      match ParseContract(ws)
      case None => None
      case Some(c) =>
        match ParseContracts(c.rest, count - 1)
        case None => None
        case Some(cs) => Some(Parsed([c.value] + cs.value, cs.rest))
  }

  datatype Diff = Diff(contracts: seq<ContractUpdate>, classes: seq<Pair>)

  function ParseClasses(contracts: seq<ContractUpdate>, ws: seq<Felt>): Option<Parsed<Diff>> {
    if |ws| < 1 then None
    else
      match ParsePairs(ws[1..], ws[0])
      case None => None
      case Some(cl) => Some(Parsed(Diff(contracts, cl.value), cl.rest))
  }

  /** Driven only by the counts, flags and change numbers found in the words. */
  function Parse(ws: seq<Felt>): Option<Parsed<Diff>> {
    if |ws| < 1 then None
    else
      match ParseContracts(ws[1..], ws[0])
      case None => None
      case Some(cs) => ParseClasses(cs.value, cs.rest)
  }

  // ---- Round trip --------------------------------------------------------------------------

  lemma {:induction false} ParsePairsFlatten(ps: seq<Pair>, rest: seq<Felt>)
    ensures ParsePairs(Flatten(ps) + rest, |ps|) == Some(Parsed(ps, rest))
  {
    if ps == [] {
      assert Flatten(ps) + rest == rest;
    } else {
      var ws := Flatten(ps) + rest;
      ParsePairsFlatten(ps[1..], rest);
      assert ws[2..] == Flatten(ps[1..]) + rest;
      ParsePairsCons(ws, ps, ps[1..], ws[2..], rest);
    }
  }

  lemma ParsePairsCons(ws: seq<Felt>, ps: seq<Pair>, tail: seq<Pair>, behind: seq<Felt>, rest: seq<Felt>)
    requires ps != [] && ps[1..] == tail && |ws| >= 2 && ws[2..] == behind
    requires ws[0] == ps[0].key && ws[1] == ps[0].value && ParsePairs(behind, |tail|) == Some(Parsed(tail, rest))
    ensures ParsePairs(ws, |ps|) == Some(Parsed(ps, rest))
  {
    assert [ps[0]] + tail == ps;
  }

  lemma ParseEncodedBody(c: ContractUpdate, rest: seq<Felt>)
    requires Packable(c)
    ensures ParseBody(c.address, Fields(c.classHash.Some?, c.nonce, |c.writes|), EncodeBody(c) + rest)
         == Some(Parsed(c, rest))
  {
    var ws := EncodeBody(c) + rest;
    ParsePairsFlatten(c.writes, rest);
    if c.classHash.Some? {
      assert ws[1..] == Flatten(c.writes) + rest;
    } else {
      assert ws == Flatten(c.writes) + rest;
    }
  }

  lemma UnpackPackedWord(c: ContractUpdate)
    requires Packable(c)
    ensures Unpack(PackedWord(c)) == Fields(c.classHash.Some?, c.nonce, |c.writes|)
  {
    UnpackSum(if c.classHash.Some? then 1 else 0, c.nonce, |c.writes|);
  }

  lemma ParseEncodedContract(c: ContractUpdate, rest: seq<Felt>)
    requires Packable(c)
    ensures ParseContract(EncodeContract(c) + rest) == Some(Parsed(c, rest))
  {
    var ws := EncodeContract(c) + rest;
    UnpackPackedWord(c);
    ParseEncodedBody(c, rest);
    assert ws[2..] == EncodeBody(c) + rest;
  }

  lemma ParseContractsStep(ws: seq<Felt>, count: nat, c: Parsed<ContractUpdate>, cs: Parsed<seq<ContractUpdate>>)
    requires count > 0 && ParseContract(ws) == Some(c) && ParseContracts(c.rest, count - 1) == Some(cs)
    ensures ParseContracts(ws, count) == Some(Parsed([c.value] + cs.value, cs.rest))
  {}

  lemma {:induction false} ParseEncodedContracts(cs: seq<ContractUpdate>, rest: seq<Felt>)
    requires AllPackable(cs)
    ensures ParseContracts(EncodeContracts(cs) + rest, |cs|) == Some(Parsed(cs, rest))
  {
    if cs == [] {
      assert EncodeContracts(cs) + rest == rest;
    } else {
      var tail := EncodeContracts(cs[1..]) + rest;
      ParseEncodedContracts(cs[1..], rest);
      assert EncodeContracts(cs) + rest == EncodeContract(cs[0]) + tail;
      ParseEncodedContract(cs[0], tail);
      ParseContractsStep(EncodeContracts(cs) + rest, |cs|, Parsed(cs[0], tail), Parsed(cs[1..], rest));
      assert [cs[0]] + cs[1..] == cs;
    }
  }

  /** The encoding is self-delimiting: whatever follows it, the parser returns the diff and stops there. */
  lemma ParseEncoded(cs: seq<ContractUpdate>, classes: seq<Pair>, rest: seq<Felt>)
    requires AllPackable(cs) && |cs| < STARK_PRIME && |classes| < STARK_PRIME
    ensures Parse(Encode(cs, classes) + rest) == Some(Parsed(Diff(cs, classes), rest))
  {
    var ws := Encode(cs, classes) + rest;
    var tail := [FeltFromLength(|classes|)] + (Flatten(classes) + rest);
    assert ws[1..] == EncodeContracts(cs) + tail;
    ParseEncodedContracts(cs, tail);
    assert tail[1..] == Flatten(classes) + rest;
    ParsePairsFlatten(classes, rest);
  }

  // ---- A cut encoding does not parse ---------------------------------------------------------

  lemma {:induction false} ParsePairsExtends(ws: seq<Felt>, count: nat, more: seq<Felt>)
    requires ParsePairs(ws, count).Some?
    ensures ParsePairs(ws + more, count)
         == Some(Parsed(ParsePairs(ws, count).value.value, ParsePairs(ws, count).value.rest + more))
  {
    if count != 0 {
      ParsePairsExtends(ws[2..], count - 1, more);
      assert (ws + more)[2..] == ws[2..] + more;
    }
  }

  lemma ParseBodyExtends(address: Felt, fields: Fields, ws: seq<Felt>, more: seq<Felt>)
    requires fields.nonce < TWO_64 && ParseBody(address, fields, ws).Some?
    ensures var p := ParseBody(address, fields, ws).value;
            ParseBody(address, fields, ws + more) == Some(Parsed(p.value, p.rest + more))
  {
    if fields.classFlag {
      ParsePairsExtends(ws[1..], fields.numChanges, more);
      assert (ws + more)[1..] == ws[1..] + more;
    } else {
      ParsePairsExtends(ws, fields.numChanges, more);
    }
  }

  lemma ParseContractExtends(ws: seq<Felt>, more: seq<Felt>)
    requires ParseContract(ws).Some?
    ensures ParseContract(ws + more)
         == Some(Parsed(ParseContract(ws).value.value, ParseContract(ws).value.rest + more))
  {
    ParseBodyExtends(ws[0], Unpack(ws[1]), ws[2..], more);
    assert (ws + more)[2..] == ws[2..] + more;
  }

  lemma {:induction false} ParseContractsExtends(ws: seq<Felt>, count: nat, more: seq<Felt>)
    requires ParseContracts(ws, count).Some?
    ensures var p := ParseContracts(ws, count).value;
            ParseContracts(ws + more, count) == Some(Parsed(p.value, p.rest + more))
    decreases count
  {
    if count != 0 {
      var c := ParseContract(ws).value;
      var cs := ParseContracts(c.rest, count - 1).value;
      ParseContractExtends(ws, more);
      ParseContractsExtends(c.rest, count - 1, more);
      ParseContractsStep(ws + more, count, Parsed(c.value, c.rest + more), Parsed(cs.value, cs.rest + more));
    }
  }

  lemma ParseClassesExtends(contracts: seq<ContractUpdate>, ws: seq<Felt>, more: seq<Felt>)
    requires ParseClasses(contracts, ws).Some?
    ensures var p := ParseClasses(contracts, ws).value;
            ParseClasses(contracts, ws + more) == Some(Parsed(p.value, p.rest + more))
  {
    assert (ws + more)[1..] == ws[1..] + more;
    ParsePairsExtends(ws[1..], ws[0], more);
  }

  /** Words behind the parsed part do not change what is parsed. */
  lemma ParseExtends(ws: seq<Felt>, more: seq<Felt>)
    requires Parse(ws).Some?
    ensures Parse(ws + more) == Some(Parsed(Parse(ws).value.value, Parse(ws).value.rest + more))
  {
    var cs := ParseContracts(ws[1..], ws[0]).value;
    assert (ws + more)[1..] == ws[1..] + more;
    ParseContractsExtends(ws[1..], ws[0], more);
    ParseClassesExtends(cs.value, cs.rest, more);
  }

  /** A proper prefix of an encoding is rejected. */
  lemma CutEncodingRejected(cs: seq<ContractUpdate>, classes: seq<Pair>, m: nat)
    requires AllPackable(cs) && |cs| < STARK_PRIME && |classes| < STARK_PRIME
    requires m < |Encode(cs, classes)|
    ensures Parse(Encode(cs, classes)[..m]) == None
  {
    var ws := Encode(cs, classes);
    var front, back := ws[..m], ws[m..];
    ParseEncoded(cs, classes, []);
    assert ws + [] == ws && front + back == ws;
    if Parse(front).Some? {
      ParseExtends(front, back);
    }
  }

  // ---- Size --------------------------------------------------------------------------------

  function ContractSize(c: ContractUpdate): nat {
    2 + (if c.classHash.Some? then 1 else 0) + 2 * |c.writes|
  }

  function ContractsSize(cs: seq<ContractUpdate>): nat {
    if cs == [] then 0 else ContractSize(cs[0]) + ContractsSize(cs[1..])
  }

  lemma {:induction false} FlattenSize(ps: seq<Pair>)
    ensures |Flatten(ps)| == 2 * |ps|
  {
    if ps != [] {
      FlattenSize(ps[1..]);
    }
  }

  lemma {:induction false} ContractsEncodedSize(cs: seq<ContractUpdate>)
    requires AllPackable(cs)
    ensures |EncodeContracts(cs)| == ContractsSize(cs) && ContractsSize(cs) >= 2 * |cs|
  {
    if cs != [] {
      FlattenSize(cs[0].writes);
      ContractsEncodedSize(cs[1..]);
    }
  }

  /** 1 + the sum of (2 + flag + 2 * writes) + 1 + 2 * classes. */
  lemma EncodedSize(cs: seq<ContractUpdate>, classes: seq<Pair>)
    requires AllPackable(cs)
    ensures |Encode(cs, classes)| == 1 + ContractsSize(cs) + 1 + 2 * |classes|
    ensures |cs| <= |Encode(cs, classes)| && |classes| <= |Encode(cs, classes)|
  {
    ContractsEncodedSize(cs);
    FlattenSize(classes);
  }

  // ---- Where every word is ------------------------------------------------------------------

  /** From position `at` on, key and value of every pair. */
  predicate PairsAt(words: seq<Felt>, ps: seq<Pair>, at: nat) {
    at + 2 * |ps| <= |words|
    && forall i :: 0 <= i < |ps| ==> words[at + 2 * i] == ps[i].key && words[at + 2 * i + 1] == ps[i].value
  }

  /** The words of a contract from position `at` up to `next`: its address; class flag, nonce and number of
      writes in one word; the class hash, if any; and its writes. */
  predicate ContractAt(words: seq<Felt>, c: ContractUpdate, at: nat, next: nat) {
    var flag := if c.classHash.Some? then 1 else 0;
    next == at + 2 + flag + 2 * |c.writes| && next <= |words|
    && words[at] == c.address
    && words[at + 1] == flag * 0x1_00000000_00000000_00000000_00000000 + c.nonce * 0x1_00000000_00000000 + |c.writes|
    && (c.classHash.Some? ==> words[at + 2] == c.classHash.value)
    && PairsAt(words, c.writes, at + 2 + flag)
  }

  /** The contracts one after the other, up to position end. */
  predicate ContractsAt(words: seq<Felt>, cs: seq<ContractUpdate>, at: seq<nat>, end: nat) {
    |at| == |cs| + 1 && at[|cs|] == end && forall k :: 0 <= k < |cs| ==> ContractAt(words, cs[k], at[k], at[k + 1])
  }

  /** The number of contracts; the contracts one after the other, contract k at at[k]; the number of classes;
      and the classes. */
  predicate LaidOut(words: seq<Felt>, cs: seq<ContractUpdate>, classes: seq<Pair>, at: seq<nat>) {
    1 + 2 * |classes| <= |words| && ContractsAt(words, cs, at, |words| - 1 - 2 * |classes|) && at[0] == 1
    && words[0] == |cs| % STARK_PRIME
    && words[at[|cs|]] == |classes| % STARK_PRIME
    && PairsAt(words, classes, at[|cs|] + 1)
  }

  lemma {:induction false} FlattenAt(words: seq<Felt>, pre: seq<Felt>, ps: seq<Pair>, post: seq<Felt>)
    requires words == pre + Flatten(ps) + post
    ensures PairsAt(words, ps, |pre|) && |words| == |pre| + 2 * |ps| + |post|
    decreases |ps|
  {
    if ps != [] {
      var two := [ps[0].key, ps[0].value];
      assert words == pre + two + Flatten(ps[1..]) + post;
      FlattenAt(words, pre + two, ps[1..], post);
      PairsCons(words, ps, ps[1..], |pre|);
    }
  }

  lemma PairsCons(words: seq<Felt>, ps: seq<Pair>, rest: seq<Pair>, at: nat)
    requires ps != [] && ps[1..] == rest && PairsAt(words, rest, at + 2)
    requires words[at] == ps[0].key && words[at + 1] == ps[0].value
    ensures PairsAt(words, ps, at)
  {
    forall i | 0 <= i < |ps| ensures words[at + 2 * i] == ps[i].key && words[at + 2 * i + 1] == ps[i].value {
      if i > 0 {
        assert rest[i - 1] == ps[i];
        assert words[at + 2 + 2 * (i - 1)] == rest[i - 1].key && words[at + 2 + 2 * (i - 1) + 1] == rest[i - 1].value;
      }
    }
  }

  lemma EncodedContractAt(words: seq<Felt>, pre: seq<Felt>, c: ContractUpdate, post: seq<Felt>)
    requires Packable(c) && words == pre + EncodeContract(c) + post
    ensures ContractAt(words, c, |pre|, |pre| + |EncodeContract(c)|)
  {
    var class_ := match c.classHash case Some(h) => [h] case None => [];
    var head := pre + [c.address, PackedWord(c)] + class_;
    assert words == head + Flatten(c.writes) + post;
    FlattenAt(words, head, c.writes, post);
    assert words[..|head|] == head;
    assert words[|pre|] == head[|pre|] && words[|pre| + 1] == head[|pre| + 1];
    if c.classHash.Some? {
      assert words[|pre| + 2] == head[|pre| + 2];
    }
  }

  lemma ContractsCons(words: seq<Felt>, cs: seq<ContractUpdate>, rest: seq<ContractUpdate>, at: seq<nat>,
                      behind: seq<nat>, end: nat)
    requires cs != [] && cs[1..] == rest && at != [] && at[1..] == behind && ContractsAt(words, rest, behind, end)
    requires ContractAt(words, cs[0], at[0], behind[0])
    ensures ContractsAt(words, cs, at, end)
  {
    forall k | 0 <= k < |cs| ensures ContractAt(words, cs[k], at[k], at[k + 1]) {
      if k > 0 {
        assert rest[k - 1] == cs[k] && at[k] == behind[k - 1] && at[k + 1] == behind[k];
      }
    }
  }

  lemma Regroup(a: seq<Felt>, b: seq<Felt>, c: seq<Felt>, d: seq<Felt>)
    ensures a + (b + c) + d == a + b + (c + d) == a + b + c + d
  {
  }

  lemma {:induction false} EncodedContractsAt(words: seq<Felt>, pre: seq<Felt>, cs: seq<ContractUpdate>, post: seq<Felt>)
    returns (at: seq<nat>)
    requires AllPackable(cs) && words == pre + EncodeContracts(cs) + post
    ensures ContractsAt(words, cs, at, |words| - |post|) && at[0] == |pre|
    decreases |cs|
  {
    if cs == [] {
      at := [|pre|];
    } else {
      var first, rest := EncodeContract(cs[0]), EncodeContracts(cs[1..]);
      Regroup(pre, first, rest, post);
      EncodedContractAt(words, pre, cs[0], rest + post);
      var behind := EncodedContractsAt(words, pre + first, cs[1..], post);
      at := [|pre|] + behind;
      ContractsCons(words, cs, cs[1..], at, behind, |words| - |post|);
    }
  }

  /** Every word of an encoding has its place. */
  lemma EncodedLaidOut(cs: seq<ContractUpdate>, classes: seq<Pair>) returns (at: seq<nat>)
    requires AllPackable(cs)
    ensures LaidOut(Encode(cs, classes), cs, classes, at)
  {
    var words := Encode(cs, classes);
    var count, tail := [FeltFromLength(|cs|)], [FeltFromLength(|classes|)] + Flatten(classes);
    assert words == count + EncodeContracts(cs) + tail;
    at := EncodedContractsAt(words, count, cs, tail);
    var front := count + EncodeContracts(cs) + [FeltFromLength(|classes|)];
    assert words == front + Flatten(classes) + [];
    FlattenAt(words, front, classes, []);
    assert words[|front| - 1] == front[|front| - 1];
  }
}
