/** What the lists of a state diff say about each contract, told from the lists alone. */
module DiffMeaning {
  import opened Outcomes
  import opened DaWord
  import opened DiffEncoding
  import opened StateDiffBlob

  /** The diff says something about the contract: a storage diff, a nonce or a deployment. */
  predicate IsTouched(sd: StateDiff, address: Felt) {
    (exists d :: d in sd.storageDiffs && d.address == address)
    || (exists p :: p in sd.nonces && p.key == address)
    || (exists p :: p in sd.deployedContracts && p.key == address)
  }

  /** The class a contract is deployed with; else the one that replaces its class; else none. */
  ghost predicate HasClass(sd: StateDiff, address: Felt, classHash: Option<Felt>) {
    forall h: Felt ::
      classHash == Some(h) <==>
      Pair(address, h) in sd.deployedContracts
      || ((forall p :: p in sd.deployedContracts ==> p.key != address) && Pair(address, h) in sd.replacedClasses)
  }

  predicate HasWrites(sd: StateDiff, address: Felt) {
    exists d :: d in sd.storageDiffs && d.address == address && d.entries != []
  }

  predicate NonceListed(sd: StateDiff, address: Felt) {
    exists p :: p in sd.nonces && p.key == address
  }

  /** The listed nonce; else the node's, when there are writes and the address is not one; else zero. */
  predicate HasNonce(sd: StateDiff, lookup: Felt -> Option<Felt>, address: Felt, nonce: Felt) {
    if NonceListed(sd, address) then Pair(address, nonce) in sd.nonces
    else if HasWrites(sd, address) && address != 1 then lookup(address) == Some(nonce)
    else nonce == 0
  }

  /** The node is asked for a nonce exactly where the diff has writes but no nonce; address one is exempt. */
  predicate NonceFound(sd: StateDiff, lookup: Felt -> Option<Felt>, address: Felt) {
    NonceListed(sd, address) || !HasWrites(sd, address) || address == 1 || lookup(address).Some?
  }

  /** Every nonce the code will ask the node for is available. */
  ghost predicate AllNoncesFound(sd: StateDiff, lookup: Felt -> Option<Felt>) {
    forall a: Felt :: IsTouched(sd, a) ==> NonceFound(sd, lookup, a)
  }

  /** The contract has a nonce below 2^192, or below 2^191 when it has a class. */
  ghost predicate WordFits(sd: StateDiff, lookup: Felt -> Option<Felt>, address: Felt) {
    exists nonce: Felt, classHash: Option<Felt> ::
      HasNonce(sd, lookup, address, nonce) && HasClass(sd, address, classHash)
      && nonce < if classHash.Some? then 0x8000000000000000_0000000000000000_0000000000000000
                 else 0x1_0000000000000000_0000000000000000_0000000000000000
  }

  predicate AscendingKeys(ps: seq<Pair>) {
    forall i, j :: 0 <= i < j < |ps| ==> ps[i].key < ps[j].key
  }

  /** c says about its contract what the lists say: class, nonce, and exactly its writes, by ascending key. */
  ghost predicate IsUpdateOf(c: ContractUpdate, sd: StateDiff, lookup: Felt -> Option<Felt>) {
    HasClass(sd, c.address, c.classHash)
    && HasNonce(sd, lookup, c.address, c.nonce)
    && AscendingKeys(c.writes)
    && forall p :: p in c.writes <==> exists d :: d in sd.storageDiffs && d.address == c.address && p in d.entries
  }

  /** One update per touched contract, by ascending address. */
  ghost predicate IsCanonical(cs: seq<ContractUpdate>, sd: StateDiff, lookup: Felt -> Option<Felt>) {
    (forall i, j :: 0 <= i < j < |cs| ==> cs[i].address < cs[j].address)
    && (forall a: Felt :: (exists c :: c in cs && c.address == a) <==> IsTouched(sd, a))
    && forall c :: c in cs ==> IsUpdateOf(c, sd, lookup)
  }

  /** The declared classes, each once, by ascending hash. */
  ghost predicate AreClasses(classes: seq<Pair>, sd: StateDiff) {
    AscendingKeys(classes) && multiset(classes) == multiset(sd.declaredClasses)
  }
}
