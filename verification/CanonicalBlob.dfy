/** What the blob words of a state diff mean, and that they do not depend on the order of its lists. */
module CanonicalBlob {
  import opened Outcomes
  import opened SortedLists
  import opened DaWord
  import opened DiffEncoding
  import opened StateDiffBlob
  import opened DiffMeaning

  /** Each address, key and class occurs once in its list. */
  predicate DistinctDiff(sd: StateDiff) {
    && DistinctBy(sd.storageDiffs, DiffKey)
    && (forall i | 0 <= i < |sd.storageDiffs| :: DistinctBy(sd.storageDiffs[i].entries, PairKey))
    && DistinctBy(sd.declaredClasses, PairKey)
    && DistinctBy(sd.deployedContracts, PairKey)
    && DistinctBy(sd.replacedClasses, PairKey)
    && DistinctBy(sd.nonces, PairKey)
  }

  /** Nonces are 64-bit, and lists have 64-bit lengths. */
  ghost predicate SmallDiff(sd: StateDiff, lookup: Felt -> Option<Felt>) {
    && (forall i | 0 <= i < |sd.nonces| :: sd.nonces[i].value < TWO_64)
    && (forall a: Felt :: lookup(a).Some? ==> lookup(a).value < TWO_64)
    && (forall i | 0 <= i < |sd.storageDiffs| :: |sd.storageDiffs[i].entries| < TWO_64)
  }

  /** The contracts the diff says anything about. */
  function Touched(sd: StateDiff): set<Felt> {
    Addresses(sd.storageDiffs) + Keys(sd.nonces) + Keys(sd.deployedContracts)
  }

  /** The writes listed for an address. */
  function EntriesOf(ds: seq<StorageDiff>, address: Felt): seq<Pair> {
    if ds == [] then []
    else if ds[0].address == address then ds[0].entries
    else EntriesOf(ds[1..], address)
  }

  /** What the loop's maps and lookups give for c's contract. */
  ghost predicate IsEmitted(c: ContractUpdate, sd: StateDiff, lookup: Felt -> Option<Felt>) {
    var writes := EntriesOf(sd.storageDiffs, c.address);
    var nonce := NonceOf(ContextOf(sd, lookup), StorageDiff(c.address, writes));
    && c.classHash == ClassOf(ContextOf(sd, lookup), c.address)
    && nonce.Ok? && c.nonce == NonceOrZero(nonce.value)
    && StrictlySortedBy(c.writes, PairKey) && multiset(c.writes) == multiset(writes)
  }

  function UpdateKey(c: ContractUpdate): nat {
    c.address
  }

  function UpdateAddresses(cs: seq<ContractUpdate>): set<Felt> {
    set i | 0 <= i < |cs| :: cs[i].address
  }

  ghost predicate AreEmitted(cs: seq<ContractUpdate>, sd: StateDiff, lookup: Felt -> Option<Felt>) {
    && StrictlySortedBy(cs, UpdateKey)
    && UpdateAddresses(cs) == Touched(sd)
    && (forall i | 0 <= i < |cs| :: IsEmitted(cs[i], sd, lookup))
  }

  // ---- The loop emits the encoding of one update per diff --------------------------------------

  function ToUpdate(ctx: Context, d: StorageDiff): ContractUpdate
    requires NonceOf(ctx, d).Ok?
  {
    ContractUpdate(d.address, ClassOf(ctx, d.address), NonceOrZero(NonceOf(ctx, d).value),
                   SortBy(d.entries, PairKey))
  }

  /** The nonce and the number of writes of d fit their fields. */
  predicate SmallAt(ctx: Context, d: StorageDiff) {
    && |d.entries| < TWO_64
    && (NonceOf(ctx, d).Ok? ==> NonceOrZero(NonceOf(ctx, d).value) < TWO_64)
  }

  predicate SmallContext(ctx: Context, ds: seq<StorageDiff>) {
    forall i | 0 <= i < |ds| :: SmallAt(ctx, ds[i])
  }

  predicate NoncesFound(ctx: Context, ds: seq<StorageDiff>) {
    forall i | 0 <= i < |ds| :: NonceOf(ctx, ds[i]).Ok?
  }

  function ToUpdates(ctx: Context, ds: seq<StorageDiff>): (cs: seq<ContractUpdate>)
    requires NoncesFound(ctx, ds)
    ensures |cs| == |ds|
    ensures forall i | 0 <= i < |ds| :: cs[i] == ToUpdate(ctx, ds[i])
  {
    seq(|ds|, (i: nat) requires i < |ds| => ToUpdate(ctx, ds[i]))
  }

  lemma UpdatePackable(ctx: Context, d: StorageDiff)
    requires SmallAt(ctx, d) && NonceOf(ctx, d).Ok?
    ensures Packable(ToUpdate(ctx, d)) && |ToUpdate(ctx, d).writes| == |d.entries|
  {
    SortByCorrect(d.entries, PairKey);
  }

  lemma UpdatesPackable(ctx: Context, ds: seq<StorageDiff>)
    requires SmallContext(ctx, ds) && NoncesFound(ctx, ds)
    ensures AllPackable(ToUpdates(ctx, ds))
  {
    forall i | 0 <= i < |ds| ensures Packable(ToUpdates(ctx, ds)[i]) {
      UpdatePackable(ctx, ds[i]);
    }
  }

  lemma WordsEncode(d: StorageDiff, c: ContractUpdate)
    requires Packable(c) && c.address == d.address && c.writes == SortBy(d.entries, PairKey)
    ensures WordsWith(d, PackedWord(c), c.classHash) == EncodeContract(c)
  {
    var head, class_ := [c.address, PackedWord(c)], match c.classHash case Some(h) => [h] case None => [];
    assert head + class_ + Flatten(c.writes) == head + (class_ + Flatten(c.writes));
  }

  lemma PackedUpdate(c: ContractUpdate, nonce: Option<Felt>, count: U64)
    requires Packable(c) && c.nonce == NonceOrZero(nonce) && count == |c.writes|
    ensures Pack(c.classHash.Some?, nonce, count) == Ok(PackedWord(c))
  {
    PackValue(c.classHash.Some?, nonce, count);
  }

  lemma SmallLength(n: nat)
    requires n < TWO_64
    ensures LengthAsU64(n) == n
  {
  }

  lemma ContractWordsEncode(ctx: Context, d: StorageDiff)
    requires SmallAt(ctx, d) && NonceOf(ctx, d).Ok?
    ensures Packable(ToUpdate(ctx, d))
    ensures ContractWords(ctx, d) == Ok(EncodeContract(ToUpdate(ctx, d)))
  {
    var c := ToUpdate(ctx, d);
    UpdatePackable(ctx, d);
    SmallLength(|d.entries|);
    PackedUpdate(c, NonceOf(ctx, d).value, LengthAsU64(|d.entries|));
    WordsEncode(d, c);
  }

  /** The two contexts answer alike for every contract of ds. */
  ghost predicate Agree(a: Context, b: Context, ds: seq<StorageDiff>) {
    forall i | 0 <= i < |ds| ::
      NonceOf(a, ds[i]) == NonceOf(b, ds[i]) && ClassOf(a, ds[i].address) == ClassOf(b, ds[i].address)
  }

  lemma AgreeWithoutNonce(full: Context, ctx: Context, ds: seq<StorageDiff>)
    requires ds != [] && DistinctBy(ds, DiffKey) && Agree(full, ctx, ds)
    ensures Agree(full, WithoutNonce(ctx, ds[0].address), ds[1..])
  {
    var rest := ds[1..];
    forall i | 0 <= i < |rest|
      ensures NonceOf(WithoutNonce(ctx, ds[0].address), rest[i]) == NonceOf(ctx, rest[i])
    {
      assert DiffKey(ds[0]) != DiffKey(ds[i + 1]);
    }
  }

  /** With distinct addresses, taking nonces out of the map is invisible, and the loop emits the encoding. */
  lemma {:induction false} EmitEncodes(full: Context, ctx: Context, ds: seq<StorageDiff>, acc: seq<Felt>)
    requires DistinctBy(ds, DiffKey) && SmallContext(full, ds) && Agree(full, ctx, ds) && NoncesFound(full, ds)
    ensures AllPackable(ToUpdates(full, ds))
    ensures Emit(ctx, ds, acc) == Ok(acc + EncodeContracts(ToUpdates(full, ds)))
    decreases |ds|
  {
    UpdatesPackable(full, ds);
    var cs := ToUpdates(full, ds);
    if ds == [] {
      assert acc + [] == acc;
    } else {
      var d, rest := ds[0], ds[1..];
      ContractWordsEncode(full, d);
      var ws := EncodeContract(cs[0]);
      assert ContractWords(ctx, d) == Ok(ws);
      AgreeWithoutNonce(full, ctx, ds);
      EmitEncodes(full, WithoutNonce(ctx, d.address), rest, acc + ws);
      assert cs[1..] == ToUpdates(full, rest);
      assert acc + ws + EncodeContracts(cs[1..]) == acc + EncodeContracts(cs);
    }
  }

  /** A nonce that cannot be found stops the loop with that error. */
  lemma {:induction false} EmitFails(full: Context, ctx: Context, ds: seq<StorageDiff>, acc: seq<Felt>)
    requires DistinctBy(ds, DiffKey) && SmallContext(full, ds) && Agree(full, ctx, ds) && !NoncesFound(full, ds)
    ensures Emit(ctx, ds, acc) == Err(NonceLookupFailed)
    decreases |ds|
  {
    var d, rest := ds[0], ds[1..];
    if NonceOf(full, d).Ok? {
      ContractWordsEncode(full, d);
      var ws := EncodeContract(ToUpdate(full, d));
      assert ContractWords(ctx, d) == Ok(ws);
      AgreeWithoutNonce(full, ctx, ds);
      assert !NoncesFound(full, rest);
      EmitFails(full, WithoutNonce(ctx, d.address), rest, acc + ws);
    }
  }

  /** The loop succeeds exactly when every contract has words. */
  lemma {:induction false} EmitOkIff(full: Context, ctx: Context, ds: seq<StorageDiff>, acc: seq<Felt>)
    requires DistinctBy(ds, DiffKey) && Agree(full, ctx, ds)
    ensures Emit(ctx, ds, acc).Ok? <==> forall i | 0 <= i < |ds| :: ContractWords(full, ds[i]).Ok?
    decreases |ds|
  {
    if ds != [] {
      var d, rest := ds[0], ds[1..];
      assert ContractWords(ctx, d) == ContractWords(full, d);
      assert forall i | 1 <= i < |ds| :: ds[i] == rest[i - 1];
      if ContractWords(full, d).Ok? {
        AgreeWithoutNonce(full, ctx, ds);
        EmitOkIff(full, WithoutNonce(ctx, d.address), rest, acc + ContractWords(full, d).value);
        assert forall i | 0 <= i < |rest| :: rest[i] == ds[i + 1];
      }
    }
  }

  // ---- From lists to meaning ---------------------------------------------------------------------

  lemma {:induction false} ToMapValues(ps: seq<Pair>)
    ensures ToMap(ps).Keys == Keys(ps)
    ensures forall k | k in ToMap(ps) :: Pair(k, ToMap(ps)[k]) in ps
  {
    if ps != [] {
      var front, last := ps[..|ps| - 1], ps[|ps| - 1];
      ToMapValues(front);
      assert ps == front + [last];
      assert forall i | 0 <= i < |front| :: front[i] == ps[i];
      forall k | k in Keys(ps) ensures k in Keys(front) + {last.key} {
        var i :| 0 <= i < |ps| && ps[i].key == k;
        assert i < |front| ==> front[i].key == k;
      }
      assert last.key in Keys(ps);
      forall k | k in Keys(front) ensures k in Keys(ps) {
        var i :| 0 <= i < |front| && front[i].key == k;
        assert ps[i].key == k;
      }
    }
  }

  lemma KeysPermuted(a: seq<Pair>, b: seq<Pair>)
    requires multiset(a) == multiset(b)
    ensures Keys(a) <= Keys(b)
  {
    forall k | k in Keys(a) ensures k in Keys(b) {
      var i :| 0 <= i < |a| && a[i].key == k;
      assert a[i] in multiset(b);
      var j :| 0 <= j < |b| && b[j] == a[i];
    }
  }

  lemma DistinctPairs(ps: seq<Pair>, p: Pair, q: Pair)
    requires DistinctBy(ps, PairKey) && p in ps && q in ps && p.key == q.key
    ensures p == q
  {
    var i :| 0 <= i < |ps| && ps[i] == p;
    var j :| 0 <= j < |ps| && ps[j] == q;
    assert i != j ==> PairKey(ps[i]) != PairKey(ps[j]);
  }

  /** With distinct keys, a map collects the same pairs from every permutation of a list. */
  lemma ToMapCanonical(a: seq<Pair>, b: seq<Pair>)
    requires DistinctBy(a, PairKey) && multiset(a) == multiset(b)
    ensures ToMap(a) == ToMap(b)
  {
    ToMapValues(a);
    ToMapValues(b);
    KeysPermuted(a, b);
    KeysPermuted(b, a);
    forall k | k in ToMap(a) ensures ToMap(a)[k] == ToMap(b)[k] {
      var p, q := Pair(k, ToMap(a)[k]), Pair(k, ToMap(b)[k]);
      assert q in multiset(a);
      DistinctPairs(a, p, q);
    }
  }

  lemma {:induction false} EntriesOfListed(ds: seq<StorageDiff>, i: nat)
    requires DistinctBy(ds, DiffKey) && i < |ds|
    ensures EntriesOf(ds, ds[i].address) == ds[i].entries
  {
    if i != 0 {
      assert DiffKey(ds[0]) != DiffKey(ds[i]);
      EntriesOfListed(ds[1..], i - 1);
    }
  }

  lemma {:induction false} EntriesOfUnlisted(ds: seq<StorageDiff>, address: Felt)
    requires address !in Addresses(ds)
    ensures EntriesOf(ds, address) == []
  {
    if ds != [] {
      assert ds[0].address in Addresses(ds);
      forall i | 0 <= i < |ds[1..]| ensures ds[1..][i].address != address {
        assert ds[i + 1].address in Addresses(ds);
      }
      EntriesOfUnlisted(ds[1..], address);
    }
  }

  /** The storage diffs after refactor_state_update. */
  function Refactored(sd: StateDiff, order: seq<Felt>): seq<StorageDiff> {
    sd.storageDiffs + EmptyDiffs(order)
  }

  lemma RefactoredDistinct(sd: StateDiff, order: seq<Felt>)
    requires DistinctDiff(sd) && Enumerates(order, NewAddresses(sd))
    ensures DistinctBy(Refactored(sd, order), DiffKey)
  {
    var old_, added, all := sd.storageDiffs, EmptyDiffs(order), Refactored(sd, order);
    assert forall i | 0 <= i < |order| :: order[i] in NewAddresses(sd);
    assert forall i | 0 <= i < |old_| :: old_[i].address in Addresses(old_);
    forall i, j | 0 <= i < j < |all| ensures DiffKey(all[i]) != DiffKey(all[j]) {
      if j < |old_| {
        assert DiffKey(old_[i]) != DiffKey(old_[j]);
      } else if i < |old_| {
        assert added[j - |old_|].address == order[j - |old_|];
      }
    }
  }

  /** Refactoring keeps addresses distinct and covers every touched contract with its own writes. */
  lemma RefactoredCovers(sd: StateDiff, order: seq<Felt>)
    requires DistinctDiff(sd) && Enumerates(order, NewAddresses(sd))
    ensures DistinctBy(Refactored(sd, order), DiffKey)
    ensures Addresses(Refactored(sd, order)) == Touched(sd)
    ensures forall d | d in Refactored(sd, order) ::
              d.entries == EntriesOf(sd.storageDiffs, d.address) && DistinctBy(d.entries, PairKey)
  {
    var old_, all := sd.storageDiffs, Refactored(sd, order);
    forall d | d in all
      ensures d.entries == EntriesOf(old_, d.address) && DistinctBy(d.entries, PairKey)
    {
      var i :| 0 <= i < |all| && all[i] == d;
      if i < |old_| {
        EntriesOfListed(old_, i);
      } else {
        assert d == StorageDiff(order[i - |old_|], []);
        assert order[i - |old_|] in NewAddresses(sd);
        EntriesOfUnlisted(old_, d.address);
      }
    }
    RefactoredDistinct(sd, order);
    RefactoredAddresses(sd, order);
  }

  lemma RefactoredAddresses(sd: StateDiff, order: seq<Felt>)
    requires Enumerates(order, NewAddresses(sd))
    ensures Addresses(Refactored(sd, order)) == Touched(sd)
  {
    var old_, all := sd.storageDiffs, Refactored(sd, order);
    forall a | a in Addresses(all) ensures a in Touched(sd) {
      var i :| 0 <= i < |all| && all[i].address == a;
      if i >= |old_| {
        assert a == order[i - |old_|];
        assert a in order;
      } else {
        assert old_[i].address == a;
      }
    }
    forall a | a in Touched(sd) ensures a in Addresses(all) {
      if a in Addresses(old_) {
        var i :| 0 <= i < |old_| && old_[i].address == a;
        assert all[i].address == a;
      } else {
        assert a in NewAddresses(sd);
        var i :| 0 <= i < |order| && order[i] == a;
        assert all[|old_| + i].address == a;
      }
    }
  }

  /** The sorted list the loop runs over, with what it needs to know about each diff. */
  lemma SortedDiffs(sd: StateDiff, order: seq<Felt>)
    requires DistinctDiff(sd) && Enumerates(order, NewAddresses(sd))
    ensures var ds := SortBy(Refactored(sd, order), DiffKey);
            && StrictlySortedBy(ds, DiffKey) && DistinctBy(ds, DiffKey)
            && Addresses(ds) == Touched(sd)
            && forall i | 0 <= i < |ds| ::
                 ds[i].entries == EntriesOf(sd.storageDiffs, ds[i].address) && DistinctBy(ds[i].entries, PairKey)
  {
    var all := Refactored(sd, order);
    var ds := SortBy(all, DiffKey);
    RefactoredCovers(sd, order);
    SortDistinct(all, DiffKey);
    SortByCorrect(all, DiffKey);
    assert DistinctBy(ds, DiffKey) by {
      forall i, j | 0 <= i < j < |ds| ensures DiffKey(ds[i]) != DiffKey(ds[j]) {}
    }
    AddressesPermuted(all, ds);
    AddressesPermuted(ds, all);
    forall i | 0 <= i < |ds| ensures ds[i] in all {
      assert ds[i] in multiset(ds);
    }
  }

  lemma SortedDiffsSmall(sd: StateDiff, lookup: Felt -> Option<Felt>, ds: seq<StorageDiff>)
    requires SmallDiff(sd, lookup)
    requires forall i | 0 <= i < |ds| :: ds[i].entries == EntriesOf(sd.storageDiffs, ds[i].address)
    ensures SmallContext(ContextOf(sd, lookup), ds)
  {
    forall i | 0 <= i < |ds| ensures SmallAt(ContextOf(sd, lookup), ds[i]) {
      EntriesSmall(sd, lookup, ds[i].address);
      NonceSmall(sd, lookup, ds[i]);
    }
  }

  lemma AddressesPermuted(a: seq<StorageDiff>, b: seq<StorageDiff>)
    requires multiset(a) == multiset(b)
    ensures Addresses(a) <= Addresses(b)
  {
    forall k | k in Addresses(a) ensures k in Addresses(b) {
      var i :| 0 <= i < |a| && a[i].address == k;
      assert a[i] in multiset(b);
      var j :| 0 <= j < |b| && b[j] == a[i];
    }
  }

  lemma {:induction false} EntriesBound(ds: seq<StorageDiff>, address: Felt)
    requires forall i | 0 <= i < |ds| :: |ds[i].entries| < TWO_64
    ensures |EntriesOf(ds, address)| < TWO_64
  {
    if ds != [] && ds[0].address != address {
      EntriesBound(ds[1..], address);
    }
  }

  lemma EntriesSmall(sd: StateDiff, lookup: Felt -> Option<Felt>, address: Felt)
    requires SmallDiff(sd, lookup)
    ensures |EntriesOf(sd.storageDiffs, address)| < TWO_64
  {
    EntriesBound(sd.storageDiffs, address);
  }

  lemma NonceSmall(sd: StateDiff, lookup: Felt -> Option<Felt>, d: StorageDiff)
    requires SmallDiff(sd, lookup)
    ensures NonceOf(ContextOf(sd, lookup), d).Ok? ==> NonceOrZero(NonceOf(ContextOf(sd, lookup), d).value) < TWO_64
  {
    ToMapValues(sd.nonces);
    var nonces := ToMap(sd.nonces);
    if d.address in nonces {
      var i :| 0 <= i < |sd.nonces| && sd.nonces[i] == Pair(d.address, nonces[d.address]);
      assert sd.nonces[i].value < TWO_64;
    }
  }

  // ---- What is emitted is what the lists say -----------------------------------------------------

  lemma KeyListed(ps: seq<Pair>, a: Felt)
    ensures a in Keys(ps) <==> exists p :: p in ps && p.key == a
  {
    if a in Keys(ps) {
      var i :| 0 <= i < |ps| && ps[i].key == a;
      assert ps[i] in ps;
    }
    if p :| p in ps && p.key == a {
      var i :| 0 <= i < |ps| && ps[i] == p;
    }
  }

  lemma AddressListed(ds: seq<StorageDiff>, a: Felt)
    ensures a in Addresses(ds) <==> exists d :: d in ds && d.address == a
  {
    if a in Addresses(ds) {
      var i :| 0 <= i < |ds| && ds[i].address == a;
      assert ds[i] in ds;
    }
    if d :| d in ds && d.address == a {
      var i :| 0 <= i < |ds| && ds[i] == d;
    }
  }

  lemma TouchedMeans(sd: StateDiff, a: Felt)
    ensures a in Touched(sd) <==> IsTouched(sd, a)
  {
    KeyListed(sd.nonces, a);
    KeyListed(sd.deployedContracts, a);
    AddressListed(sd.storageDiffs, a);
  }

  /** With distinct keys, the map gives for a key exactly the value listed with it. */
  lemma ListedValue(ps: seq<Pair>, a: Felt, v: Felt)
    requires DistinctBy(ps, PairKey)
    ensures Pair(a, v) in ps <==> a in ToMap(ps) && ToMap(ps)[a] == v
  {
    ToMapValues(ps);
    if Pair(a, v) in ps {
      KeyListed(ps, a);
      DistinctPairs(ps, Pair(a, v), Pair(a, ToMap(ps)[a]));
    }
  }

  lemma ClassMeans(sd: StateDiff, lookup: Felt -> Option<Felt>, a: Felt)
    requires DistinctDiff(sd)
    ensures HasClass(sd, a, ClassOf(ContextOf(sd, lookup), a))
  {
    ToMapValues(sd.deployedContracts);
    KeyListed(sd.deployedContracts, a);
    forall h: Felt
      ensures Pair(a, h) in sd.deployedContracts
         <==> a in ToMap(sd.deployedContracts) && ToMap(sd.deployedContracts)[a] == h
      ensures Pair(a, h) in sd.replacedClasses
         <==> a in ToMap(sd.replacedClasses) && ToMap(sd.replacedClasses)[a] == h
    {
      ListedValue(sd.deployedContracts, a, h);
      ListedValue(sd.replacedClasses, a, h);
    }
  }

  lemma ClassIsOne(sd: StateDiff, a: Felt, x: Option<Felt>, y: Option<Felt>)
    requires HasClass(sd, a, x) && HasClass(sd, a, y)
    ensures x == y
  {
    assert x.Some? ==> y == Some(x.value);
    assert y.Some? ==> x == Some(y.value);
  }

  lemma {:induction false} EntriesListed(ds: seq<StorageDiff>, a: Felt)
    requires DistinctBy(ds, DiffKey)
    ensures forall p :: p in EntriesOf(ds, a) <==> exists d :: d in ds && d.address == a && p in d.entries
    ensures EntriesOf(ds, a) != [] <==> exists d :: d in ds && d.address == a && d.entries != []
  {
    forall d | d in ds && d.address == a ensures d.entries == EntriesOf(ds, a) {
      var i :| 0 <= i < |ds| && ds[i] == d;
      EntriesOfListed(ds, i);
    }
    AddressListed(ds, a);
    if a !in Addresses(ds) {
      EntriesOfUnlisted(ds, a);
    }
  }

  lemma NonceMeans(sd: StateDiff, lookup: Felt -> Option<Felt>, a: Felt, n: Felt)
    requires DistinctDiff(sd)
    ensures var r := NonceOf(ContextOf(sd, lookup), StorageDiff(a, EntriesOf(sd.storageDiffs, a)));
            (r.Ok? <==> NonceFound(sd, lookup, a))
            && (HasNonce(sd, lookup, a, n) <==> r.Ok? && n == NonceOrZero(r.value))
  {
    ToMapValues(sd.nonces);
    KeyListed(sd.nonces, a);
    ListedValue(sd.nonces, a, n);
    EntriesListed(sd.storageDiffs, a);
  }

  lemma EntriesDistinct(sd: StateDiff, a: Felt)
    requires DistinctDiff(sd)
    ensures DistinctBy(EntriesOf(sd.storageDiffs, a), PairKey)
  {
    AddressListed(sd.storageDiffs, a);
    if a in Addresses(sd.storageDiffs) {
      var i :| 0 <= i < |sd.storageDiffs| && sd.storageDiffs[i].address == a;
      EntriesOfListed(sd.storageDiffs, i);
    } else {
      EntriesOfUnlisted(sd.storageDiffs, a);
    }
  }

  /** Lists with distinct keys and the same pairs are permutations of each other. */
  lemma SamePairs(a: seq<Pair>, b: seq<Pair>)
    requires DistinctBy(a, PairKey) && DistinctBy(b, PairKey) && forall p :: p in a <==> p in b
    ensures multiset(a) == multiset(b)
  {
    forall p ensures multiset(a)[p] == multiset(b)[p] {
      DistinctCount(a, PairKey, p);
      DistinctCount(b, PairKey, p);
      assert p in a <==> multiset(a)[p] > 0;
      assert p in b <==> multiset(b)[p] > 0;
    }
  }

  lemma WritesMean(sd: StateDiff, a: Felt, writes: seq<Pair>)
    requires DistinctDiff(sd)
    ensures StrictlySortedBy(writes, PairKey) && multiset(writes) == multiset(EntriesOf(sd.storageDiffs, a))
       <==> AscendingKeys(writes)
            && forall p :: p in writes <==> exists d :: d in sd.storageDiffs && d.address == a && p in d.entries
  {
    var entries := EntriesOf(sd.storageDiffs, a);
    EntriesListed(sd.storageDiffs, a);
    assert StrictlySortedBy(writes, PairKey) <==> AscendingKeys(writes);
    if multiset(writes) == multiset(entries) {
      forall p ensures p in writes <==> p in entries {
        assert p in writes <==> p in multiset(writes);
        assert p in entries <==> p in multiset(entries);
      }
    }
    if StrictlySortedBy(writes, PairKey) && forall p :: p in writes <==> p in entries {
      EntriesDistinct(sd, a);
      SamePairs(writes, entries);
    }
  }

  /** The loop's maps and lookups give exactly what the lists say. */
  lemma EmittedMeans(c: ContractUpdate, sd: StateDiff, lookup: Felt -> Option<Felt>)
    requires DistinctDiff(sd)
    ensures IsEmitted(c, sd, lookup) <==> IsUpdateOf(c, sd, lookup)
  {
    var emitted := ClassOf(ContextOf(sd, lookup), c.address);
    ClassMeans(sd, lookup, c.address);
    if HasClass(sd, c.address, c.classHash) {
      ClassIsOne(sd, c.address, c.classHash, emitted);
    }
    NonceMeans(sd, lookup, c.address, c.nonce);
    WritesMean(sd, c.address, c.writes);
  }

  lemma CanonicalMeans(cs: seq<ContractUpdate>, sd: StateDiff, lookup: Felt -> Option<Felt>)
    requires DistinctDiff(sd)
    ensures AreEmitted(cs, sd, lookup) <==> IsCanonical(cs, sd, lookup)
  {
    assert StrictlySortedBy(cs, UpdateKey) <==> forall i, j :: 0 <= i < j < |cs| ==> cs[i].address < cs[j].address;
    forall a: Felt
      ensures a in Touched(sd) <==> IsTouched(sd, a)
      ensures a in UpdateAddresses(cs) <==> exists c :: c in cs && c.address == a
    {
      TouchedMeans(sd, a);
      UpdateListed(cs, a);
    }
    forall c ensures IsEmitted(c, sd, lookup) <==> IsUpdateOf(c, sd, lookup) {
      EmittedMeans(c, sd, lookup);
    }
    EmittedListed(cs, sd, lookup);
    SameTouched(cs, sd);
  }

  lemma UpdateListed(cs: seq<ContractUpdate>, a: Felt)
    ensures a in UpdateAddresses(cs) <==> exists c :: c in cs && c.address == a
  {
    if a in UpdateAddresses(cs) {
      var i :| 0 <= i < |cs| && cs[i].address == a;
      assert cs[i] in cs;
    }
    if c :| c in cs && c.address == a {
      var i :| 0 <= i < |cs| && cs[i] == c;
    }
  }

  lemma EmittedListed(cs: seq<ContractUpdate>, sd: StateDiff, lookup: Felt -> Option<Felt>)
    ensures (forall i | 0 <= i < |cs| :: IsEmitted(cs[i], sd, lookup)) <==> forall c :: c in cs ==> IsEmitted(c, sd, lookup)
  {
    if forall i | 0 <= i < |cs| :: IsEmitted(cs[i], sd, lookup) {
      forall c | c in cs ensures IsEmitted(c, sd, lookup) {
        var i :| 0 <= i < |cs| && cs[i] == c;
      }
    }
    if forall c :: c in cs ==> IsEmitted(c, sd, lookup) {
      forall i | 0 <= i < |cs| ensures IsEmitted(cs[i], sd, lookup) {
        assert cs[i] in cs;
      }
    }
  }

  lemma SameTouched(cs: seq<ContractUpdate>, sd: StateDiff)
    ensures UpdateAddresses(cs) == Touched(sd) <==> forall a: Felt :: a in UpdateAddresses(cs) <==> a in Touched(sd)
  {
    if forall a: Felt :: a in UpdateAddresses(cs) <==> a in Touched(sd) {
      assert UpdateAddresses(cs) == Touched(sd);
    }
  }

  // ---- Main results --------------------------------------------------------------------------------

  lemma UpdatesEmitted(sd: StateDiff, lookup: Felt -> Option<Felt>, ds: seq<StorageDiff>)
    requires StrictlySortedBy(ds, DiffKey) && Addresses(ds) == Touched(sd)
    requires forall i | 0 <= i < |ds| ::
               ds[i].entries == EntriesOf(sd.storageDiffs, ds[i].address) && DistinctBy(ds[i].entries, PairKey)
    requires NoncesFound(ContextOf(sd, lookup), ds)
    ensures AreEmitted(ToUpdates(ContextOf(sd, lookup), ds), sd, lookup)
  {
    var cs := ToUpdates(ContextOf(sd, lookup), ds);
    forall i, j | 0 <= i < j < |cs| ensures UpdateKey(cs[i]) < UpdateKey(cs[j]) {
      assert DiffKey(ds[i]) < DiffKey(ds[j]);
    }
    forall a ensures a in UpdateAddresses(cs) <==> a in Addresses(ds) {
      if a in UpdateAddresses(cs) {
        var i :| 0 <= i < |cs| && cs[i].address == a;
        assert ds[i].address == a;
      }
      if a in Addresses(ds) {
        var i :| 0 <= i < |ds| && ds[i].address == a;
        assert cs[i].address == a;
      }
    }
    forall i | 0 <= i < |cs| ensures IsEmitted(cs[i], sd, lookup) {
      SortDistinct(ds[i].entries, PairKey);
      SortByCorrect(ds[i].entries, PairKey);
      assert ds[i] == StorageDiff(ds[i].address, EntriesOf(sd.storageDiffs, ds[i].address));
    }
  }

  /** The words are the encoding of what the loop emits. */
  lemma BlobEncodes(sd: StateDiff, order: seq<Felt>, lookup: Felt -> Option<Felt>) returns (cs: seq<ContractUpdate>)
    requires DistinctDiff(sd) && SmallDiff(sd, lookup) && Enumerates(order, NewAddresses(sd))
    requires AllNoncesFound(sd, lookup)
    ensures AreEmitted(cs, sd, lookup) && AllPackable(cs)
    ensures BlobWords(sd, order, lookup) == Ok(Encode(cs, SortBy(sd.declaredClasses, PairKey)))
  {
    var ds := SortBy(Refactored(sd, order), DiffKey);
    var ctx := ContextOf(sd, lookup);
    SortedDiffs(sd, order);
    SortedDiffsSmall(sd, lookup, ds);
    forall i | 0 <= i < |ds| ensures NonceOf(ctx, ds[i]).Ok? {
      assert ds[i].address in Addresses(ds);
      TouchedMeans(sd, ds[i].address);
      NonceMeans(sd, lookup, ds[i].address, 0);
      assert ds[i] == StorageDiff(ds[i].address, EntriesOf(sd.storageDiffs, ds[i].address));
    }
    cs := ToUpdates(ctx, ds);
    EmitEncodes(ctx, ctx, ds, [FeltFromLength(|ds|)]);
    UpdatesEmitted(sd, lookup, ds);
    SortByCorrect(sd.declaredClasses, PairKey);
    var classes := SortBy(sd.declaredClasses, PairKey);
    assert [FeltFromLength(|ds|)] + EncodeContracts(cs) + [FeltFromLength(|classes|)] + Flatten(classes)
        == Encode(cs, classes);
  }

  lemma SortedClasses(sd: StateDiff) returns (classes: seq<Pair>)
    requires DistinctDiff(sd)
    ensures classes == SortBy(sd.declaredClasses, PairKey) && AreClasses(classes, sd)
  {
    classes := SortBy(sd.declaredClasses, PairKey);
    SortByCorrect(sd.declaredClasses, PairKey);
    SortDistinct(sd.declaredClasses, PairKey);
    forall i, j | 0 <= i < j < |classes| ensures classes[i].key < classes[j].key {
      assert PairKey(classes[i]) < PairKey(classes[j]);
    }
  }

  /** The blob words lay out, word by word, the canonical updates: every touched contract once, by ascending
      address, with its class, nonce and ascending writes, then the classes in ascending order. */
  lemma BlobIsCanonical(sd: StateDiff, order: seq<Felt>, lookup: Felt -> Option<Felt>)
    returns (cs: seq<ContractUpdate>, classes: seq<Pair>, at: seq<nat>)
    requires DistinctDiff(sd) && SmallDiff(sd, lookup) && Enumerates(order, NewAddresses(sd))
    requires AllNoncesFound(sd, lookup)
    ensures IsCanonical(cs, sd, lookup) && AreClasses(classes, sd)
    ensures BlobWords(sd, order, lookup).Ok? && LaidOut(BlobWords(sd, order, lookup).value, cs, classes, at)
    ensures AllPackable(cs) && BlobWords(sd, order, lookup) == Ok(Encode(cs, classes))
  {
    cs := BlobEncodes(sd, order, lookup);
    CanonicalMeans(cs, sd, lookup);
    classes := SortedClasses(sd);
    at := EncodedLaidOut(cs, classes);
  }

  /** The words of a touched contract, from the lists of the diff. */
  function TouchedWords(sd: StateDiff, lookup: Felt -> Option<Felt>, address: Felt): Result<seq<Felt>, BlobError> {
    ContractWords(ContextOf(sd, lookup), StorageDiff(address, EntriesOf(sd.storageDiffs, address)))
  }

  lemma FitsMeans(sd: StateDiff, lookup: Felt -> Option<Felt>, a: Felt)
    requires DistinctDiff(sd)
    ensures TouchedWords(sd, lookup, a).Ok? <==> WordFits(sd, lookup, a)
  {
    var d := StorageDiff(a, EntriesOf(sd.storageDiffs, a));
    var r, class_ := NonceOf(ContextOf(sd, lookup), d), ClassOf(ContextOf(sd, lookup), a);
    ClassMeans(sd, lookup, a);
    forall c | HasClass(sd, a, c) ensures c == class_ {
      ClassIsOne(sd, a, c, class_);
    }
    forall n: Felt ensures HasNonce(sd, lookup, a, n) <==> r.Ok? && n == NonceOrZero(r.value) {
      NonceMeans(sd, lookup, a, n);
    }
    if r.Ok? {
      PackFits(class_.Some?, r.value, LengthAsU64(|d.entries|),
               if class_.Some? then 0x8000000000000000_0000000000000000_0000000000000000
               else 0x1_0000000000000000_0000000000000000_0000000000000000);
      assert HasNonce(sd, lookup, a, NonceOrZero(r.value)) && HasClass(sd, a, class_);
    }
  }

  /** The conversion succeeds exactly when every touched contract has its nonce, and the nonce leaves room
      for the other fields in 256 bits. */
  lemma BlobFailsIff(sd: StateDiff, order: seq<Felt>, lookup: Felt -> Option<Felt>)
    requires DistinctDiff(sd) && Enumerates(order, NewAddresses(sd))
    ensures BlobWords(sd, order, lookup).Ok? <==> forall a: Felt :: IsTouched(sd, a) ==> WordFits(sd, lookup, a)
  {
    BlobOkIff(sd, order, lookup);
    forall a: Felt
      ensures a in Touched(sd) <==> IsTouched(sd, a)
      ensures TouchedWords(sd, lookup, a).Ok? <==> WordFits(sd, lookup, a)
    {
      TouchedMeans(sd, a);
      FitsMeans(sd, lookup, a);
    }
  }

  lemma BlobOkIff(sd: StateDiff, order: seq<Felt>, lookup: Felt -> Option<Felt>)
    requires DistinctDiff(sd) && Enumerates(order, NewAddresses(sd))
    ensures BlobWords(sd, order, lookup).Ok? <==> forall a | a in Touched(sd) :: TouchedWords(sd, lookup, a).Ok?
  {
    var ds := SortBy(Refactored(sd, order), DiffKey);
    var ctx := ContextOf(sd, lookup);
    SortedDiffs(sd, order);
    EmitOkIff(ctx, ctx, ds, [FeltFromLength(|ds|)]);
    forall i | 0 <= i < |ds| ensures ContractWords(ctx, ds[i]) == TouchedWords(sd, lookup, ds[i].address) {
      assert ds[i] == StorageDiff(ds[i].address, EntriesOf(sd.storageDiffs, ds[i].address));
    }
    forall i | 0 <= i < |ds| ensures ds[i].address in Touched(sd) {
      assert ds[i].address in Addresses(ds);
    }
    forall a | a in Touched(sd) ensures exists i :: 0 <= i < |ds| && ds[i].address == a {
      assert a in Addresses(ds);
    }
  }

  /** A needed nonce that the node does not give fails the whole job; with 64-bit nonces it is the only
      thing that can, so the error is the lookup's. */
  lemma MissingNonceFails(sd: StateDiff, order: seq<Felt>, lookup: Felt -> Option<Felt>)
    requires DistinctDiff(sd) && Enumerates(order, NewAddresses(sd))
    requires !AllNoncesFound(sd, lookup)
    ensures BlobWords(sd, order, lookup).Err?
    ensures SmallDiff(sd, lookup) ==> BlobWords(sd, order, lookup) == Err(NonceLookupFailed)
  {
    var a :| IsTouched(sd, a) && !NonceFound(sd, lookup, a);
    TouchedMeans(sd, a);
    NonceMeans(sd, lookup, a, 0);
    assert TouchedWords(sd, lookup, a).Err?;
    BlobOkIff(sd, order, lookup);
    if SmallDiff(sd, lookup) {
      var ds := SortBy(Refactored(sd, order), DiffKey);
      var ctx := ContextOf(sd, lookup);
      SortedDiffs(sd, order);
      SortedDiffsSmall(sd, lookup, ds);
      var i :| 0 <= i < |ds| && ds[i].address == a;
      assert ds[i] == StorageDiff(a, EntriesOf(sd.storageDiffs, a));
      assert !NoncesFound(ctx, ds);
      EmitFails(ctx, ctx, ds, [FeltFromLength(|ds|)]);
    }
  }

  /** d is a storage diff of the list, its writes permuted. */
  predicate Matched(d: StorageDiff, ds: seq<StorageDiff>) {
    exists e :: e in ds && e.address == d.address && multiset(e.entries) == multiset(d.entries)
  }

  predicate WritesIn(a: seq<StorageDiff>, b: seq<StorageDiff>) {
    forall d {:trigger Matched(d, b)} :: d in a ==> Matched(d, b)
  }

  /** The same diff up to the order of its lists. */
  ghost predicate SameDiff(a: StateDiff, b: StateDiff) {
    && multiset(a.nonces) == multiset(b.nonces)
    && multiset(a.deployedContracts) == multiset(b.deployedContracts)
    && multiset(a.replacedClasses) == multiset(b.replacedClasses)
    && multiset(a.declaredClasses) == multiset(b.declaredClasses)
    && |a.storageDiffs| == |b.storageDiffs|
    && WritesIn(a.storageDiffs, b.storageDiffs) && WritesIn(b.storageDiffs, a.storageDiffs)
  }

  lemma {:induction false} AddressCount(ds: seq<StorageDiff>)
    ensures |Addresses(ds)| <= |ds| && (|Addresses(ds)| == |ds| <==> DistinctBy(ds, DiffKey))
  {
    if ds != [] {
      var front, last := ds[..|ds| - 1], ds[|ds| - 1];
      AddressCount(front);
      LastAddress(ds, front, last);
      if last.address in Addresses(front) {
        var i :| 0 <= i < |front| && front[i].address == last.address;
        assert DiffKey(ds[i]) == DiffKey(ds[|ds| - 1]);
      } else {
        DistinctSnoc(ds, front, last);
      }
    }
  }

  lemma LastAddress(ds: seq<StorageDiff>, front: seq<StorageDiff>, last: StorageDiff)
    requires ds == front + [last]
    ensures Addresses(ds) == Addresses(front) + {last.address}
  {
    forall a ensures a in Addresses(ds) <==> a in Addresses(front) + {last.address} {
      AddressListed(ds, a);
      AddressListed(front, a);
    }
  }

  lemma DistinctSnoc(ds: seq<StorageDiff>, front: seq<StorageDiff>, last: StorageDiff)
    requires ds == front + [last] && last.address !in Addresses(front)
    ensures DistinctBy(ds, DiffKey) <==> DistinctBy(front, DiffKey)
  {
    if DistinctBy(front, DiffKey) {
      forall i, j | 0 <= i < j < |ds| ensures DiffKey(ds[i]) != DiffKey(ds[j]) {
        if j == |front| {
          assert front[i].address in Addresses(front);
        }
      }
    }
    if DistinctBy(ds, DiffKey) {
      forall i, j | 0 <= i < j < |front| ensures DiffKey(front[i]) != DiffKey(front[j]) {
        assert DiffKey(ds[i]) != DiffKey(ds[j]);
      }
    }
  }

  lemma WritesInAddresses(a: seq<StorageDiff>, b: seq<StorageDiff>)
    requires WritesIn(a, b)
    ensures Addresses(a) <= Addresses(b)
  {
    forall x | x in Addresses(a) ensures x in Addresses(b) {
      AddressListed(a, x);
      var d :| d in a && d.address == x;
      assert Matched(d, b);
      AddressListed(b, x);
    }
  }

  /** A diff with the same lists in another order has distinct keys as well. */
  lemma SameDistinct(a: StateDiff, b: StateDiff)
    requires DistinctDiff(a) && SameDiff(a, b)
    ensures DistinctDiff(b) && Addresses(a.storageDiffs) == Addresses(b.storageDiffs)
  {
    DistinctPermuted(a.declaredClasses, b.declaredClasses, PairKey);
    DistinctPermuted(a.deployedContracts, b.deployedContracts, PairKey);
    DistinctPermuted(a.replacedClasses, b.replacedClasses, PairKey);
    DistinctPermuted(a.nonces, b.nonces, PairKey);
    WritesInAddresses(a.storageDiffs, b.storageDiffs);
    WritesInAddresses(b.storageDiffs, a.storageDiffs);
    assert Addresses(a.storageDiffs) == Addresses(b.storageDiffs);
    AddressCount(a.storageDiffs);
    AddressCount(b.storageDiffs);
    assert DistinctBy(b.storageDiffs, DiffKey);
    forall i | 0 <= i < |b.storageDiffs| ensures DistinctBy(b.storageDiffs[i].entries, PairKey) {
      var e := b.storageDiffs[i];
      assert Matched(e, a.storageDiffs);
      var d :| d in a.storageDiffs && d.address == e.address && multiset(d.entries) == multiset(e.entries);
      var k :| 0 <= k < |a.storageDiffs| && a.storageDiffs[k] == d;
      DistinctPermuted(d.entries, e.entries, PairKey);
    }
  }

  lemma SameEntries(a: StateDiff, b: StateDiff, x: Felt)
    requires DistinctDiff(a) && SameDiff(a, b)
    ensures multiset(EntriesOf(a.storageDiffs, x)) == multiset(EntriesOf(b.storageDiffs, x))
  {
    SameDistinct(a, b);
    AddressListed(a.storageDiffs, x);
    if d :| d in a.storageDiffs && d.address == x {
      assert Matched(d, b.storageDiffs);
      var e :| e in b.storageDiffs && e.address == d.address && multiset(e.entries) == multiset(d.entries);
      var i :| 0 <= i < |a.storageDiffs| && a.storageDiffs[i] == d;
      var j :| 0 <= j < |b.storageDiffs| && b.storageDiffs[j] == e;
      EntriesOfListed(a.storageDiffs, i);
      EntriesOfListed(b.storageDiffs, j);
    } else {
      EntriesOfUnlisted(a.storageDiffs, x);
      EntriesOfUnlisted(b.storageDiffs, x);
    }
  }

  lemma SameContext(a: StateDiff, b: StateDiff, lookup: Felt -> Option<Felt>)
    requires DistinctDiff(a) && SameDiff(a, b)
    ensures ContextOf(a, lookup) == ContextOf(b, lookup) && Touched(a) == Touched(b)
  {
    SameDistinct(a, b);
    ToMapCanonical(a.nonces, b.nonces);
    ToMapCanonical(a.deployedContracts, b.deployedContracts);
    ToMapCanonical(a.replacedClasses, b.replacedClasses);
    ToMapValues(a.nonces);
    ToMapValues(b.nonces);
    ToMapValues(a.deployedContracts);
    ToMapValues(b.deployedContracts);
  }

  lemma SameEmptiness(a: seq<Pair>, b: seq<Pair>)
    requires multiset(a) == multiset(b)
    ensures a == [] <==> b == []
  {
    assert |multiset(a)| == |a| && |multiset(b)| == |b|;
  }

  lemma UpdateUnique(c: ContractUpdate, d: ContractUpdate, a: StateDiff, b: StateDiff, lookup: Felt -> Option<Felt>)
    requires DistinctDiff(a) && SameDiff(a, b) && c.address == d.address
    requires IsEmitted(c, a, lookup) && IsEmitted(d, b, lookup)
    ensures c == d
  {
    SameContext(a, b, lookup);
    SameEntries(a, b, c.address);
    SameEmptiness(EntriesOf(a.storageDiffs, c.address), EntriesOf(b.storageDiffs, c.address));
    SameElements(c.writes, d.writes);
    StrictlySortedUnique(c.writes, d.writes, PairKey);
  }

  /** The canonical updates are determined by the diff up to list order. */
  lemma CanonicalUnique(cs: seq<ContractUpdate>, ds: seq<ContractUpdate>,
                        a: StateDiff, b: StateDiff, lookup: Felt -> Option<Felt>)
    requires DistinctDiff(a) && SameDiff(a, b)
    requires IsCanonical(cs, a, lookup) && IsCanonical(ds, b, lookup)
    ensures cs == ds
  {
    SameDistinct(a, b);
    CanonicalMeans(cs, a, lookup);
    CanonicalMeans(ds, b, lookup);
    EmittedUnique(cs, ds, a, b, lookup);
  }

  lemma EmittedUnique(cs: seq<ContractUpdate>, ds: seq<ContractUpdate>,
                      a: StateDiff, b: StateDiff, lookup: Felt -> Option<Felt>)
    requires DistinctDiff(a) && SameDiff(a, b)
    requires AreEmitted(cs, a, lookup) && AreEmitted(ds, b, lookup)
    ensures cs == ds
  {
    SameContext(a, b, lookup);
    forall x ensures x in Elements(cs) <==> x in Elements(ds) {
      if x in Elements(cs) {
        SharedUpdate(x, cs, ds, a, b, lookup);
      }
      if x in Elements(ds) {
        var i :| 0 <= i < |ds| && ds[i] == x;
        assert x.address in UpdateAddresses(cs);
        var j :| 0 <= j < |cs| && cs[j].address == x.address;
        UpdateUnique(cs[j], ds[i], a, b, lookup);
      }
    }
    StrictlySortedUnique(cs, ds, UpdateKey);
  }

  lemma SharedUpdate(x: ContractUpdate, cs: seq<ContractUpdate>, ds: seq<ContractUpdate>,
                     a: StateDiff, b: StateDiff, lookup: Felt -> Option<Felt>)
    requires DistinctDiff(a) && SameDiff(a, b) && Touched(a) == Touched(b)
    requires AreEmitted(cs, a, lookup) && AreEmitted(ds, b, lookup) && x in Elements(cs)
    ensures x in Elements(ds)
  {
    var i :| 0 <= i < |cs| && cs[i] == x;
    assert x.address in UpdateAddresses(ds);
    var j :| 0 <= j < |ds| && ds[j].address == x.address;
    UpdateUnique(cs[i], ds[j], a, b, lookup);
  }

  /** The same contracts in the same order, their writes permuted. */
  ghost predicate Parallel(ds: seq<StorageDiff>, es: seq<StorageDiff>) {
    |ds| == |es| && forall i | 0 <= i < |ds| :: SameContract(ds[i], es[i])
  }

  ghost predicate SameContract(d: StorageDiff, e: StorageDiff) {
    d.address == e.address && DistinctBy(d.entries, PairKey) && multiset(d.entries) == multiset(e.entries)
  }

  lemma WordsPermuted(ctx: Context, d: StorageDiff, e: StorageDiff)
    requires SameContract(d, e)
    ensures ContractWords(ctx, d) == ContractWords(ctx, e)
  {
    SameEmptiness(d.entries, e.entries);
    assert |multiset(d.entries)| == |d.entries| && |multiset(e.entries)| == |e.entries|;
    SortCanonical(d.entries, e.entries, PairKey);
  }

  /** The loop does not see the order of a contract's writes, whether it succeeds or fails. */
  lemma {:induction false} EmitPermuted(ctx: Context, ds: seq<StorageDiff>, es: seq<StorageDiff>, acc: seq<Felt>)
    requires Parallel(ds, es)
    ensures Emit(ctx, ds, acc) == Emit(ctx, es, acc)
    decreases |ds|
  {
    if ds != [] {
      WordsPermuted(ctx, ds[0], es[0]);
      var words := ContractWords(ctx, ds[0]);
      if words.Ok? {
        EmitPermuted(WithoutNonce(ctx, ds[0].address), ds[1..], es[1..], acc + words.value);
      }
    }
  }

  function AddressOf(d: StorageDiff): Felt {
    d.address
  }

  function Value(a: Felt): nat {
    a
  }

  function AddressList(ds: seq<StorageDiff>): (r: seq<Felt>)
    ensures |r| == |ds| && forall i | 0 <= i < |ds| :: r[i] == ds[i].address
  {
    seq(|ds|, (i: nat) requires i < |ds| => AddressOf(ds[i]))
  }

  lemma AddressListSorted(ds: seq<StorageDiff>)
    requires StrictlySortedBy(ds, DiffKey)
    ensures StrictlySortedBy(AddressList(ds), Value) && Elements(AddressList(ds)) == Addresses(ds)
  {
    var r := AddressList(ds);
    forall i, j | 0 <= i < j < |r| ensures Value(r[i]) < Value(r[j]) {
      assert DiffKey(ds[i]) < DiffKey(ds[j]);
    }
    forall a ensures a in Elements(r) <==> a in Addresses(ds) {
      if a in Elements(r) {
        var i :| 0 <= i < |r| && r[i] == a;
        assert ds[i].address == a;
      }
      if a in Addresses(ds) {
        var i :| 0 <= i < |ds| && ds[i].address == a;
        assert r[i] == a;
      }
    }
  }

  /** Two diffs that agree up to list order are sorted into the same contracts. */
  lemma SortedParallel(a: StateDiff, orderA: seq<Felt>, b: StateDiff, orderB: seq<Felt>)
    requires DistinctDiff(a) && Enumerates(orderA, NewAddresses(a))
    requires DistinctDiff(b) && Enumerates(orderB, NewAddresses(b))
    requires SameDiff(a, b) && Touched(a) == Touched(b)
    ensures Parallel(SortBy(Refactored(a, orderA), DiffKey), SortBy(Refactored(b, orderB), DiffKey))
  {
    var ds, es := SortBy(Refactored(a, orderA), DiffKey), SortBy(Refactored(b, orderB), DiffKey);
    SortedDiffs(a, orderA);
    SortedDiffs(b, orderB);
    AddressListSorted(ds);
    AddressListSorted(es);
    StrictlySortedUnique(AddressList(ds), AddressList(es), Value);
    forall i | 0 <= i < |ds| ensures SameContract(ds[i], es[i]) {
      assert AddressList(ds)[i] == AddressList(es)[i];
      SameEntries(a, b, ds[i].address);
    }
  }

  /** The blob is the same for every permutation of the input lists and every iteration order of the
      hash set of new addresses, errors included. */
  lemma BlobIndependentOfOrder(a: StateDiff, orderA: seq<Felt>, b: StateDiff, orderB: seq<Felt>,
                               lookup: Felt -> Option<Felt>)
    requires DistinctDiff(a) && Enumerates(orderA, NewAddresses(a))
    requires SameDiff(a, b) && Enumerates(orderB, NewAddresses(b))
    ensures BlobWords(a, orderA, lookup) == BlobWords(b, orderB, lookup)
  {
    var ds, es := SortBy(Refactored(a, orderA), DiffKey), SortBy(Refactored(b, orderB), DiffKey);
    SameDistinct(a, b);
    SameContext(a, b, lookup);
    SortedParallel(a, orderA, b, orderB);
    EmitPermuted(ContextOf(a, lookup), ds, es, [FeltFromLength(|ds|)]);
    SortCanonical(a.declaredClasses, b.declaredClasses, PairKey);
    assert |multiset(a.declaredClasses)| == |a.declaredClasses|;
    assert |multiset(b.declaredClasses)| == |b.declaredClasses|;
  }
}
