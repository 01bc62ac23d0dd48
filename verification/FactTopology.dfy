/** The fact topology of a program output: tree structure and page sizes
    (crates/orchestrator/src/jobs/snos_job/fact_topology.rs). */
module FactTopology {
  import opened Outcomes
  import opened SortedLists

  datatype FactError =
    | OutputBuiltinNoAdditionalData
    | OutputBuiltinNoSegmentInfo
    | OutputSegmentUnexpectedRelocatable(offset: nat)
    | OutputOffsetPanic(offset: nat)
    | InvalidSegment
    | TreeStructureEmpty
    | TreeStructureLenOdd
    | TreeStructureTooLarge
    | TreeStructureInvalid
    | OutputPagesLenUnexpected
    | OutputPagesUnexpectedId(id: nat, expectedId: nat)
    | OutputPagesInvalidStart(id: nat, start: nat, outputSize: nat)
    | OutputPagesUnexpectedStart(id: nat, start: nat, expectedStart: nat)
    | OutputPagesInvalidSize(id: nat, size: nat, outputSize: nat)
    | OutputPagesUncoveredOutput(covered: nat, outputSize: nat)
    | TreeStructurePagesCountOutOfRange(pages: nat, available: nat)
    | TreeStructureNodesCountOutOfRange(nodes: nat, available: nat)
    | NodeHashOverflow
    | ProgramHashCompute
    | TreeStructureRootInvalid
    | TreeStructurePagesNotProcessed(left: nat)
    | TreeStructureEndOffsetInvalid(endOffset: nat, outputSize: nat)
    | TreeStructureRootOffsetInvalid(endOffset: nat, outputSize: nat)

  /** The two offset checks at the end of generate_merkle_root. */
  predicate IsOffsetError(e: FactError) {
    e.TreeStructureEndOffsetInvalid? || e.TreeStructureRootOffsetInvalid?
  }

  datatype Page = Page(start: nat, size: nat)
  datatype PageEntry = PageEntry(id: nat, start: nat, size: nat)
  datatype Topology = Topology(treeStructure: seq<nat>, pageSizes: seq<nat>)

  /** The additional data of the output builtin: its topology attribute, if present, and its pages. */
  datatype OutputData = OutputData(attribute: Option<seq<nat>>, pages: map<nat, Page>)

  // ---- What the page checks decide -----------------------------------------------------------

  /** Page id + 1 starts where page id ends. */
  predicate Adjacent(pages: map<nat, Page>, id: nat) {
    id in pages && id + 1 in pages && pages[id + 1].start == pages[id].start + pages[id].size
  }

  /** Pages 1..n lie end to end behind a nonempty page 0 and reach exactly the end of the output. */
  predicate Tiles(pages: map<nat, Page>, outputSize: nat) {
    var n := |pages|;
    && (forall id | id in pages :: 1 <= id <= n)
    && (forall id | 1 <= id <= n :: id in pages)
    && (n > 0 ==> 0 < pages[1].start < outputSize)
    && (forall id | 1 <= id <= n :: 0 < pages[id].size < outputSize)
    && (forall id | 1 <= id < n :: Adjacent(pages, id))
    && (n > 0 ==> pages[n].start + pages[n].size == outputSize)
  }

  function EntryId(e: PageEntry): nat {
    e.id
  }

  /** list holds the pages, each once. */
  predicate Lists(list: seq<PageEntry>, pages: map<nat, Page>) {
    && |list| == |pages|
    && (forall i | 0 <= i < |list| ::
          list[i].id in pages && pages[list[i].id] == Page(list[i].start, list[i].size))
    && StrictlySortedBy(list, EntryId)
  }

  /** Iterates the map in any order, then sorts: the ids are keys, so ordering by id is ordering the tuples. */
  method SortedPages(pages: map<nat, Page>) returns (list: seq<PageEntry>)
    ensures Lists(list, pages)
  {
    var collected: seq<PageEntry> := [];
    var remaining := pages.Keys;
    while remaining != {}
      invariant remaining <= pages.Keys && |collected| + |remaining| == |pages|
      invariant forall i | 0 <= i < |collected| ::
                  collected[i].id in pages && collected[i].id !in remaining
                  && pages[collected[i].id] == Page(collected[i].start, collected[i].size)
      invariant DistinctBy(collected, EntryId)
      decreases |remaining|
    {
      var id :| id in remaining;
      remaining := remaining - {id};
      collected := collected + [PageEntry(id, pages[id].start, pages[id].size)];
    }
    list := SortBy(collected, EntryId);
    SortDistinct(collected, EntryId);
    SortByCorrect(collected, EntryId);
    forall i | 0 <= i < |list|
      ensures list[i].id in pages && pages[list[i].id] == Page(list[i].start, list[i].size)
    {
      assert list[i] in multiset(collected);
    }
  }

  lemma {:induction false} IdsAtLeast(list: seq<PageEntry>, i: nat)
    requires StrictlySortedBy(list, EntryId) && i < |list|
    requires forall k | 0 <= k < |list| :: 1 <= list[k].id
    ensures list[i].id >= i + 1
  {
    if i != 0 {
      IdsAtLeast(list, i - 1);
      assert EntryId(list[i - 1]) < EntryId(list[i]);
    }
  }

  lemma {:induction false} IdsAtMost(list: seq<PageEntry>, i: nat)
    requires StrictlySortedBy(list, EntryId) && i < |list|
    requires forall k | 0 <= k < |list| :: list[k].id <= |list|
    ensures list[i].id <= i + 1
    decreases |list| - i
  {
    if i + 1 != |list| {
      IdsAtMost(list, i + 1);
      assert EntryId(list[i]) < EntryId(list[i + 1]);
    }
  }

  /** In a tiling, the sorted pages are numbered consecutively from one. */
  lemma TilesNumbered(list: seq<PageEntry>, pages: map<nat, Page>, outputSize: nat, i: nat)
    requires Lists(list, pages) && Tiles(pages, outputSize) && i < |list|
    ensures list[i].id == i + 1
  {
    IdsAtLeast(list, i);
    IdsAtMost(list, i);
  }

  /** Consecutive numbers cover all keys. */
  lemma NumberedCovers(list: seq<PageEntry>, pages: map<nat, Page>)
    requires Lists(list, pages)
    requires forall i | 0 <= i < |list| :: list[i].id == i + 1
    ensures forall id | id in pages :: 1 <= id <= |pages|
    ensures forall id | 1 <= id <= |pages| :: id in pages && list[id - 1].id == id
  {
    forall id | id in UpTo(|list|) ensures id in pages {
      assert list[id - 1].id == id;
    }
    SubsetOfSameSize(UpTo(|list|), pages.Keys);
  }

  /** The numbers 1..n. */
  function UpTo(n: nat): (s: set<nat>)
    ensures forall i :: i in s <==> 1 <= i <= n
    ensures |s| == n
  {
    if n == 0 then {} else UpTo(n - 1) + {n}
  }

  lemma SubsetOfSameSize(a: set<nat>, b: set<nat>)
    requires a <= b && |a| == |b|
    ensures a == b
  {
    if x :| x in b && x !in a {
      SubsetSize(a, b - {x});
    }
  }

  lemma {:induction false} SubsetSize(a: set<nat>, b: set<nat>)
    requires a <= b
    ensures |a| <= |b|
  {
    if a != {} {
      var x :| x in a;
      SubsetSize(a - {x}, b - {x});
    }
  }

  /** The sizes of pages 0..n: page 0 ends where page 1 starts. */
  ghost predicate AreSizes(sizes: seq<nat>, pages: map<nat, Page>, outputSize: nat) {
    && |sizes| == |pages| + 1
    && (forall id | 1 <= id <= |pages| :: id in pages && sizes[id] == pages[id].size)
    && sizes[0] == (if |pages| == 0 then outputSize else pages[1].start)
  }

  function SumSizes(s: seq<nat>): nat {
    if s == [] then 0 else SumSizes(s[..|s| - 1]) + s[|s| - 1]
  }

  predicate Follows(list: seq<PageEntry>, k: nat) {
    1 <= k < |list| && list[k].start == list[k - 1].start + list[k - 1].size
  }

  /** What the loop has established after i pages. */
  ghost predicate Scanned(list: seq<PageEntry>, i: nat, outputSize: nat, sizes: seq<nat>)
    requires i <= |list|
  {
    && (forall k | 0 <= k < i :: list[k].id == k + 1 && 0 < list[k].size < outputSize)
    && (i > 0 ==> 0 < list[0].start < outputSize)
    && (forall k | 1 <= k < i :: Follows(list, k))
    && |sizes| == i + 1 && sizes[0] == (if i == 0 then outputSize else list[0].start)
    && (forall k | 0 <= k < i :: sizes[k + 1] == list[k].size)
  }

  /** The sorted list holds page id at position id - 1. */
  ghost predicate Numbered(list: seq<PageEntry>, pages: map<nat, Page>) {
    && |list| == |pages|
    && (forall id | id in pages :: 1 <= id <= |pages|)
    && (forall id: nat | 1 <= id <= |pages| ::
          id in pages && pages[id] == Page(list[id - 1].start, list[id - 1].size))
  }

  lemma ScannedNumbered(list: seq<PageEntry>, pages: map<nat, Page>)
    requires Lists(list, pages)
    requires forall i | 0 <= i < |list| :: list[i].id == i + 1
    ensures Numbered(list, pages)
  {
    NumberedCovers(list, pages);
    forall id: nat | 1 <= id <= |pages|
      ensures id in pages && pages[id] == Page(list[id - 1].start, list[id - 1].size)
    {
      assert list[id - 1].id == id;
    }
  }

  /** A complete scan that ends at the output's end is a tiling. */
  lemma ScannedTiles(list: seq<PageEntry>, pages: map<nat, Page>, outputSize: nat, sizes: seq<nat>)
    requires Numbered(list, pages) && Scanned(list, |list|, outputSize, sizes)
    requires |list| > 0 ==> list[|list| - 1].start + list[|list| - 1].size == outputSize
    ensures Tiles(pages, outputSize)
  {
    forall id | 1 <= id < |pages| ensures Adjacent(pages, id) {
      assert Follows(list, id);
    }
  }

  lemma ScannedSizes(list: seq<PageEntry>, pages: map<nat, Page>, outputSize: nat, sizes: seq<nat>)
    requires Numbered(list, pages) && Scanned(list, |list|, outputSize, sizes)
    ensures AreSizes(sizes, pages, outputSize)
  {
    forall id: nat | 1 <= id <= |pages| ensures sizes[id] == pages[id].size {
      assert sizes[(id - 1) + 1] == list[id - 1].size;
    }
  }

  /** Page i passes the checks of the loop and of its end. */
  predicate Passes(list: seq<PageEntry>, i: nat, outputSize: nat) {
    && i < |list|
    && list[i].id == i + 1 && 0 < list[i].size < outputSize
    && (i == 0 ==> 0 < list[i].start < outputSize)
    && (i > 0 ==> Follows(list, i))
    && (i + 1 == |list| ==> list[i].start + list[i].size == outputSize)
  }

  /** In a tiling, every sorted page passes. */
  lemma TilesPass(list: seq<PageEntry>, pages: map<nat, Page>, outputSize: nat)
    requires Lists(list, pages) && Tiles(pages, outputSize)
    ensures forall i | 0 <= i < |list| :: Passes(list, i, outputSize)
  {
    forall i: nat | i < |list| ensures Passes(list, i, outputSize) {
      TilesNumbered(list, pages, outputSize, i);
      assert pages[i + 1] == Page(list[i].start, list[i].size);
      if i > 0 {
        TilesNumbered(list, pages, outputSize, i - 1);
        assert Adjacent(pages, i);
      }
    }
  }

  lemma AllPassTiles(list: seq<PageEntry>, pages: map<nat, Page>, outputSize: nat, sizes: seq<nat>)
    requires Lists(list, pages) && Scanned(list, |list|, outputSize, sizes)
    requires |list| > 0 ==> list[|list| - 1].start + list[|list| - 1].size == outputSize
    ensures Tiles(pages, outputSize) && AreSizes(sizes, pages, outputSize)
  {
    ScannedNumbered(list, pages);
    ScannedTiles(list, pages, outputSize, sizes);
    ScannedSizes(list, pages, outputSize, sizes);
  }

  /** The start behind page i - 1. */
  function EndBefore(list: seq<PageEntry>, i: nat): Option<nat>
    requires i <= |list|
  {
    if i == 0 then None else Some(list[i - 1].start + list[i - 1].size)
  }

  /** What is wrong with page i, when the pages before it are in order: its id, its start, or its size. */
  function PageError(list: seq<PageEntry>, i: nat, outputSize: nat): Option<FactError>
    requires i < |list|
  {
    var page := list[i];
    if page.id != i + 1 then Some(OutputPagesUnexpectedId(page.id, i + 1))
    else if i == 0 && !(0 < page.start < outputSize) then Some(OutputPagesInvalidStart(page.id, page.start, outputSize))
    else if i > 0 && page.start != list[i - 1].start + list[i - 1].size then
      Some(OutputPagesUnexpectedStart(page.id, page.start, list[i - 1].start + list[i - 1].size))
    else if !(0 < page.size < outputSize) then Some(OutputPagesInvalidSize(page.id, page.size, outputSize))
    else None
  }

  ghost predicate PassesUpTo(list: seq<PageEntry>, i: nat, outputSize: nat) {
    i <= |list| && forall k: nat | k < i :: PageError(list, k, outputSize) == None
  }

  /** e is the error of the first page that is wrong, or says that the pages end early or late. */
  ghost predicate IsScanError(list: seq<PageEntry>, outputSize: nat, e: FactError) {
    (exists i: nat | i < |list| :: PassesUpTo(list, i, outputSize) && PageError(list, i, outputSize) == Some(e))
    || (PassesUpTo(list, |list|, outputSize) && list != []
        && EndBefore(list, |list|) != Some(outputSize)
        && e == OutputPagesUncoveredOutput(EndBefore(list, |list|).value, outputSize))
  }

  /** The first n pages are numbered from one, each of a proper size, and each starts where the one before
      it ends. */
  predicate InOrder(list: seq<PageEntry>, n: nat, outputSize: nat) {
    n <= |list|
    && forall k :: 0 <= k < n ==>
         list[k].id == k + 1 && 0 < list[k].size < outputSize
         && if k == 0 then 0 < list[k].start < outputSize
            else list[k].start == list[k - 1].start + list[k - 1].size
  }

  lemma PassesInOrder(list: seq<PageEntry>, n: nat, outputSize: nat)
    requires PassesUpTo(list, n, outputSize)
    ensures InOrder(list, n, outputSize)
  {
    forall k | 0 <= k < n
      ensures list[k].id == k + 1 && 0 < list[k].size < outputSize
      ensures if k == 0 then 0 < list[k].start < outputSize
              else list[k].start == list[k - 1].start + list[k - 1].size
    {
      assert PageError(list, k, outputSize) == None;
    }
  }

  /** What each error of the scan says: which page is the first wrong one, and what is wrong with it first. */
  predicate ErrorSays(list: seq<PageEntry>, outputSize: nat, e: FactError, i: nat)
    requires i <= |list|
  {
    match e
    case OutputPagesUnexpectedId(id, expected) => i < |list| && expected == i + 1 && id == list[i].id != expected
    case OutputPagesInvalidStart(id, start, size) =>
      i == 0 < |list| && id == list[0].id == 1 && start == list[0].start && size == outputSize && !(0 < start < size)
    case OutputPagesUnexpectedStart(id, start, expected) =>
      0 < i < |list| && id == list[i].id == i + 1 && start == list[i].start != expected
      && expected == list[i - 1].start + list[i - 1].size
    case OutputPagesInvalidSize(id, pageSize, size) =>
      i < |list| && id == list[i].id == i + 1 && pageSize == list[i].size && size == outputSize
      && !(0 < pageSize < size)
    case OutputPagesUncoveredOutput(end, size) =>
      i == |list| > 0 && size == outputSize && end == list[i - 1].start + list[i - 1].size != size
    case _ => false
  }

  lemma PageErrorSays(list: seq<PageEntry>, outputSize: nat, e: FactError, i: nat)
    requires i < |list| && PageError(list, i, outputSize) == Some(e)
    ensures ErrorSays(list, outputSize, e, i)
  {
  }

  lemma ScanErrorMeans(list: seq<PageEntry>, outputSize: nat, e: FactError) returns (i: nat)
    requires IsScanError(list, outputSize, e)
    ensures i <= |list| && InOrder(list, i, outputSize) && ErrorSays(list, outputSize, e, i)
  {
    if !PassesUpTo(list, |list|, outputSize) {
      i :| i < |list| && PassesUpTo(list, i, outputSize) && PageError(list, i, outputSize) == Some(e);
      PageErrorSays(list, outputSize, e, i);
    } else {
      i := |list|;
    }
    PassesInOrder(list, i, outputSize);
  }

  lemma PagesErrorKinds(pages: map<nat, Page>, outputSize: nat, e: FactError)
    requires IsPagesError(pages, outputSize, e)
    ensures e.OutputPagesUnexpectedId? || e.OutputPagesInvalidStart? || e.OutputPagesUnexpectedStart?
            || e.OutputPagesInvalidSize? || e.OutputPagesUncoveredOutput?
  {
    var list :| Lists(list, pages) && IsScanError(list, outputSize, e);
    var i := ScanErrorMeans(list, outputSize, e);
  }

  /** At most one error fits a list. */
  lemma ScanErrorUnique(list: seq<PageEntry>, outputSize: nat, e: FactError, f: FactError)
    requires IsScanError(list, outputSize, e) && IsScanError(list, outputSize, f)
    ensures e == f
  {
    if !PassesUpTo(list, |list|, outputSize) {
      var i: nat :| i < |list| && PassesUpTo(list, i, outputSize) && PageError(list, i, outputSize) == Some(e);
      var j: nat :| j < |list| && PassesUpTo(list, j, outputSize) && PageError(list, j, outputSize) == Some(f);
      assert i == j;
    }
  }

  /** A list with an error is not a tiling. */
  lemma ScanErrorFails(list: seq<PageEntry>, outputSize: nat, e: FactError)
    requires IsScanError(list, outputSize, e)
    ensures exists i :: 0 <= i < |list| && !Passes(list, i, outputSize)
  {
    if PassesUpTo(list, |list|, outputSize) {
      assert !Passes(list, |list| - 1, outputSize);
    } else {
      var i: nat :| i < |list| && PassesUpTo(list, i, outputSize) && PageError(list, i, outputSize) == Some(e);
      assert !Passes(list, i, outputSize);
    }
  }

  /** The loop of get_page_sizes over the sorted pages. */
  method ScanPages(list: seq<PageEntry>, outputSize: nat) returns (r: Result<seq<nat>, FactError>)
    ensures r.Ok? ==> Scanned(list, |list|, outputSize, r.value)
    ensures r.Ok? ==> (list == [] || EndBefore(list, |list|) == Some(outputSize))
    ensures r.Err? ==> !IsOffsetError(r.error) && IsScanError(list, outputSize, r.error)
  {
    var expectedPageId := 1;
    var expectedPageStart: Option<nat> := None;
    var pageSizes: seq<nat> := [outputSize];
    for i := 0 to |list|
      invariant expectedPageId == i + 1
      invariant Scanned(list, i, outputSize, pageSizes) && PassesUpTo(list, i, outputSize)
      invariant expectedPageStart == EndBefore(list, i)
    {
      var page := list[i];
      ghost var error := PageError(list, i, outputSize);
      if page.id != expectedPageId {
        return Err(OutputPagesUnexpectedId(page.id, expectedPageId));
      }
      if page.id == 1 {
        if !(page.start > 0 && page.start < outputSize) {
          return Err(OutputPagesInvalidStart(page.id, page.start, outputSize));
        }
        pageSizes := pageSizes[0 := page.start];
      } else {
        if Some(page.start) != expectedPageStart {
          var expected := match expectedPageStart case Some(s) => s case None => 0;
          return Err(OutputPagesUnexpectedStart(page.id, page.start, expected));
        }
        assert Follows(list, i);
      }
      if !(page.size > 0 && page.size < outputSize) {
        return Err(OutputPagesInvalidSize(page.id, page.size, outputSize));
      }
      expectedPageStart := Some(page.start + page.size);
      expectedPageId := expectedPageId + 1;
      pageSizes := pageSizes + [page.size];
    }
    if !(list == [] || expectedPageStart == Some(outputSize)) {
      var covered := match expectedPageStart case Some(s) => s case None => 0;
      return Err(OutputPagesUncoveredOutput(covered, outputSize));
    }
    r := Ok(pageSizes);
  }

  /** The pages have one sorted list only. */
  lemma ListUnique(a: seq<PageEntry>, b: seq<PageEntry>, pages: map<nat, Page>)
    requires Lists(a, pages) && Lists(b, pages)
    ensures a == b
  {
    ListedEntries(a, pages);
    ListedEntries(b, pages);
    StrictlySortedUnique(a, b, EntryId);
  }

  lemma ListedEntries(list: seq<PageEntry>, pages: map<nat, Page>)
    requires Lists(list, pages)
    ensures Elements(list) == set id | id in pages :: PageEntry(id, pages[id].start, pages[id].size)
  {
    var ids := set i | 0 <= i < |list| :: list[i].id;
    IdCount(list);
    SubsetOfSameSize(ids, pages.Keys);
    forall id | id in pages ensures PageEntry(id, pages[id].start, pages[id].size) in Elements(list) {
      assert id in ids;
      var i :| 0 <= i < |list| && list[i].id == id;
      assert list[i] == PageEntry(id, pages[id].start, pages[id].size);
    }
  }

  lemma {:induction false} IdCount(list: seq<PageEntry>)
    requires StrictlySortedBy(list, EntryId)
    ensures |set i | 0 <= i < |list| :: list[i].id| == |list|
  {
    var ids := set i | 0 <= i < |list| :: list[i].id;
    if list == [] {
      assert ids == {};
    } else {
      var front, last := list[..|list| - 1], list[|list| - 1];
      IdCount(front);
      var others := set i | 0 <= i < |front| :: front[i].id;
      forall i | 0 <= i < |front| ensures front[i].id != last.id {
        assert EntryId(list[i]) < EntryId(last);
      }
      assert list == front + [last];
      LastId(list, front, last, ids, others);
      assert last.id !in others;
    }
  }

  lemma LastId(list: seq<PageEntry>, front: seq<PageEntry>, last: PageEntry, ids: set<nat>, others: set<nat>)
    requires list == front + [last]
    requires ids == set i | 0 <= i < |list| :: list[i].id
    requires others == set i | 0 <= i < |front| :: front[i].id
    ensures ids == others + {last.id}
  {
    forall id | id in ids ensures id in others + {last.id} {
      var i :| 0 <= i < |list| && list[i].id == id;
      assert i < |front| ==> front[i].id == id;
    }
    forall id | id in others ensures id in ids {
      var i :| 0 <= i < |front| && front[i].id == id;
      assert list[i].id == id;
    }
    assert list[|front|].id == last.id;
  }

  /** e is the error get_page_sizes gives for the pages, in ascending order of their ids. */
  ghost predicate IsPagesError(pages: map<nat, Page>, outputSize: nat, e: FactError) {
    exists list :: Lists(list, pages) && IsScanError(list, outputSize, e)
  }

  /** The error does not depend on the iteration order of the map, and excludes success. */
  lemma PagesErrorUnique(pages: map<nat, Page>, outputSize: nat, e: FactError)
    requires IsPagesError(pages, outputSize, e)
    ensures !Tiles(pages, outputSize)
    ensures forall f | IsPagesError(pages, outputSize, f) :: f == e
  {
    var list :| Lists(list, pages) && IsScanError(list, outputSize, e);
    ScanErrorFails(list, outputSize, e);
    if Tiles(pages, outputSize) {
      TilesPass(list, pages, outputSize);
    }
    forall f | IsPagesError(pages, outputSize, f) ensures f == e {
      var other :| Lists(other, pages) && IsScanError(other, outputSize, f);
      ListUnique(list, other, pages);
      ScanErrorUnique(list, outputSize, e, f);
    }
  }

  /** get_page_sizes succeeds exactly on tilings, whatever the iteration order of the map. */
  method GetPageSizes(pages: map<nat, Page>, outputSize: nat) returns (r: Result<seq<nat>, FactError>)
    ensures r.Ok? <==> Tiles(pages, outputSize)
    ensures r.Ok? ==> AreSizes(r.value, pages, outputSize)
    ensures r.Err? ==> !IsOffsetError(r.error) && IsPagesError(pages, outputSize, r.error)
  {
    var pagesList := SortedPages(pages);
    r := ScanPages(pagesList, outputSize);
    if r.Ok? {
      AllPassTiles(pagesList, pages, outputSize, r.value);
    }
    if r.Err? {
      PagesErrorUnique(pages, outputSize, r.error);
    }
  }

  lemma SumSnoc(s: seq<nat>, k: nat)
    requires k < |s|
    ensures SumSizes(s[..k + 1]) == SumSizes(s[..k]) + s[k]
  {
    assert s[..k + 1][..k] == s[..k];
  }

  lemma {:induction false} PrefixSizes(sizes: seq<nat>, pages: map<nat, Page>, outputSize: nat, k: nat)
    requires Tiles(pages, outputSize) && AreSizes(sizes, pages, outputSize) && 1 <= k <= |pages|
    ensures SumSizes(sizes[..k + 1]) == pages[k].start + pages[k].size
    decreases k
  {
    SumSnoc(sizes, k);
    if k == 1 {
      SumSnoc(sizes, 0);
    } else {
      PrefixSizes(sizes, pages, outputSize, k - 1);
      assert Adjacent(pages, k - 1);
    }
  }

  /** The page sizes add up to the whole output. */
  lemma SizesCoverOutput(sizes: seq<nat>, pages: map<nat, Page>, outputSize: nat)
    requires Tiles(pages, outputSize) && AreSizes(sizes, pages, outputSize)
    ensures SumSizes(sizes) == outputSize
  {
    if |pages| > 0 {
      PrefixSizes(sizes, pages, outputSize, |pages|);
      assert sizes[..|pages| + 1] == sizes;
    } else {
      SumSnoc(sizes, 0);
      assert sizes[..1] == sizes;
    }
  }

  /** What is wrong with the additional data before its pages are looked at. */
  function DataError(data: Option<OutputData>): Option<FactError> {
    match data
    case None => Some(OutputBuiltinNoAdditionalData)
    case Some(d) =>
      match d.attribute
      case None => if d.pages == map[] then None else Some(OutputPagesLenUnexpected)
      case Some(t) =>
        if t == [] then Some(TreeStructureEmpty)
        else if |t| % 2 != 0 then Some(TreeStructureLenOdd)
        else if |t| > 10 then Some(TreeStructureTooLarge)
        else if exists i | 0 <= i < |t| :: t[i] >= 0x8000_0000 then Some(TreeStructureInvalid)
        else None
  }

  /** t is the topology of the data over an output of the given size. */
  ghost predicate IsTopology(data: Option<OutputData>, outputSize: nat, t: Topology) {
    DataError(data) == None && data.Some? && Tiles(data.value.pages, outputSize)
    && AreSizes(t.pageSizes, data.value.pages, outputSize)
    && t.treeStructure == match data.value.attribute case Some(s) => s case None => [1, 0]
  }

  /** The error of the data, if it has one; else that of its pages. */
  ghost predicate IsTopologyError(data: Option<OutputData>, outputSize: nat, e: FactError) {
    if DataError(data).Some? then e == DataError(data).value
    else data.Some? && IsPagesError(data.value.pages, outputSize, e)
  }

  /** There is one topology, or one error. */
  lemma TopologyUnique(data: Option<OutputData>, outputSize: nat, t: Topology)
    requires IsTopology(data, outputSize, t)
    ensures forall u | IsTopology(data, outputSize, u) :: u == t
    ensures forall e :: !IsTopologyError(data, outputSize, e)
  {
    forall u | IsTopology(data, outputSize, u) ensures u == t {
      var n := |data.value.pages|;
      assert |u.pageSizes| == |t.pageSizes| == n + 1 && u.pageSizes[0] == t.pageSizes[0];
      forall k | 1 <= k <= n ensures u.pageSizes[k] == t.pageSizes[k] {
        assert u.pageSizes[k] == data.value.pages[k].size;
      }
      assert u.pageSizes == t.pageSizes;
    }
    forall e | IsTopologyError(data, outputSize, e) ensures false {
      PagesErrorUnique(data.value.pages, outputSize, e);
    }
  }

  /** get_fact_topology: the topology of the data, or its first error. */
  method GetFactTopology(data: Option<OutputData>, outputSize: nat) returns (r: Result<Topology, FactError>)
    ensures r.Ok? <==>
              data.Some? && Tiles(data.value.pages, outputSize)
              && match data.value.attribute
                 case None => data.value.pages == map[]
                 case Some(t) => t != [] && |t| % 2 == 0 && |t| <= 10 && forall i :: 0 <= i < |t| ==> t[i] < 0x8000_0000
    ensures r.Ok? ==> IsTopology(data, outputSize, r.value)
    ensures r.Err? ==> !IsOffsetError(r.error) && IsTopologyError(data, outputSize, r.error)
    // Each check of the attribute has its own error, in this order.
    ensures r == Err(OutputBuiltinNoAdditionalData) <==> data.None?
    ensures r == Err(TreeStructureEmpty) <==> data.Some? && data.value.attribute == Some([])
    ensures r == Err(TreeStructureLenOdd) <==>
              data.Some? && data.value.attribute.Some? && |data.value.attribute.value| % 2 == 1
    ensures r == Err(TreeStructureTooLarge) <==>
              data.Some? && data.value.attribute.Some?
              && |data.value.attribute.value| % 2 == 0 && |data.value.attribute.value| > 10
    ensures r == Err(TreeStructureInvalid) <==>
              data.Some? && data.value.attribute.Some?
              && |data.value.attribute.value| % 2 == 0 && |data.value.attribute.value| <= 10
              && exists i :: 0 <= i < |data.value.attribute.value| && data.value.attribute.value[i] >= 0x8000_0000
    ensures r == Err(OutputPagesLenUnexpected) <==>
              data.Some? && data.value.attribute.None? && data.value.pages != map[]
  {
    if data.None? {
      return Err(OutputBuiltinNoAdditionalData);
    }
    var treeStructure := [1, 0];
    match data.value.attribute {
      case Some(t) =>
        if t == [] { return Err(TreeStructureEmpty); }
        if |t| % 2 != 0 { return Err(TreeStructureLenOdd); }
        if |t| > 10 { return Err(TreeStructureTooLarge); }
        if !(forall i | 0 <= i < |t| :: t[i] < 0x8000_0000) { return Err(TreeStructureInvalid); }
        treeStructure := t;
      case None =>
        if |data.value.pages| != 0 { return Err(OutputPagesLenUnexpected); }
    }
    var pageSizes := GetPageSizes(data.value.pages, outputSize);
    if pageSizes.Err? {
      PagesErrorKinds(data.value.pages, outputSize, pageSizes.error);
    }
    match pageSizes {
      case Err(e) => r := Err(e);
      case Ok(sizes) => r := Ok(Topology(treeStructure, sizes));
    }
  }
}
