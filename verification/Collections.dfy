/** The slice helpers of crates/utils/src/collections.rs. */
module Collections {

  /** has_dup: each element is looked for in what follows it. */
  method HasDup<T(==)>(s: seq<T>) returns (r: bool)
    ensures r <==> exists i, j :: 0 <= i < j < |s| && s[i] == s[j]
  {
    var i := 1;
    while i < |s|
      invariant 1 <= i
      invariant forall k, j :: 0 <= k < i - 1 && k < j < |s| ==> s[k] != s[j]
    {
      if s[i - 1] in s[i..] {
        var j :| 0 <= j < |s[i..]| && s[i..][j] == s[i - 1];
        assert s[i - 1] == s[i + j];
        return true;
      }
      forall j | i <= j < |s| ensures s[i - 1] != s[j] {
        assert s[j] == s[i..][j - i];
      }
      i := i + 1;
    }
    return false;
  }

  predicate WindowInOrder(data: seq<nat>, k: nat)
    requires k + 1 < |data|
  {
    data[k] <= data[k + 1]
  }

  /** is_sorted compares neighbours only. */
  predicate IsSorted(data: seq<nat>) {
    |data| == 1 || forall k :: 0 <= k < |data| - 1 ==> WindowInOrder(data, k)
  }

  lemma {:induction false} NeighboursSuffice(data: seq<nat>, i: nat, j: nat)
    requires IsSorted(data) && i <= j < |data|
    ensures data[i] <= data[j]
    decreases j - i
  {
    if i < j {
      var k := j - 1;
      assert WindowInOrder(data, k);
      NeighboursSuffice(data, i, k);
    }
  }

  /** Together the two checks accept exactly the strictly ascending lists. */
  lemma ChecksMeanAscending(data: seq<nat>)
    ensures IsSorted(data) && !(exists i, j :: 0 <= i < j < |data| && data[i] == data[j])
            <==> forall i, j :: 0 <= i < j < |data| ==> data[i] < data[j]
  {
    if IsSorted(data) {
      forall i, j | 0 <= i < j < |data| && data[i] != data[j] ensures data[i] < data[j] {
        NeighboursSuffice(data, i, j);
      }
    }
  }
}
