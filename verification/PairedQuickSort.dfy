/** The in-place sort of two parallel lists by the first, and the start-up schedule that uses it
    (modules/RnboExport/rnbo_granular.cpp:94-127, 911-932, 1101-1121). */
module PairedQuickSort {

  type Pair = (int, int)

  /** The rows of the two lists: reordering them is one permutation applied to both. */
  ghost function Rows(arr: seq<int>, sortindices: seq<int>): (r: seq<Pair>)
    requires |arr| == |sortindices|
    ensures |r| == |arr|
    ensures forall k :: 0 <= k < |r| ==> r[k] == (arr[k], sortindices[k])
  {
    seq(|arr|, k requires 0 <= k < |arr| => (arr[k], sortindices[k]))
  }

  predicate InOrder(x: int, y: int, ascending: bool) {
    if ascending then x <= y else x >= y
  }

  ghost predicate Sorted(z: seq<Pair>, l: int, h: int, ascending: bool)
    requires 0 <= l && h < |z|
  {
    forall i, j :: l <= i < j <= h ==> InOrder(z[i].0, z[j].0, ascending)
  }

  ghost predicate AllEqual(z: seq<Pair>, l: int, h: int)
    requires 0 <= l && h < |z|
  {
    forall i, j :: l <= i <= h && l <= j <= h ==> z[i].0 == z[j].0
  }

  /** Same rows within l..h, and nothing moved elsewhere. */
  ghost predicate Reordered(z: seq<Pair>, z': seq<Pair>, l: int, h: int)
    requires 0 <= l <= h + 1 && h < |z|
  {
    && |z'| == |z|
    && (forall k :: 0 <= k < l || h < k < |z| ==> z'[k] == z[k])
    && multiset(z'[l..h + 1]) == multiset(z[l..h + 1])
  }

  lemma ReorderedTransitive(z: seq<Pair>, z1: seq<Pair>, z2: seq<Pair>, l: int, h: int)
    requires 0 <= l <= h + 1 && h < |z|
    requires Reordered(z, z1, l, h) && Reordered(z1, z2, l, h)
    ensures Reordered(z, z2, l, h)
  {
  }

  lemma SlicesJoin(z: seq<Pair>, a: int, b: int, c: int, d: int)
    requires 0 <= a <= b <= c <= d <= |z|
    ensures z[a..d] == z[a..b] + z[b..c] + z[c..d]
  {
  }

  /** Reordering a part reorders the whole. */
  lemma ReorderedWider(z: seq<Pair>, z': seq<Pair>, l: int, h: int, l': int, h': int)
    requires 0 <= l' <= l <= h + 1 <= h' + 1 && h' < |z| && Reordered(z, z', l, h)
    ensures Reordered(z, z', l', h')
  {
    SlicesJoin(z, l', l, h + 1, h' + 1);
    SlicesJoin(z', l', l, h + 1, h' + 1);
    assert z'[l'..l] == z[l'..l];
    assert z'[h + 1..h' + 1] == z[h + 1..h' + 1];
  }

  lemma SwapReorders(z0: seq<Pair>, z: seq<Pair>, i: int, j: int, l: int, h: int)
    requires 0 <= l <= i <= j <= h < |z0| && Reordered(z0, z, l, h)
    ensures Reordered(z0, Swapped(z, i, j), l, h)
  {
    var s := z[l..h + 1];
    assert Swapped(z, i, j)[l..h + 1] == s[i - l := s[j - l]][j - l := s[i - l]];
  }

  /** Reordering a range keeps all its rows on the same side of x. */
  lemma SideKept(z: seq<Pair>, z': seq<Pair>, l: int, h: int, x: int, ascending: bool, side: bool)
    requires 0 <= l <= h + 1 && h < |z| && Reordered(z, z', l, h)
    requires forall k :: l <= k <= h ==> InOrder(z[k].0, x, ascending) == side
    ensures forall k :: l <= k <= h ==> InOrder(z'[k].0, x, ascending) == side
  {
    var s, s' := z[l..h + 1], z'[l..h + 1];
    forall k | l <= k <= h
      ensures InOrder(z'[k].0, x, ascending) == side
    {
      assert s'[k - l] in multiset(s');
      assert s'[k - l] in s;
    }
  }

  /** In l..j-1 the rows up to i are in order with x, the others are not. */
  ghost predicate Parted(z: seq<Pair>, l: int, i: int, j: int, x: int, ascending: bool) {
    && 0 <= l <= i + 1 <= j <= |z|
    && (forall k :: l <= k <= i ==> InOrder(z[k].0, x, ascending))
    && (forall k :: i < k < j ==> !InOrder(z[k].0, x, ascending))
  }

  /** Row p splits l..h. */
  ghost predicate Split(z: seq<Pair>, l: int, p: int, h: int, ascending: bool) {
    0 <= l <= p <= h < |z| && Parted(z, l, p - 1, p, z[p].0, ascending) && Parted(z, p + 1, p, h + 1, z[p].0, ascending)
  }

  function Swapped(z: seq<Pair>, a: int, b: int): seq<Pair>
    requires 0 <= a < |z| && 0 <= b < |z|
  {
    z[a := z[b]][b := z[a]]
  }

  lemma PartedTakes(z: seq<Pair>, l: int, i: int, j: int, x: int, ascending: bool)
    requires j < |z| && Parted(z, l, i, j, x, ascending) && InOrder(z[j].0, x, ascending)
    ensures Parted(Swapped(z, i + 1, j), l, i + 1, j + 1, x, ascending)
  {
  }

  /** Where the scan stands before row j. */
  ghost predicate ScanInv(z0: seq<Pair>, z: seq<Pair>, l: int, i: int, j: int, h: int, x: int, ascending: bool)
    requires 0 <= l < h < |z0|
  {
    && Reordered(z0, z, l, h) && z[h] == z0[h] && Parted(z, l, i, j, x, ascending)
    && (AllEqual(z0, l, h) ==> i == j - 1 && z == z0)
  }

  lemma ScanTakes(z0: seq<Pair>, z: seq<Pair>, l: int, i: int, j: int, h: int, x: int, ascending: bool)
    requires 0 <= l < h < |z0| && l <= j < h && ScanInv(z0, z, l, i, j, h, x, ascending)
    requires InOrder(z[j].0, x, ascending)
    ensures ScanInv(z0, Swapped(z, i + 1, j), l, i + 1, j + 1, h, x, ascending)
  {
    PartedTakes(z, l, i, j, x, ascending);
    SwapReorders(z0, z, i + 1, j, l, h);
    SelfSwap(z, j);
  }

  lemma ScanLeaves(z0: seq<Pair>, z: seq<Pair>, l: int, i: int, j: int, h: int, x: int, ascending: bool)
    requires 0 <= l < h < |z0| && l <= j < h && ScanInv(z0, z, l, i, j, h, x, ascending)
    requires x == z0[h].0 && !InOrder(z[j].0, x, ascending)
    ensures ScanInv(z0, z, l, i, j + 1, h, x, ascending)
  {
  }

  lemma SelfSwap(z: seq<Pair>, a: int)
    requires 0 <= a < |z|
    ensures Swapped(z, a, a) == z
  {
  }

  lemma PivotSplits(z: seq<Pair>, l: int, i: int, h: int, ascending: bool)
    requires 0 <= h < |z| && Parted(z, l, i, h, z[h].0, ascending)
    ensures Split(Swapped(z, i + 1, h), l, i + 1, h, ascending)
  {
  }

  /** The two index lists of the patcher. */
  class Table {
    var arr: seq<int>
    var sortindices: seq<int>

    constructor (keys: seq<int>, indices: seq<int>)
      requires |keys| == |indices|
      ensures Valid() && arr == keys && sortindices == indices
    {
      arr, sortindices := keys, indices;
    }

    ghost predicate Valid()
      reads this
    {
      |arr| == |sortindices|
    }

    ghost function Content(): (z: seq<Pair>)
      requires Valid()
      reads this
      ensures |z| == |arr|
    {
      Rows(arr, sortindices)
    }

    method SwapRows(a: int, b: int)
      requires Valid() && 0 <= a < |arr| && 0 <= b < |arr|
      modifies this
      ensures Valid() && Content() == Swapped(old(Content()), a, b)
    {
      arr := SwapElements(arr, a, b);
      sortindices := SwapElements(sortindices, a, b);
    }

    /** One row of the scan: a row in order with the last key x is swapped to the front. */
    method ScanRow(i: int, j: int, x: int, ascending: bool) returns (i': int)
      requires Valid() && -1 <= i < j < |arr|
      modifies this
      ensures Valid() && |arr| == old(|arr|)
      ensures var taken := InOrder(old(arr[j]), x, ascending);
        && i' == (if taken then i + 1 else i)
        && Content() == if taken then Swapped(old(Content()), i + 1, j) else old(Content())
    {
      var asc := ascending && arr[j] <= x;
      var desc := !ascending && arr[j] >= x;
      i' := i;
      if asc || desc {
        i' := i + 1;
        SwapRows(i', j);
      }
    }

    method Scan(l: int, h: int, x: int, ascending: bool) returns (i: int)
      requires Valid() && 0 <= l < h < |arr| && x == arr[h]
      modifies this
      ensures Valid() && Reordered(old(Content()), Content(), l, h) && Content()[h] == old(Content())[h]
      ensures Parted(Content(), l, i, h, x, ascending)
      ensures AllEqual(old(Content()), l, h) ==> i == h - 1 && Content() == old(Content())
    {
      i := l - 1;
      ghost var z0 := Content();
      for j := l to h
        invariant Valid() && |arr| == |z0| && l - 1 <= i < j
        invariant ScanInv(z0, Content(), l, i, j, h, x, ascending)
      {
        ghost var z := Content();
        if InOrder(z[j].0, x, ascending) {
          ScanTakes(z0, z, l, i, j, h, x, ascending);
        } else {
          ScanLeaves(z0, z, l, i, j, h, x, ascending);
        }
        i := ScanRow(i, j, x, ascending);
      }
    }

    method Partition(l: int, h: int, ascending: bool) returns (p: int)
      requires Valid() && 0 <= l < h < |arr|
      modifies this
      ensures Valid() && Reordered(old(Content()), Content(), l, h) && Split(Content(), l, p, h, ascending)
      ensures AllEqual(old(Content()), l, h) ==> p == h && Content() == old(Content())
    {
      var x := arr[h];
      ghost var z0 := Content();
      var i := Scan(l, h, x, ascending);
      ghost var z1 := Content();
      PivotSplits(z1, l, i, h, ascending);
      SwapReorders(z0, z1, i + 1, h, l, h);
      SelfSwap(z1, h);
      i := i + 1;
      SwapRows(i, h);
      return i;
    }

    /** Sorts the rows l..h by key. */
    method QuickSort(l: int, h: int, ascending: bool)
      requires Valid() && 0 <= l <= h + 1 && h < |arr|
      modifies this
      ensures Valid() && SortedFrom(old(Content()), Content(), l, h, ascending)
      ensures forall i, j :: l <= i < j <= h ==> if ascending then arr[i] <= arr[j] else arr[i] >= arr[j]
      decreases h - l
    {
      if l < h {
        ghost var z0 := Content();
        var p := Partition(l, h, ascending);
        ghost var z1 := Content();
        QuickSort(l, p - 1, ascending);
        ghost var z2 := Content();
        QuickSort(p + 1, h, ascending);
        HalvesMakeWhole(z0, z1, z2, Content(), l, p, h, ascending);
        SortedKeys(arr, sortindices, l, h, ascending);
      }
    }

    /** Start-up: sort by order, then schedule each parameter. */
    method ProcessParamInitEvents() returns (scheduled: seq<int>)
      requires Valid()
      modifies this
      ensures Valid() && Sorted(Content(), 0, |arr| - 1, true)
      ensures forall i, j :: 0 <= i < j < |arr| ==> arr[i] <= arr[j]
      ensures multiset(Content()) == multiset(old(Content()))
      ensures scheduled == sortindices
      ensures AllEqual(old(Content()), 0, |old(arr)| - 1) ==> scheduled == old(sortindices)
    {
      ghost var z0 := Content();
      ghost var indices := sortindices;
      QuickSort(0, |arr| - 1, true);
      assert z0[0..|arr|] == z0 && Content()[0..|arr|] == Content();
      scheduled := [];
      for i := 0 to |arr|
        invariant scheduled == sortindices[..i]
      {
        scheduled := scheduled + [sortindices[i]];
      }
      assert Content() == z0 ==>
        forall k :: 0 <= k < |indices| ==> Content()[k].1 == sortindices[k] && z0[k].1 == indices[k];
    }
  }

  /** The four parameters of the patcher all have order 0: they are scheduled in the order 0, 1, 2, 3. */
  method Startup() returns (scheduled: seq<int>)
    ensures scheduled == [0, 1, 2, 3]
  {
    var table := new Table([0, 0, 0, 0], [0, 1, 2, 3]);
    scheduled := table.ProcessParamInitEvents();
  }

  method SwapElements(list: seq<int>, a: int, b: int) returns (r: seq<int>)
    requires 0 <= a < |list| && 0 <= b < |list|
    ensures |r| == |list| && r[a] == list[b] && r[b] == list[a]
    ensures forall k :: 0 <= k < |list| && k != a && k != b ==> r[k] == list[k]
  {
    var tmp := list[a];
    r := list[a := list[b]];
    r := r[b := tmp];
  }

  /** What sorting does to the rows l..h; rows with one and the same key are left alone. */
  ghost predicate SortedFrom(z: seq<Pair>, z': seq<Pair>, l: int, h: int, ascending: bool)
    requires 0 <= l <= h + 1 && h < |z|
  {
    Reordered(z, z', l, h) && Sorted(z', l, h, ascending) && (AllEqual(z, l, h) ==> z' == z)
  }

  /** Sorting each side of a partitioned range sorts the range. */
  lemma HalvesMakeWhole(z0: seq<Pair>, z1: seq<Pair>, z2: seq<Pair>, z3: seq<Pair>,
                        l: int, p: int, h: int, ascending: bool)
    requires 0 <= l < h < |z0| && Reordered(z0, z1, l, h) && Split(z1, l, p, h, ascending)
    requires AllEqual(z0, l, h) ==> p == h && z1 == z0
    requires SortedFrom(z1, z2, l, p - 1, ascending) && SortedFrom(z2, z3, p + 1, h, ascending)
    ensures SortedFrom(z0, z3, l, h, ascending)
  {
    ReorderedWider(z1, z2, l, p - 1, l, h);
    ReorderedWider(z2, z3, p + 1, h, l, h);
    ReorderedTransitive(z0, z1, z2, l, h);
    ReorderedTransitive(z0, z2, z3, l, h);
    SortedWhole(z1, z2, z3, l, p, h, ascending);
  }

  lemma SortedWhole(z1: seq<Pair>, z2: seq<Pair>, z3: seq<Pair>, l: int, p: int, h: int, ascending: bool)
    requires Split(z1, l, p, h, ascending)
    requires Reordered(z1, z2, l, p - 1) && Sorted(z2, l, p - 1, ascending)
    requires Reordered(z2, z3, p + 1, h) && Sorted(z3, p + 1, h, ascending)
    ensures Sorted(z3, l, h, ascending)
  {
    var x := z1[p].0;
    SideKept(z1, z2, l, p - 1, x, ascending, true);
    SideKept(z2, z3, p + 1, h, x, ascending, false);
    assert z3[p].0 == x;
    assert forall k :: l <= k < p ==> z3[k] == z2[k];
    SortedAround(z3, l, p, h, ascending);
  }

  lemma SortedKeys(arr: seq<int>, sortindices: seq<int>, l: int, h: int, ascending: bool)
    requires |arr| == |sortindices| && 0 <= l && h < |arr| && Sorted(Rows(arr, sortindices), l, h, ascending)
    ensures forall i, j :: l <= i < j <= h ==> if ascending then arr[i] <= arr[j] else arr[i] >= arr[j]
  {
    var z := Rows(arr, sortindices);
    assert forall i, j :: l <= i < j <= h ==> InOrder(z[i].0, z[j].0, ascending);
  }

  lemma SortedAround(z: seq<Pair>, l: int, p: int, h: int, ascending: bool)
    requires 0 <= l <= p <= h < |z|
    requires Sorted(z, l, p - 1, ascending) && Sorted(z, p + 1, h, ascending)
    requires forall k :: l <= k <= p - 1 ==> InOrder(z[k].0, z[p].0, ascending)
    requires forall k :: p + 1 <= k <= h ==> !InOrder(z[k].0, z[p].0, ascending)
    ensures Sorted(z, l, h, ascending)
  {
  }
}
