/** The min-heap of expiry times: the repository's Less, Swap, Push and Pop under the sift loops of
    Go's container/heap. */
module TtlHeap {
  import opened LoungeSpec

  /** `k` is a child of `i` in the array layout of a binary tree. */
  predicate Child(i: int, k: int) {
    k == 2 * i + 1 || k == 2 * i + 2
  }

  /** No item expires before its parent. */
  ghost predicate IsHeap(items: seq<Entry<string>>) {
    forall i, k | 0 <= i < k < |items| && Child(i, k) :: items[i].expireAt <= items[k].expireAt
  }

  lemma {:induction false} RootIsOldest(items: seq<Entry<string>>, j: nat)
    requires IsHeap(items) && j < |items|
    ensures items[0].expireAt <= items[j].expireAt
  {
    if j > 0 {
      RootIsOldest(items, (j - 1) / 2);
      assert Child((j - 1) / 2, j);
    }
  }

  /** A heap but for the item at `j`, which may expire before its parent. */
  ghost predicate HeapButUp(items: seq<Entry<string>>, j: int) {
    && (forall i, k | 0 <= i < k < |items| && Child(i, k) && k != j :: items[i].expireAt <= items[k].expireAt)
    && (forall i, k | 0 <= i < k < |items| && Child(i, j) && Child(j, k) :: items[i].expireAt <= items[k].expireAt)
  }

  lemma SiftUpStep(items: seq<Entry<string>>, j: int)
    requires 0 < j < |items| && HeapButUp(items, j) && items[j].expireAt < items[(j - 1) / 2].expireAt
    ensures var i := (j - 1) / 2; HeapButUp(items[i := items[j]][j := items[i]], i)
  {}

  lemma SiftUpStop(items: seq<Entry<string>>, j: int)
    requires 0 <= j < |items| && HeapButUp(items, j)
    requires j > 0 ==> items[(j - 1) / 2].expireAt <= items[j].expireAt
    ensures IsHeap(items)
  {}

  /** The first `n` items form a heap but for the item at `j`, which may expire after its children. */
  ghost predicate HeapButDown(items: seq<Entry<string>>, j: int, n: int)
    requires n <= |items|
  {
    && (forall i, k | 0 <= i < k < n && Child(i, k) && i != j :: items[i].expireAt <= items[k].expireAt)
    && (forall i, k | 0 <= i < k < n && Child(i, j) && Child(j, k) :: items[i].expireAt <= items[k].expireAt)
  }

  lemma SwapKeepsItems(items: seq<Entry<string>>, i: nat, j: nat)
    requires i < |items| && j < |items|
    ensures multiset(items[i := items[j]][j := items[i]]) == multiset(items)
  {}

  /** `j` is the child of `i` among the first `n` items that expires first. */
  ghost predicate FirstChild(items: seq<Entry<string>>, i: int, j: int, n: int)
    requires n <= |items|
  {
    && 0 <= i < j < n && Child(i, j)
    && (forall k | i < k < n && Child(i, k) :: items[j].expireAt <= items[k].expireAt)
  }

  lemma SiftDownStep(items: seq<Entry<string>>, i: int, j: int, n: int)
    requires n <= |items| && HeapButDown(items, i, n) && FirstChild(items, i, j, n)
    requires items[j].expireAt < items[i].expireAt
    ensures HeapButDown(items[i := items[j]][j := items[i]], j, n)
  {}

  lemma SiftDownStop(items: seq<Entry<string>>, i: int, n: nat)
    requires 0 <= i && n <= |items| && HeapButDown(items, i, n)
    requires forall k | i < k < n && Child(i, k) :: items[i].expireAt <= items[k].expireAt
    ensures IsHeap(items[..n])
  {}

  /** Moving the last item of a heap to its root leaves a heap but for the root. */
  lemma RootReplaced(items: seq<Entry<string>>)
    requires IsHeap(items) && items != []
    ensures var n := |items| - 1; HeapButDown(items[0 := items[n]][n := items[0]], 0, n)
    ensures forall e <- items :: items[0].expireAt <= e.expireAt
  {
    forall j | 0 <= j < |items| ensures items[0].expireAt <= items[j].expireAt {
      RootIsOldest(items, j);
    }
  }

  class TTLHeap {
    var items: seq<Entry<string>>

    constructor ()
      ensures items == []
    {
      items := [];
    }

    ghost predicate Valid()
      reads this
    {
      IsHeap(items)
    }

    function Len(): nat
      reads this
    {
      |items|
    }

    predicate Less(i: nat, j: nat)
      requires i < |items| && j < |items|
      reads this
    {
      items[i].expireAt < items[j].expireAt
    }

    method Swap(i: nat, j: nat)
      requires i < |items| && j < |items|
      modifies this
      ensures items == old(items)[i := old(items)[j]][j := old(items)[i]]
      ensures multiset(items) == multiset(old(items))
    {
      SwapKeepsItems(items, i, j);
      items := items[i := items[j]][j := items[i]];
    }

    method Up(start: nat)
      requires start < |items| && HeapButUp(items, start)
      modifies this
      ensures Valid() && multiset(items) == multiset(old(items))
    {
      var j := start;
      hide HeapButUp;
      while j > 0 && Less(j, (j - 1) / 2)
        invariant 0 <= j < |items| && HeapButUp(items, j)
        invariant multiset(items) == multiset(old(items))
      {
        SiftUpStep(items, j);
        Swap((j - 1) / 2, j);
        j := (j - 1) / 2;
      }
      SiftUpStop(items, j);
    }

    method Down(n: nat)
      requires n <= |items| && HeapButDown(items, 0, n)
      modifies this
      ensures |items| == |old(items)| && multiset(items) == multiset(old(items))
      ensures IsHeap(items[..n]) && items[n..] == old(items)[n..]
    {
      var i := 0;
      while 2 * i + 1 < n
        invariant |items| == |old(items)| && multiset(items) == multiset(old(items))
        invariant 0 <= i && HeapButDown(items, i, n) && items[n..] == old(items)[n..]
      {
        hide HeapButDown;
        var j := 2 * i + 1;
        if j + 1 < n && Less(j + 1, j) {
          j := j + 1;
        }
        if !Less(j, i) {
          break;
        }
        assert FirstChild(items, i, j, n);
        SiftDownStep(items, i, j, n);
        Swap(i, j);
        i := j;
      }
      SiftDownStop(items, i, n);
    }

    /** `heap.Push`. */
    method Push(x: Entry<string>)
      requires Valid()
      modifies this
      ensures Valid() && multiset(items) == multiset(old(items)) + multiset{x}
    {
      items := items + [x];
      Up(|items| - 1);
    }

    /** `heap.Pop`: swaps the root with the last item, sifts down, and cuts the last item off. */
    method Pop() returns (x: Entry<string>)
      requires Valid() && items != []
      modifies this
      ensures Valid() && multiset(items) == multiset(old(items)) - multiset{x}
      ensures x in old(items) && x == old(items)[0]
      ensures forall e <- old(items) :: x.expireAt <= e.expireAt
    {
      var n := |items| - 1;
      RootReplaced(items);
      hide IsHeap, HeapButDown;
      Swap(0, n);
      Down(n);
      x := items[n];
      assert items == items[..n] + [x];
      items := items[..n];
    }
  }
}
