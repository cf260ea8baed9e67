/** The order of a binary heap, stated on the sequence of keys in slot order. */
module HeapOrder {

  /** The slot of k's parent: Go's `(k - 1) / 2`. */
  function Parent(k: int): (p: int)
    requires 0 <= k
    ensures 0 <= p && (1 <= k ==> p < k)
  {
    if k == 0 then 0 else (k - 1) / 2
  }

  ghost predicate Pair(ks: seq<real>, k: int)
    requires 1 <= k < |ks|
  {
    ks[Parent(k)] <= ks[k]
  }

  /** The first n slots are in heap order. */
  ghost predicate Ordered(ks: seq<real>, n: int) {
    0 <= n <= |ks| && forall k | 1 <= k < n :: Pair(ks, k)
  }

  /** No child of i is below i's parent. */
  ghost predicate Bridged(ks: seq<real>, n: int, i: int)
    requires 0 <= i < |ks| && n <= |ks|
  {
    1 <= i ==> forall k {:trigger Parent(k)} | 1 <= k < n && Parent(k) == i :: ks[Parent(i)] <= ks[k]
  }

  /** In order but for the pair (i, parent of i). */
  ghost predicate OrderedBelow(ks: seq<real>, n: int, i: int) {
    && 0 <= i < |ks| && 0 <= n <= |ks|
    && (forall k | 1 <= k < n && k != i :: Pair(ks, k))
    && Bridged(ks, n, i)
  }

  /** In order but for the pairs (i, child of i). */
  ghost predicate OrderedAbove(ks: seq<real>, n: int, i: int) {
    && 0 <= i < |ks| && 0 <= n <= |ks|
    && (forall k | 1 <= k < n && Parent(k) != i :: Pair(ks, k))
    && Bridged(ks, n, i)
  }

  /** In order but for the pairs that involve i. */
  ghost predicate OrderedAround(ks: seq<real>, n: int, i: int) {
    && 0 <= i < |ks| && 0 <= n <= |ks|
    && (forall k | 1 <= k < n && k != i && Parent(k) != i :: Pair(ks, k))
    && Bridged(ks, n, i)
  }

  function Swapped<T>(s: seq<T>, i: int, j: int): seq<T>
    requires 0 <= i < |s| && 0 <= j < |s|
  {
    s[i := s[j]][j := s[i]]
  }

  lemma SwapUp(ks: seq<real>, n: int, j: int)
    requires OrderedBelow(ks, n, j) && 1 <= j < n && !Pair(ks, j)
    ensures OrderedBelow(Swapped(ks, Parent(j), j), n, Parent(j))
  {
    var i := Parent(j);
    var ss := Swapped(ks, i, j);
    forall k | 1 <= k < n && k != i
      ensures Pair(ss, k)
    {
      assert k != j ==> Pair(ks, k);
    }
    forall k | 1 <= k < n && Parent(k) == i && 1 <= i
      ensures ss[Parent(i)] <= ss[k]
    {
      assert Pair(ks, i);
      assert k != j ==> Pair(ks, k);
    }
  }

  /** c is the smaller child of i and lies below i. */
  ghost predicate SmallerChild(ks: seq<real>, n: int, i: int, c: int)
  {
    && 0 <= i < c < n <= |ks| && Parent(c) == i && ks[c] < ks[i]
    && forall k {:trigger Parent(k)} | 1 <= k < n && Parent(k) == i :: ks[c] <= ks[k]
  }

  lemma ChildIsSmaller(ks: seq<real>, n: int, i: int, c: int)
    requires 0 <= i < c < n <= |ks| && Parent(c) == i && ks[c] < ks[i]
    requires c == 2 * i + 1 ==> 2 * i + 2 >= n || ks[c] <= ks[2 * i + 2]
    requires c == 2 * i + 2 ==> ks[c] <= ks[2 * i + 1]
    ensures SmallerChild(ks, n, i, c)
  {
  }

  lemma SwapDown(ks: seq<real>, n: int, i: int, c: int)
    requires OrderedAround(ks, n, i) && SmallerChild(ks, n, i, c)
    ensures OrderedAbove(Swapped(ks, i, c), n, c)
  {
    var ss := Swapped(ks, i, c);
    forall k | 1 <= k < n && Parent(k) != c
      ensures Pair(ss, k)
    {
      assert k != i && Parent(k) != i ==> Pair(ks, k);
    }
    forall k | 1 <= k < n && Parent(k) == c && 1 <= c
      ensures ss[Parent(c)] <= ss[k]
    {
      assert Pair(ks, k);
    }
  }

  /** The root of a heap is a least element of it. */
  lemma {:induction false} RootIsLeast(ks: seq<real>, k: int)
    requires Ordered(ks, |ks|) && 0 <= k < |ks|
    ensures ks[0] <= ks[k]
    decreases k
  {
    if k == 0 {
    } else {
      assert Pair(ks, k);
      RootIsLeast(ks, Parent(k));
    }
  }
}

/** The indexed binary heap of the engine: Go's `container/heap` algorithms run over
    the two identical `heap.Interface` implementations, the router's `pq` and the
    timeline's `heapImpl`.  An element is a handle (the identity of a `*node` or of an
    `*Event`); its ordering key and its `index` field are looked up by handle. */
module ContainerHeap {
  import opened HeapOrder

  class IndexedHeap<T(==)> {
    var h: seq<T>            // the slice, in heap order
    var key: map<T, real>    // the field that Less compares
    var index: map<T, int>   // the index field; -1 once popped
    ghost var elems: set<T>  // the elements currently stored

    /** Every stored element sits exactly where its index field says. */
    ghost predicate Indexed()
      reads this
    {
      && (forall k {:trigger h[k]} | 0 <= k < |h| ::
            h[k] in elems && h[k] in key && h[k] in index && index[h[k]] == k)
      && (forall x | x in elems :: x in index && 0 <= index[x] < |h| && h[index[x]] == x)
      && (forall x | x in index && x !in elems :: index[x] == -1)
    }

    /** The stored keys in slot order. */
    ghost function Keys(): (ks: seq<real>)
      reads this
      ensures |ks| == |h| && forall k | 0 <= k < |h| && h[k] in key :: ks[k] == key[h[k]]
    {
      seq(|h|, k requires 0 <= k < |h| reads this => if h[k] in key then key[h[k]] else 0.0)
    }

    ghost predicate Valid()
      reads this
    {
      Indexed() && Ordered(Keys(), |h|)
    }

    constructor ()
      ensures Valid() && elems == {} && key == map[] && index == map[]
    {
      h, key, index, elems := [], map[], map[], {};
    }

    method Len() returns (n: nat)
      requires Valid()
      ensures n == |h| && (n == 0 <==> elems == {})
    {
      n := |h|;
      assert n > 0 ==> h[0] in elems;
    }

    method Swap(i: int, j: int)
      requires Indexed() && 0 <= i < |h| && 0 <= j < |h|
      modifies this`h, this`index
      ensures Indexed() && h == Swapped(old(h), i, j) && index.Keys == old(index.Keys)
      ensures Keys() == Swapped(old(Keys()), i, j)
    {
      h := h[i := h[j]][j := h[i]];
      index := index[h[i] := i];
      index := index[h[j] := j];
    }

    method Up(j0: int)
      requires Indexed() && OrderedBelow(Keys(), |h|, j0)
      modifies this`h, this`index
      ensures Valid() && index.Keys == old(index.Keys)
    {
      var j := j0;
      while true
        invariant Indexed() && index.Keys == old(index.Keys)
        invariant OrderedBelow(Keys(), |h|, j)
        decreases j
      {
        var i := Parent(j);
        if i == j || !(key[h[j]] < key[h[i]]) {
          break;
        }
        SwapUp(Keys(), |h|, j);
        Swap(i, j);
        j := i;
      }
    }

    /** The child that Down would swap i with: the smaller one, if it is below i. */
    method ChildBelow(i: int, n: int) returns (below: bool, j: int)
      requires Indexed() && 0 <= i < |h| && 0 <= n <= |h|
      ensures below ==> SmallerChild(Keys(), n, i, j)
      ensures !below ==> forall k {:trigger Parent(k)} | 1 <= k < n && Parent(k) == i :: Pair(Keys(), k)
    {
      j := 2 * i + 1;
      if j >= n {
        return false, j;
      }
      if j + 1 < n && key[h[j + 1]] < key[h[j]] {
        j := j + 1;
      }
      below := key[h[j]] < key[h[i]];
      if below {
        ChildIsSmaller(Keys(), n, i, j);
      }
    }

    /** One step of Down: i changes place with its smaller child. */
    method SwapWithChild(i: int, j: int, n: int)
      requires Indexed() && OrderedAround(Keys(), n, i) && SmallerChild(Keys(), n, i, j)
      modifies this`h, this`index
      ensures Indexed() && index.Keys == old(index.Keys)
      ensures |h| == old(|h|) && forall k | n <= k < |h| :: h[k] == old(h)[k]
      ensures OrderedAbove(Keys(), n, j) && OrderedAround(Keys(), n, j)
    {
      SwapDown(Keys(), n, i, j);
      Swap(i, j);
    }

    method Down(i0: int, n: int) returns (moved: bool)
      requires Indexed() && OrderedAround(Keys(), n, i0)
      modifies this`h, this`index
      ensures Indexed() && |h| == old(|h|) && index.Keys == old(index.Keys)
      ensures forall k | n <= k < |h| :: h[k] == old(h)[k]
      ensures moved ==> Ordered(Keys(), n)
      ensures !moved ==> h == old(h) && OrderedBelow(Keys(), n, i0)
    {
      var i := i0;
      while true
        invariant Indexed() && i0 <= i < |h| == old(|h|) && index.Keys == old(index.Keys)
        invariant forall k | n <= k < |h| :: h[k] == old(h)[k]
        invariant i == i0 ==> h == old(h)
        invariant OrderedAround(Keys(), n, i)
        invariant i0 < i ==> OrderedAbove(Keys(), n, i)
        decreases |h| - i
      {
        var below, j := ChildBelow(i, n);
        if !below {
          break;
        }
        SwapWithChild(i, j, n);
        i := j;
      }
      moved := i > i0;
    }

    /** heap.Push: append, then sift up. */
    method Push(x: T, k: real)
      requires Valid() && x !in elems
      modifies this
      ensures Valid() && elems == old(elems) + {x} && key == old(key)[x := k]
      ensures index.Keys == old(index.Keys) + {x}
    {
      ghost var ks := Keys();
      key := key[x := k];
      index := index[x := |h|];
      h := h + [x];
      elems := elems + {x};
      AppendKeepsOrder(ks, k);
      assert Keys() == ks + [k];
      Up(|h| - 1);
    }

    lemma AppendKeepsOrder(ks: seq<real>, k: real)
      requires Ordered(ks, |ks|)
      ensures OrderedBelow(ks + [k], |ks| + 1, |ks|)
    {
      forall c | 1 <= c < |ks|
        ensures Pair(ks + [k], c)
      {
        assert Pair(ks, c);
      }
    }

    /** heap.Pop: swap the root to the end, sift the new root down, cut the end off. */
    method Pop() returns (x: T)
      requires Valid() && elems != {}
      modifies this
      ensures Valid() && x in old(elems) && elems == old(elems) - {x} && key == old(key)
      ensures index.Keys == old(index.Keys) && index[x] == -1
      ensures forall y | y in old(elems) :: y in key && key[x] <= key[y]
    {
      RootIsLeastOfAll();
      x := h[0];
      var n := |h| - 1;
      RootSwapKeepsOrder(Keys());
      Swap(0, n);
      assert h[n] == x;
      var _ := Down(0, n);
      Cut();
    }

    lemma RootSwapKeepsOrder(ks: seq<real>)
      requires Ordered(ks, |ks|) && |ks| > 0
      ensures OrderedAround(Swapped(ks, 0, |ks| - 1), |ks| - 1, 0)
    {
      var ss := Swapped(ks, 0, |ks| - 1);
      forall c | 1 <= c < |ks| - 1 && Parent(c) != 0
        ensures Pair(ss, c)
      {
        assert Pair(ks, c);
      }
    }

    lemma RootIsLeastOfAll()
      requires Valid() && elems != {}
      ensures |h| > 0 && h[0] in elems
      ensures forall y | y in elems :: y in key && key[h[0]] <= key[y]
    {
      var z :| z in elems;
      assert h[index[z]] == z;
      forall y | y in elems
        ensures y in key && key[h[0]] <= key[y]
      {
        assert h[index[y]] == y;
        RootIsLeast(Keys(), index[y]);
      }
    }

    /** The interface's own Pop: drop the last slot and mark its element as removed. */
    method Cut()
      requires Indexed() && |h| > 0 && Ordered(Keys(), |h| - 1)
      modifies this
      ensures Valid() && elems == old(elems) - {old(h[|h| - 1])} && key == old(key)
      ensures index == old(index)[old(h[|h| - 1]) := -1]
    {
      ghost var ks := Keys();
      var n := |h| - 1;
      var x := h[n];
      index := index[x := -1];
      h := h[..n];
      elems := elems - {x};
      assert Keys() == ks[..n];
      forall c | 1 <= c < n
        ensures Pair(Keys(), c)
      {
        assert Pair(ks, c);
      }
    }

    /** Assign a new key to a stored element, then heap.Fix at its index. */
    method Fix(x: T, k: real)
      requires Valid() && x in elems
      modifies this
      ensures Valid() && elems == old(elems) && key == old(key)[x := k]
      ensures index.Keys == old(index.Keys)
    {
      ghost var ks := Keys();
      var i := index[x];
      key := key[x := k];
      assert Keys() == ks[i := k];
      NewKeyKeepsOrder(ks, i, k);
      var moved := Down(i, |h|);
      if !moved {
        Up(i);
      }
    }

    lemma NewKeyKeepsOrder(ks: seq<real>, i: int, k: real)
      requires Ordered(ks, |ks|) && 0 <= i < |ks|
      ensures OrderedAround(ks[i := k], |ks|, i)
    {
      var ss := ks[i := k];
      forall c | 1 <= c < |ks| && c != i && Parent(c) != i
        ensures Pair(ss, c)
      {
        assert Pair(ks, c);
      }
      forall c | 1 <= c < |ks| && Parent(c) == i && 1 <= i
        ensures ss[Parent(i)] <= ss[c]
      {
        assert Pair(ks, c) && Pair(ks, i);
      }
    }
  }
}
