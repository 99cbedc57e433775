/**
 * The priority queue of delayed executables: a binary heap, earliest scheduled time first.
 *
 * An entry is pushed at the end and sifted up while it is strictly earlier than its parent. The top
 * is taken off by moving the last entry to it and sifting that down to the earlier child.
 */
module HeapSpec {

  // A function with the time it is scheduled for; the id stands for the function.
  datatype DelayedExecutable = DelayedExecutable(id: nat, scheduledTime: int)

  type Heap = seq<DelayedExecutable>

  // DelayedExecutableCompare: the left one goes below the right one.
  predicate Below(left: DelayedExecutable, right: DelayedExecutable) {
    left.scheduledTime > right.scheduledTime
  }

  function Parent(i: nat): nat
    requires i > 0
  {
    (i - 1) / 2
  }

  function Swap(h: Heap, i: nat, j: nat): (r: Heap)
    requires i < |h| && j < |h|
    ensures |r| == |h|
  {
    h[i := h[j]][j := h[i]]
  }

  function SiftUp(h: Heap, i: nat): (r: Heap)
    requires i < |h|
    ensures |r| == |h|
    decreases i
  {
    if i > 0 && Below(h[Parent(i)], h[i]) then SiftUp(Swap(h, i, Parent(i)), Parent(i)) else h
  }

  function Push(h: Heap, x: DelayedExecutable): Heap {
    SiftUp(h + [x], |h|)
  }

  // The child that has to stay above the other one.
  function UpperChild(h: Heap, i: nat): (c: nat)
    requires 2 * i + 1 < |h|
    ensures i < c < |h|
  {
    if 2 * i + 2 < |h| && Below(h[2 * i + 1], h[2 * i + 2]) then 2 * i + 2 else 2 * i + 1
  }

  function SiftDown(h: Heap, i: nat): (r: Heap)
    requires i < |h|
    ensures |r| == |h|
    decreases |h| - i
  {
    if 2 * i + 1 < |h| && Below(h[i], h[UpperChild(h, i)])
    then SiftDown(Swap(h, i, UpperChild(h, i)), UpperChild(h, i))
    else h
  }

  function Pop(h: Heap): Heap
    requires h != []
  {
    var last := |h| - 1;
    if last == 0 then [] else SiftDown(h[..last][0 := h[last]], 0)
  }

  // ---- the heap order ----

  predicate Ordered(h: Heap, i: nat)
    requires i < |h|
  {
    i > 0 ==> !Below(h[Parent(i)], h[i])
  }

  ghost predicate IsHeap(h: Heap) {
    forall i :: 0 <= i < |h| ==> Ordered(h, i)
  }

  // In order except that i may be earlier than its parent; its children are not.
  ghost predicate HeapButUp(h: Heap, i: nat)
    requires i < |h|
  {
    && (forall j :: 0 <= j < |h| && j != i ==> Ordered(h, j))
    && (i > 0 ==> forall j :: 0 < j < |h| && Parent(j) == i ==> !Below(h[Parent(i)], h[j]))
  }

  // In order except that i may be later than its children; they are not earlier than its parent.
  ghost predicate HeapButDown(h: Heap, i: nat)
    requires i < |h|
  {
    && (forall j :: 0 < j < |h| && Parent(j) != i ==> Ordered(h, j))
    && (i > 0 ==> forall j :: 0 < j < |h| && Parent(j) == i ==> !Below(h[Parent(i)], h[j]))
  }

  lemma SwapKeepsContents(h: Heap, i: nat, j: nat)
    requires i < |h| && j < |h|
    ensures multiset(Swap(h, i, j)) == multiset(h)
  {
  }

  lemma UpOneLevel(h: Heap, i: nat)
    requires 0 < i < |h| && HeapButUp(h, i) && Below(h[Parent(i)], h[i])
    ensures HeapButUp(Swap(h, i, Parent(i)), Parent(i))
  {
    var p := Parent(i);
    var up := Swap(h, i, p);
    forall j | 0 <= j < |h| && j != p ensures Ordered(up, j) {
      assert Ordered(h, j) || j == i;
    }
    assert Ordered(h, p);
    forall j | p > 0 && 0 < j < |h| && Parent(j) == p ensures !Below(up[Parent(p)], up[j]) {
      assert j == i || Ordered(h, j);
    }
  }

  lemma {:induction false} SiftUpIsHeap(h: Heap, i: nat)
    requires i < |h| && HeapButUp(h, i)
    ensures IsHeap(SiftUp(h, i)) && multiset(SiftUp(h, i)) == multiset(h)
    decreases i
  {
    if i > 0 && Below(h[Parent(i)], h[i]) {
      UpOneLevel(h, i);
      SwapKeepsContents(h, i, Parent(i));
      SiftUpIsHeap(Swap(h, i, Parent(i)), Parent(i));
    } else {
      forall j | 0 <= j < |h| ensures Ordered(h, j) { }
    }
  }

  lemma DownOneLevel(h: Heap, i: nat)
    requires i < |h| && HeapButDown(h, i) && 2 * i + 1 < |h| && Below(h[i], h[UpperChild(h, i)])
    ensures HeapButDown(Swap(h, i, UpperChild(h, i)), UpperChild(h, i))
  {
    var c := UpperChild(h, i);
    var down := Swap(h, i, c);
    assert Parent(c) == i;
    forall j | 0 < j < |h| && Parent(j) != c ensures Ordered(down, j) {
      if Parent(j) == i {
        assert j == 2 * i + 1 || j == 2 * i + 2;
      } else {
        assert Ordered(h, j);
      }
    }
    forall j | 0 < j < |h| && Parent(j) == c ensures !Below(down[Parent(c)], down[j]) {
      assert Ordered(h, j);
    }
  }

  lemma LowEnough(h: Heap, i: nat)
    requires i < |h| && HeapButDown(h, i)
    requires 2 * i + 1 < |h| ==> !Below(h[i], h[UpperChild(h, i)])
    ensures IsHeap(h)
  {
    forall j | 0 <= j < |h| ensures Ordered(h, j) {
      if j > 0 && Parent(j) == i { assert j == 2 * i + 1 || j == 2 * i + 2; }
    }
  }

  lemma {:induction false} SiftDownIsHeap(h: Heap, i: nat)
    requires i < |h| && HeapButDown(h, i)
    ensures IsHeap(SiftDown(h, i)) && multiset(SiftDown(h, i)) == multiset(h)
    decreases |h| - i
  {
    if 2 * i + 1 < |h| && Below(h[i], h[UpperChild(h, i)]) {
      DownOneLevel(h, i);
      SwapKeepsContents(h, i, UpperChild(h, i));
      SiftDownIsHeap(Swap(h, i, UpperChild(h, i)), UpperChild(h, i));
    } else {
      LowEnough(h, i);
    }
  }

  lemma {:induction false} TopIsEarliest(h: Heap, i: nat)
    requires IsHeap(h) && i < |h|
    ensures h[0].scheduledTime <= h[i].scheduledTime
  {
    if i > 0 {
      assert Ordered(h, i);
      TopIsEarliest(h, Parent(i));
    }
  }

  lemma PushKeepsHeap(h: Heap, x: DelayedExecutable)
    requires IsHeap(h)
    ensures IsHeap(Push(h, x)) && multiset(Push(h, x)) == multiset(h) + multiset{x} && Push(h, x) != []
  {
    var more := h + [x];
    forall j | 0 <= j < |more| && j != |h| ensures Ordered(more, j) {
      assert Ordered(h, j);
    }
    SiftUpIsHeap(more, |h|);
  }

  lemma PopKeepsHeap(h: Heap)
    requires IsHeap(h) && h != []
    ensures IsHeap(Pop(h)) && multiset(Pop(h)) == multiset(h) - multiset{h[0]}
  {
    var last := |h| - 1;
    assert h == h[..last] + [h[last]];
    if last > 0 {
      var top := h[..last][0 := h[last]];
      assert h[..last] == [h[0]] + h[1..last];
      assert top == [h[last]] + h[1..last];
      forall j | 0 < j < |top| && Parent(j) != 0 ensures Ordered(top, j) {
        assert Ordered(h, j);
      }
      SiftDownIsHeap(top, 0);
    }
  }

  // What goes up from i ends at the top exactly if it is earlier than what was there.
  lemma {:induction false} SiftUpTop(h: Heap, i: nat)
    requires 0 < i < |h| && HeapButUp(h, i)
    ensures SiftUp(h, i)[0] == if Below(h[0], h[i]) then h[i] else h[0]
    decreases i
  {
    var p := Parent(i);
    if Below(h[p], h[i]) {
      if p > 0 {
        UpOneLevel(h, i);
        SiftUpTop(Swap(h, i, p), p);
      }
    } else {
      EarlierAbove(h, i, p);
    }
  }

  lemma {:induction false} EarlierAbove(h: Heap, i: nat, k: nat)
    requires i < |h| && k < i && HeapButUp(h, i)
    ensures h[0].scheduledTime <= h[k].scheduledTime
  {
    if k > 0 {
      assert Ordered(h, k);
      EarlierAbove(h, i, Parent(k));
    }
  }

  // The rule behind need_notify: a new entry takes the top exactly if it is strictly earlier.
  lemma PushTop(h: Heap, x: DelayedExecutable)
    requires IsHeap(h)
    ensures Push(h, x)[0] == if h == [] || x.scheduledTime < h[0].scheduledTime then x else h[0]
  {
    if h != [] {
      var more := h + [x];
      forall j | 0 <= j < |more| && j != |h| ensures Ordered(more, j) {
        assert Ordered(h, j);
      }
      SiftUpTop(more, |h|);
    }
  }
}
