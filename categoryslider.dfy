// src/components/Categories/CategorySlider.tsx: the home-page category
// carousel. It keeps the active categories sorted by their `order`, shows a
// window of at most five of them starting at `currentIndex` and wrapping
// round the end, and steps the index forwards and backwards with
// wrap-around. The five-second timer that calls `nextSlide` is left to the
// caller: it runs exactly when navigation is shown.

module CategorySlider {
  import Seqs

  datatype Category = Category(id: string, name: string, isActive: bool, order: int)

  predicate IsActive(c: Category) { c.isActive }

  /** The comparator `a.order - b.order`. */
  predicate OrderLe(a: Category, b: Category) { a.order <= b.order }

  /** `fetchCategories`: the active categories, ascending by `order`. */
  function ActiveByOrder(fetched: seq<Category>): (r: seq<Category>)
    ensures multiset(r) == multiset(Seqs.Filter(fetched, IsActive))
  {
    Seqs.SortBy(Seqs.Filter(fetched, IsActive), OrderLe)
  }

  lemma ActiveByOrderSpec(fetched: seq<Category>)
    ensures forall c :: c in ActiveByOrder(fetched) <==> c in fetched && c.isActive
    ensures forall i, j :: 0 <= i < j < |ActiveByOrder(fetched)| ==>
              ActiveByOrder(fetched)[i].order <= ActiveByOrder(fetched)[j].order
  {
    var active := Seqs.Filter(fetched, IsActive);
    forall c | c in fetched && c.isActive ensures c in active {
      Seqs.FilterComplete(fetched, IsActive, c);
    }
    forall c ensures c in ActiveByOrder(fetched) <==> c in active {
      assert c in multiset(ActiveByOrder(fetched)) <==> c in multiset(active);
    }
    Seqs.KeyOrderIsTotalPreorder((c: Category) => c.order);
    assert Seqs.TotalPreorder(OrderLe);
    Seqs.SortBySorted(active, OrderLe);
  }

  /** The `nextSlide` update: one forward, back to 0 at the end. */
  function NextIndex(i: int, n: nat): int
  {
    if i + 1 >= n then 0 else i + 1
  }

  /** The `prevSlide` update: one back, to the last position below 0. */
  function PrevIndex(i: int, n: nat): int
  {
    if i - 1 < 0 then n - 1 else i - 1
  }

  /** On a non-empty list both steps keep the index in range and undo each other. */
  lemma StepsWrapAround(i: int, n: nat)
    requires 0 <= i < n
    ensures 0 <= NextIndex(i, n) < n && 0 <= PrevIndex(i, n) < n
    ensures NextIndex(i, n) == (i + 1) % n
    ensures PrevIndex(i, n) == (i - 1 + n) % n
    ensures PrevIndex(NextIndex(i, n), n) == i
    ensures NextIndex(PrevIndex(i, n), n) == i
  {
  }

  class Slider {
    var categories: seq<Category>
    var currentIndex: int

    /** The index points into the list whenever the list is non-empty. */
    predicate Valid()
      reads this
    {
      |categories| > 0 ==> 0 <= currentIndex < |categories|
    }

    /** The component after `fetchCategories`: the active categories sorted, index 0. */
    constructor Mount(fetched: seq<Category>)
      ensures categories == ActiveByOrder(fetched) && currentIndex == 0
      ensures Valid()
    {
      categories := ActiveByOrder(fetched);
      currentIndex := 0;
    }

    /** `itemsToShow` */
    function ItemsToShow(): (r: nat)
      reads this
      ensures r <= 5 && r <= |categories|
      ensures r == 5 || r == |categories|
    {
      if |categories| < 5 then |categories| else 5
    }

    /** The arrows are drawn, and the timer advances the slide, only when
        there is more than one window's worth of categories. */
    predicate ShowNavigation()
      reads this
    {
      |categories| > ItemsToShow()
    }

    lemma NavigationNeedsSix()
      ensures ShowNavigation() <==> |categories| > 5
    {
    }

    method NextSlide()
      modifies this
      requires Valid()
      ensures categories == old(categories)
      ensures currentIndex == NextIndex(old(currentIndex), |categories|)
      ensures Valid()
    {
      currentIndex := if currentIndex + 1 >= |categories| then 0 else currentIndex + 1;
    }

    method PrevSlide()
      modifies this
      requires Valid()
      ensures categories == old(categories)
      ensures currentIndex == PrevIndex(old(currentIndex), |categories|)
      ensures Valid()
    {
      currentIndex := if currentIndex - 1 < 0 then |categories| - 1 else currentIndex - 1;
    }

    /** `getVisibleCategories`: the window of `itemsToShow` categories starting
        at the current index, wrapping past the end of the list. */
    method GetVisibleCategories() returns (visible: seq<Category>)
      requires Valid()
      ensures |visible| == ItemsToShow()
      ensures forall k :: 0 <= k < |visible| ==>
                visible[k] == categories[(currentIndex + k) % |categories|]
    {
      visible := [];
      var count := 0;
      var index := currentIndex;
      while count < ItemsToShow() && count < |categories|
        invariant 0 <= count <= ItemsToShow()
        invariant |visible| == count
        invariant count < |categories| ==> index == Seqs.Wrap(currentIndex + count, |categories|)
        invariant forall k :: 0 <= k < count ==>
                    visible[k] == categories[Seqs.Wrap(currentIndex + k, |categories|)]
        decreases ItemsToShow() - count
      {
        visible := visible + [categories[index]];
        count := count + 1;
        Seqs.WrapMod(index + 1, |categories|);
        index := (index + 1) % |categories|;
      }
      forall k | 0 <= k < |visible|
        ensures visible[k] == categories[(currentIndex + k) % |categories|]
      {
        Seqs.WrapMod(currentIndex + k, |categories|);
      }
    }
  }

  /** The window never repeats a position: with at most |categories| items
      shown, the positions (currentIndex + k) mod n are pairwise distinct. */
  lemma WindowPositionsDistinct(start: int, n: nat, j: nat, k: nat)
    requires 0 <= start < n && j < k < n
    ensures (start + j) % n != (start + k) % n
  {
    Seqs.WrapMod(start + j, n);
    Seqs.WrapMod(start + k, n);
  }
}
