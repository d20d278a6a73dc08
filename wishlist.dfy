// src/context/WishlistContext.tsx: the wishlist state. `addToWishlist`
// appends an item unless one with the same id is present, and
// `removeFromWishlist` filters out every item with the id. Both replace the
// `items` state list; `isInWishlist` and `wishlistCount` read it.

module Wishlist {
  import opened Common
  import Seqs

  /** An entry; the image is `images[0]` of the product, absent when it has none. */
  datatype WishlistItem = WishlistItem(id: string, name: string, price: real, image: Option<string>)

  /** `items.some((item) => item.id === id)` */
  predicate InList(items: seq<WishlistItem>, id: string)
  {
    exists k :: 0 <= k < |items| && items[k].id == id
  }

  /** No two entries share an id. */
  ghost predicate UniqueIds(items: seq<WishlistItem>)
  {
    forall i, j :: 0 <= i < j < |items| ==> items[i].id != items[j].id
  }

  /** The list `addToWishlist(item)` leaves. */
  function Added(items: seq<WishlistItem>, item: WishlistItem): (r: seq<WishlistItem>)
    ensures InList(r, item.id)
    ensures InList(items, item.id) ==> r == items
    ensures !InList(items, item.id) ==> r == items + [item]
  {
    if InList(items, item.id) then items
    else
      assert (items + [item])[|items|] == item;
      items + [item]
  }

  function KeepOthers(id: string): WishlistItem -> bool
  {
    (x: WishlistItem) => x.id != id
  }

  /** The list `removeFromWishlist(id)` leaves. */
  function Removed(items: seq<WishlistItem>, id: string): (r: seq<WishlistItem>)
    ensures !InList(r, id)
    ensures forall x :: x in r ==> x in items
  {
    var r := Seqs.Filter(items, KeepOthers(id));
    assert forall k :: 0 <= k < |r| ==> r[k] in r;
    r
  }

  /** Removal keeps every other entry, in the order it had. */
  lemma RemovedKeepsOthers(items: seq<WishlistItem>, id: string)
    ensures Seqs.IsSubsequence(Removed(items, id), items)
    ensures forall x :: x in items && x.id != id ==> x in Removed(items, id)
  {
    Seqs.FilterIsSubsequence(items, KeepOthers(id));
    forall x | x in items && x.id != id ensures x in Removed(items, id) {
      Seqs.FilterComplete(items, KeepOthers(id), x);
    }
  }

  /** Removing an id that is not on the list changes nothing. */
  lemma RemoveAbsent(items: seq<WishlistItem>, id: string)
    requires !InList(items, id)
    ensures Removed(items, id) == items
  {
    forall x | x in items ensures KeepOthers(id)(x) {
      var k :| 0 <= k < |items| && items[k] == x;
    }
    Seqs.FilterAll(items, KeepOthers(id));
  }

  /** Adding an item that was not on the list and removing it again gives the list back. */
  lemma AddThenRemove(items: seq<WishlistItem>, item: WishlistItem)
    requires !InList(items, item.id)
    ensures Removed(Added(items, item), item.id) == items
  {
    Seqs.FilterAppend(items, [item], KeepOthers(item.id));
    RemoveAbsent(items, item.id);
  }

  lemma AddPreservesUnique(items: seq<WishlistItem>, item: WishlistItem)
    requires UniqueIds(items)
    ensures UniqueIds(Added(items, item))
  {
  }

  lemma {:induction false} FilterPreservesUnique(items: seq<WishlistItem>, p: WishlistItem -> bool)
    requires UniqueIds(items)
    ensures UniqueIds(Seqs.Filter(items, p))
    decreases |items|
  {
    if items != [] {
      FilterPreservesUnique(items[1..], p);
      var rest := Seqs.Filter(items[1..], p);
      forall x | x in rest ensures x.id != items[0].id {
        var k :| 0 <= k < |items[1..]| && items[1..][k] == x;
        assert items[k + 1] == x;
      }
    }
  }

  lemma RemovePreservesUnique(items: seq<WishlistItem>, id: string)
    requires UniqueIds(items)
    ensures UniqueIds(Removed(items, id))
  {
    FilterPreservesUnique(items, KeepOthers(id));
  }

  /** The context's state: the `items` list. */
  class WishlistState {
    var items: seq<WishlistItem>

    /** The initial state: what was saved, or the empty list. */
    constructor (saved: seq<WishlistItem>)
      ensures items == saved
    {
      items := saved;
    }

    method AddToWishlist(item: WishlistItem)
      modifies this
      ensures items == Added(old(items), item)
      ensures UniqueIds(old(items)) ==> UniqueIds(items)
    {
      if !InList(items, item.id) {
        items := items + [item];
      }
      if UniqueIds(old(items)) {
        AddPreservesUnique(old(items), item);
      }
    }

    method RemoveFromWishlist(id: string)
      modifies this
      ensures items == Removed(old(items), id)
      ensures UniqueIds(old(items)) ==> UniqueIds(items)
    {
      items := Seqs.Filter(items, KeepOthers(id));
      if UniqueIds(old(items)) {
        RemovePreservesUnique(old(items), id);
      }
    }

    function IsInWishlist(id: string): (r: bool)
      reads this
      ensures r <==> exists k :: 0 <= k < |items| && items[k].id == id
    {
      InList(items, id)
    }

    function WishlistCount(): (n: nat)
      reads this
      ensures n == |items|
    {
      |items|
    }
  }
}
