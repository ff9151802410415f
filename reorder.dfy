/** The drag-and-drop renumbering shared by the course selector card
    (`cdkDropListDropped`) and the section info card (`drop`): `orders[i]` is the display
    position of item `i`; moving the item shown at `prev` to `curr` renumbers every entry
    in place. */
module Reorder {

  /** The new position of the item shown at `v`. */
  function Moved(v: int, prev: int, curr: int): int {
    if prev < curr then
      (if v == prev then curr else if prev < v <= curr then v - 1 else v)
    else if curr < prev then
      (if v == prev then curr else if curr <= v < prev then v + 1 else v)
    else v
  }

  /** `orders` after the drop, entry by entry. */
  function Dropped(orders: seq<int>, prev: int, curr: int): (r: seq<int>)
    ensures |r| == |orders|
  {
    seq(|orders|, k requires 0 <= k < |orders| => Moved(orders[k], prev, curr))
  }

  /** `orders` holds each of 0 .. |orders|-1 exactly once. */
  predicate IsPermutation(orders: seq<int>) {
    && (forall k :: 0 <= k < |orders| ==> 0 <= orders[k] < |orders|)
    && (forall p, q :: 0 <= p < q < |orders| ==> orders[p] != orders[q])
  }

  /** The identity order `Array(n).fill(null).map((_value, index) => index)`. */
  function Identity(n: nat): (r: seq<int>)
    ensures |r| == n && IsPermutation(r)
    ensures forall k :: 0 <= k < n ==> r[k] == k
  {
    seq(n, k requires 0 <= k < n => k)
  }

  /** The drag-and-drop loop, in place. */
  method DropInPlace(orders: array<int>, prev: int, curr: int)
    modifies orders
    ensures orders[..] == Dropped(old(orders[..]), prev, curr)
  {
    if prev < curr {
      for i := 0 to orders.Length
        invariant forall k :: 0 <= k < i ==> orders[k] == Moved(old(orders[k]), prev, curr)
        invariant forall k :: i <= k < orders.Length ==> orders[k] == old(orders[k])
      {
        if orders[i] == prev {
          orders[i] := curr;
        } else if prev < orders[i] && orders[i] <= curr {
          orders[i] := orders[i] - 1;
        }
      }
    } else if curr < prev {
      for i := 0 to orders.Length
        invariant forall k :: 0 <= k < i ==> orders[k] == Moved(old(orders[k]), prev, curr)
        invariant forall k :: i <= k < orders.Length ==> orders[k] == old(orders[k])
      {
        if orders[i] == prev {
          orders[i] := curr;
        } else if curr <= orders[i] && orders[i] < prev {
          orders[i] := orders[i] + 1;
        }
      }
    }
  }

  /** Within the list, `Moved` is one-to-one and stays in range. */
  lemma MovedInjective(n: nat, prev: int, curr: int, v: int, w: int)
    requires 0 <= prev < n && 0 <= curr < n && 0 <= v < n && 0 <= w < n
    ensures 0 <= Moved(v, prev, curr) < n
    ensures Moved(v, prev, curr) == Moved(w, prev, curr) ==> v == w
  {
  }

  /** A drop keeps a permutation a permutation. */
  lemma DroppedPermutation(orders: seq<int>, prev: int, curr: int)
    requires IsPermutation(orders) && 0 <= prev < |orders| && 0 <= curr < |orders|
    ensures IsPermutation(Dropped(orders, prev, curr))
  {
    var r := Dropped(orders, prev, curr);
    forall p, q | 0 <= p < q < |r| ensures r[p] != r[q] {
      MovedInjective(|orders|, prev, curr, orders[p], orders[q]);
    }
    forall k | 0 <= k < |r| ensures 0 <= r[k] < |r| {
      MovedInjective(|orders|, prev, curr, orders[k], orders[k]);
    }
  }

  /** The dragged item lands at `curr`, the items in between shift one step towards
      `prev`'s old slot, and all other items stay. */
  lemma DroppedMoves(orders: seq<int>, prev: int, curr: int, k: nat)
    requires k < |orders|
    ensures orders[k] == prev ==> Dropped(orders, prev, curr)[k] == curr
    ensures prev < curr && prev < orders[k] <= curr ==> Dropped(orders, prev, curr)[k] == orders[k] - 1
    ensures curr < prev && curr <= orders[k] < prev ==> Dropped(orders, prev, curr)[k] == orders[k] + 1
    ensures !(prev <= orders[k] <= curr || curr <= orders[k] <= prev) ==> Dropped(orders, prev, curr)[k] == orders[k]
  {
  }

  /** All items other than the dragged one keep their relative order. */
  lemma DroppedKeepsOrder(orders: seq<int>, prev: int, curr: int, p: nat, q: nat)
    requires p < |orders| && q < |orders| && orders[p] != prev && orders[q] != prev
    ensures orders[p] < orders[q] <==> Dropped(orders, prev, curr)[p] < Dropped(orders, prev, curr)[q]
  {
  }

  /** Dropping an item where it already is changes nothing. */
  lemma DroppedInPlace(orders: seq<int>, prev: int)
    ensures Dropped(orders, prev, prev) == orders
  {
  }

  /** Dragging the item back undoes the drop. */
  lemma DroppedUndo(orders: seq<int>, prev: int, curr: int)
    ensures Dropped(Dropped(orders, prev, curr), curr, prev) == orders
  {
    var back := Dropped(Dropped(orders, prev, curr), curr, prev);
    assert forall k :: 0 <= k < |orders| ==> back[k] == orders[k];
  }
}
