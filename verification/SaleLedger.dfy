// What the sale checks count: copies of an item group that no submission has laid hands on.
module SaleLedger {
  datatype Item = Item(assetId: nat, group: nat, quantity: nat)

  // A submission to Steam: the copies it offered and the stack it took them from.
  datatype Reservation = Reservation(quantity: nat, before: nat)

  predicate Distinct(items: seq<Item>) {
    forall i, j :: 0 <= i < j < |items| ==> items[i].assetId != items[j].assetId
  }

  predicate Whole(items: seq<Item>) {
    Distinct(items) && forall i :: 0 <= i < |items| ==> items[i].quantity >= 1
  }

  // The first item with this asset, or the length of the list.
  function IndexOf(items: seq<Item>, assetId: nat): (r: nat)
    ensures r <= |items|
    ensures r < |items| ==> items[r].assetId == assetId
    ensures forall k :: 0 <= k < r ==> items[k].assetId != assetId
  {
    if items == [] then 0
    else
      var before := IndexOf(items[..|items| - 1], assetId);
      if before < |items| - 1 then before else if items[|items| - 1].assetId == assetId then |items| - 1 else |items|
  }

  function QuantityOf(items: seq<Item>, assetId: nat): nat {
    var i := IndexOf(items, assetId);
    if i < |items| then items[i].quantity else 0
  }

  function HeldOf(held: map<nat, nat>, assetId: nat): nat {
    if assetId in held then held[assetId] else 0
  }

  function Quantities(submitted: map<nat, Reservation>): map<nat, nat> {
    map a | a in submitted :: submitted[a].quantity
  }

  // What one item adds to the free copies of a group.
  function Part(item: Item, group: nat, held: map<nat, nat>): nat {
    if item.group != group then 0
    else if HeldOf(held, item.assetId) >= item.quantity then 0
    else item.quantity - HeldOf(held, item.assetId)
  }

  // The copies of a group that are not held.
  function Free(items: seq<Item>, group: nat, held: map<nat, nat>): nat {
    if items == [] then 0
    else Free(items[..|items| - 1], group, held) + Part(items[|items| - 1], group, held)
  }

  // All copies of a group, and those of them that are held.
  function CopiesOf(items: seq<Item>, group: nat): nat {
    if items == [] then 0
    else CopiesOf(items[..|items| - 1], group) + (if items[|items| - 1].group == group then items[|items| - 1].quantity else 0)
  }

  function HeldCopies(items: seq<Item>, group: nat, held: map<nat, nat>): nat {
    if items == [] then 0
    else
      var last := items[|items| - 1];
      HeldCopies(items[..|items| - 1], group, held)
      + (if last.group != group || last.assetId !in held then 0 else if held[last.assetId] < last.quantity then held[last.assetId] else last.quantity)
  }

  // Every copy is either free or held; of a stack no more is held than it has.
  lemma {:induction false} FreeOrHeld(items: seq<Item>, group: nat, held: map<nat, nat>)
    ensures Free(items, group, held) + HeldCopies(items, group, held) == CopiesOf(items, group)
  {
    if items != [] {
      FreeOrHeld(items[..|items| - 1], group, held);
    }
  }

  predicate Owned(items: seq<Item>, group: nat) {
    exists k :: 0 <= k < |items| && items[k].group == group
  }

  lemma {:induction false} FreeSplits(items: seq<Item>, i: nat, group: nat, held: map<nat, nat>)
    requires i < |items|
    ensures Free(items, group, held)
         == Free(items[..i], group, held) + Part(items[i], group, held) + Free(items[i + 1..], group, held)
  {
    var last := |items| - 1;
    if i < last {
      FreeSplits(items[..last], i, group, held);
      assert items[..last][..i] == items[..i];
      assert items[..last][i + 1..] == items[i + 1..][..last - i - 1];
    }
  }

  lemma {:induction false} FreeConcat(left: seq<Item>, right: seq<Item>, group: nat, held: map<nat, nat>)
    ensures Free(left + right, group, held) == Free(left, group, held) + Free(right, group, held)
  {
    if right == [] {
      assert left + right == left;
    } else {
      var last := |right| - 1;
      FreeConcat(left, right[..last], group, held);
      assert (left + right)[..|left + right| - 1] == left + right[..last];
    }
  }

  // Holding more leaves less free; items that are held alike count alike.
  lemma {:induction false} FreeIsMonotone(items: seq<Item>, group: nat, less: map<nat, nat>, more: map<nat, nat>)
    requires forall k :: 0 <= k < |items| ==> HeldOf(less, items[k].assetId) <= HeldOf(more, items[k].assetId)
    ensures Free(items, group, less) >= Free(items, group, more)
  {
    if items != [] {
      FreeIsMonotone(items[..|items| - 1], group, less, more);
      var last := items[|items| - 1];
      assert HeldOf(less, last.assetId) <= HeldOf(more, last.assetId);
    }
  }

  lemma {:induction false} FreeIsOwned(items: seq<Item>, group: nat, held: map<nat, nat>)
    requires Free(items, group, held) >= 1
    ensures Owned(items, group)
  {
    var last := |items| - 1;
    if items[last].group != group {
      FreeIsOwned(items[..last], group, held);
      var k :| 0 <= k < last && items[..last][k].group == group;
      assert items[k].group == group;
    }
  }

  lemma {:induction false} OwnedIsFree(items: seq<Item>, i: nat, group: nat, held: map<nat, nat>)
    requires i < |items| && items[i].group == group && HeldOf(held, items[i].assetId) < items[i].quantity
    ensures Free(items, group, held) >= 1
  {
    FreeSplits(items, i, group, held);
  }

  // One item changes, and with it perhaps what is held of it: the others keep their part.
  lemma FreeAfterUpdate(items: seq<Item>, i: nat, item: Item, group: nat, held: map<nat, nat>, heldAfter: map<nat, nat>)
    requires Distinct(items) && i < |items|
    requires forall a :: a != items[i].assetId ==> HeldOf(held, a) == HeldOf(heldAfter, a)
    ensures Free(items[i := item], group, heldAfter)
         == Free(items, group, held) - Part(items[i], group, held) + Part(item, group, heldAfter)
  {
    var after := items[i := item];
    FreeSplits(items, i, group, held);
    FreeSplits(after, i, group, heldAfter);
    assert after[..i] == items[..i] && after[i + 1..] == items[i + 1..];
    SameElsewhere(items, i, group, held, heldAfter);
  }

  lemma FreeAfterRemoval(items: seq<Item>, i: nat, group: nat, held: map<nat, nat>, heldAfter: map<nat, nat>)
    requires Distinct(items) && i < |items|
    requires forall a :: a != items[i].assetId ==> HeldOf(held, a) == HeldOf(heldAfter, a)
    ensures Free(items[..i] + items[i + 1..], group, heldAfter) == Free(items, group, held) - Part(items[i], group, held)
  {
    FreeSplits(items, i, group, held);
    FreeConcat(items[..i], items[i + 1..], group, heldAfter);
    SameElsewhere(items, i, group, held, heldAfter);
  }

  lemma SameElsewhere(items: seq<Item>, i: nat, group: nat, held: map<nat, nat>, heldAfter: map<nat, nat>)
    requires Distinct(items) && i < |items|
    requires forall a :: a != items[i].assetId ==> HeldOf(held, a) == HeldOf(heldAfter, a)
    ensures Free(items[..i], group, held) == Free(items[..i], group, heldAfter)
    ensures Free(items[i + 1..], group, held) == Free(items[i + 1..], group, heldAfter)
  {
    FreeIsMonotone(items[..i], group, held, heldAfter);
    FreeIsMonotone(items[..i], group, heldAfter, held);
    FreeIsMonotone(items[i + 1..], group, held, heldAfter);
    FreeIsMonotone(items[i + 1..], group, heldAfter, held);
  }

  // The order in which Steam lists the items does not matter to the count.
  lemma FreeIgnoresOrder(items: seq<Item>, i: nat, j: nat, group: nat, held: map<nat, nat>)
    requires Distinct(items) && i < j < |items|
    ensures Free(items[i := items[j]][j := items[i]], group, held) == Free(items, group, held)
  {
    var middle := items[i := items[j]];
    FreeSplits(items, i, group, held);
    FreeSplits(middle, i, group, held);
    assert middle[..i] == items[..i] && middle[i + 1..] == items[i + 1..];
    var after := middle[j := items[i]];
    FreeSplits(middle, j, group, held);
    FreeSplits(after, j, group, held);
    assert after[..j] == middle[..j] && after[j + 1..] == middle[j + 1..];
  }
}
