// Array.prototype.sort as the modelled code uses it: stable, by a comparator.
module Sorting {
  // What a comparator has to be for a sort to mean anything: asymmetric, and
  // not standing before is transitive.
  ghost predicate Comparator<T(!new)>(before: (T, T) -> bool)
  {
    && (forall a, b :: before(a, b) ==> !before(b, a))
    && (forall a, b, c :: !before(a, b) && !before(b, c) ==> !before(a, c))
  }

  ghost predicate Ordered<T>(items: seq<T>, before: (T, T) -> bool)
  {
    forall i, j :: 0 <= i < j < |items| ==> !before(items[j], items[i])
  }

  // Behind everything the item does not strictly stand before.
  function Insert<T>(items: seq<T>, item: T, before: (T, T) -> bool): (result: seq<T>)
    ensures multiset(result) == multiset(items) + multiset{item}
  {
    if items == [] || !before(item, items[|items| - 1]) then items + [item]
    else
      assert items == items[..|items| - 1] + [items[|items| - 1]];
      Insert(items[..|items| - 1], item, before) + [items[|items| - 1]]
  }

  function Sort<T>(items: seq<T>, before: (T, T) -> bool): (result: seq<T>)
    ensures multiset(result) == multiset(items)
    ensures |result| == |items|
  {
    if items == [] then []
    else
      assert items == items[..|items| - 1] + [items[|items| - 1]];
      var result := Insert(Sort(items[..|items| - 1], before), items[|items| - 1], before);
      assert |multiset(result)| == |multiset(items)|;
      result
  }

  lemma {:induction false} InsertKeepsOrdered<T(!new)>(items: seq<T>, item: T, before: (T, T) -> bool)
    requires Comparator(before) && Ordered(items, before)
    ensures Ordered(Insert(items, item, before), before)
  {
    if items == [] || !before(item, items[|items| - 1]) {
      forall i | 0 <= i < |items|
        ensures !before(item, items[i])
      {
        assert i == |items| - 1 || !before(items[|items| - 1], items[i]);
      }
    } else {
      var front, last := items[..|items| - 1], items[|items| - 1];
      InsertKeepsOrdered(front, item, before);
      var inserted := Insert(front, item, before);
      forall x | x in inserted
        ensures !before(last, x)
      {
        assert x in multiset(inserted);
        assert x == item || x in front;
      }
    }
  }

  lemma {:induction false} SortOrders<T(!new)>(items: seq<T>, before: (T, T) -> bool)
    requires Comparator(before)
    ensures Ordered(Sort(items, before), before)
    ensures forall x :: x in Sort(items, before) <==> x in items
  {
    if items != [] {
      SortOrders(items[..|items| - 1], before);
      InsertKeepsOrdered(Sort(items[..|items| - 1], before), items[|items| - 1], before);
    }
    assert forall x :: x in Sort(items, before) <==> x in multiset(Sort(items, before));
    assert forall x :: x in items <==> x in multiset(items);
  }

  // The items that neither stand before x nor behind it, in their order.
  function LevelWith<T>(items: seq<T>, x: T, before: (T, T) -> bool): seq<T>
  {
    if items == [] then []
    else
      var last := items[|items| - 1];
      LevelWith(items[..|items| - 1], x, before) + if before(last, x) || before(x, last) then [] else [last]
  }

  lemma NotBothLevel<T(!new)>(a: T, b: T, x: T, before: (T, T) -> bool)
    requires Comparator(before) && before(a, b)
    ensures before(a, x) || before(x, a) || before(b, x) || before(x, b)
  {
    assert !before(b, a);
  }

  lemma {:induction false} InsertIsStable<T(!new)>(items: seq<T>, item: T, x: T, before: (T, T) -> bool)
    requires Comparator(before)
    ensures LevelWith(Insert(items, item, before), x, before) == LevelWith(items + [item], x, before)
  {
    assert (items + [item])[..|items|] == items;
    if items != [] && before(item, items[|items| - 1]) {
      var front, last := items[..|items| - 1], items[|items| - 1];
      InsertIsStable(front, item, x, before);
      NotBothLevel(item, last, x, before);
      hide Comparator;
      assert (front + [item])[..|front|] == front;
      var inserted := Insert(front, item, before);
      assert (inserted + [last])[..|inserted|] == inserted;
    }
  }

  // What a comparator holds for equal keeps the order it had.
  lemma {:induction false} SortIsStable<T(!new)>(items: seq<T>, x: T, before: (T, T) -> bool)
    requires Comparator(before)
    ensures LevelWith(Sort(items, before), x, before) == LevelWith(items, x, before)
  {
    if items != [] {
      var front, last := items[..|items| - 1], items[|items| - 1];
      SortIsStable(front, x, before);
      InsertIsStable(Sort(front, before), last, x, before);
      var sorted := Sort(front, before);
      assert (sorted + [last])[..|sorted|] == sorted;
    }
  }
}
