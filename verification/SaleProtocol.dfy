// Sales of one account as a machine of the service and of Steam: what the service remembers of its submissions, what
// the inventory really holds, and which copies an accepted or uncertain submission may still take out of it.
module SaleProtocol {
  import opened SaleLedger

  const MAX_QUANTITY := 100

  // The serialized sale under way: nothing, a sale whose check has passed, or a call to Steam that has not answered.
  datatype Desk =
    | Idle
    | Checked(assetId: nat, group: nat, quantity: nat, before: nat)
    | Calling(assetId: nat)

  datatype World = World(stock: seq<Item>, outstanding: map<nat, nat>, submitted: map<nat, Reservation>, desk: Desk)

  datatype Event =
    // The service.
    | Read
    | Check(assetId: nat, quantity: int)
    | Abandon
    | Submit
    | Refuse
    | Keep
    // Steam and the owner of the account.
    | Leave(index: nat, copies: nat)
    | Lapse(assetId: nat)
    | ArriveNew(item: Item)
    | ArriveMore(index: nat, copies: nat)
    | Reorder(i: nat, j: nat)

  // ---- The service's own decisions ----

  // The sold copies are out of the inventory that was read.
  predicate ShownGone(entry: Reservation, items: seq<Item>, assetId: nat) {
    var i := IndexOf(items, assetId);
    i == |items| || items[i].quantity <= entry.before - entry.quantity
  }

  function Released(submitted: map<nat, Reservation>, items: seq<Item>): map<nat, Reservation> {
    map a | a in submitted && !ShownGone(submitted[a], items, a) :: submitted[a]
  }

  predicate Sellable(items: seq<Item>, submitted: map<nat, Reservation>, assetId: nat, quantity: int) {
    var i := IndexOf(items, assetId);
    && i < |items| && 1 <= quantity <= MAX_QUANTITY && quantity <= items[i].quantity
    && assetId !in submitted
    && Free(items, items[i].group, Quantities(submitted)) - quantity >= 1
  }

  // ---- The machine ----

  function Take(held: map<nat, nat>, assetId: nat, copies: nat): map<nat, nat>
    requires copies <= HeldOf(held, assetId)
  {
    if copies == HeldOf(held, assetId) then held - {assetId} else held[assetId := held[assetId] - copies]
  }

  function RemoveCopies(items: seq<Item>, i: nat, copies: nat): seq<Item>
    requires i < |items| && copies <= items[i].quantity
  {
    if copies == items[i].quantity then items[..i] + items[i + 1..]
    else items[i := items[i].(quantity := items[i].quantity - copies)]
  }

  function AfterCheck(w: World, assetId: nat, quantity: int): World {
    var submitted := Released(w.submitted, w.stock);
    var i := IndexOf(w.stock, assetId);
    if Sellable(w.stock, submitted, assetId, quantity) then
      w.(submitted := submitted, desk := Checked(assetId, w.stock[i].group, quantity, w.stock[i].quantity))
    else w.(submitted := submitted, desk := Idle)
  }

  function AfterSubmit(w: World): World
    requires w.desk.Checked?
  {
    var d := w.desk;
    w.(submitted := w.submitted[d.assetId := Reservation(d.quantity, d.before)],
       outstanding := w.outstanding[d.assetId := d.quantity], desk := Calling(d.assetId))
  }

  // A definite refusal, or a request that was never sent: none of its copies has left.
  predicate Refusable(w: World) {
    w.desk.Calling? && w.desk.assetId in w.submitted && w.desk.assetId in w.outstanding
    && w.outstanding[w.desk.assetId] == w.submitted[w.desk.assetId].quantity
  }

  function AfterRefuse(w: World): World
    requires Refusable(w)
  {
    w.(submitted := w.submitted - {w.desk.assetId}, outstanding := w.outstanding - {w.desk.assetId}, desk := Idle)
  }

  predicate Leaves(w: World, index: nat, copies: nat) {
    index < |w.stock| && 1 <= copies <= HeldOf(w.outstanding, w.stock[index].assetId) <= w.stock[index].quantity
  }

  function AfterLeave(w: World, index: nat, copies: nat): World
    requires Leaves(w, index, copies)
  {
    w.(stock := RemoveCopies(w.stock, index, copies), outstanding := Take(w.outstanding, w.stock[index].assetId, copies))
  }

  // One step; an event that cannot happen in this state changes nothing.
  function After(w: World, e: Event): World {
    match e
    case Read => w.(submitted := Released(w.submitted, w.stock))
    case Check(a, q) => if w.desk.Idle? then AfterCheck(w, a, q) else w
    case Abandon => if w.desk.Checked? then w.(desk := Idle) else w
    case Submit => if w.desk.Checked? then AfterSubmit(w) else w
    case Refuse => if Refusable(w) then AfterRefuse(w) else w
    case Keep => if w.desk.Calling? then w.(desk := Idle) else w
    case Leave(i, n) => if Leaves(w, i, n) then AfterLeave(w, i, n) else w
    case Lapse(a) => w.(outstanding := w.outstanding - {a})
    case ArriveNew(item) =>
      if item.quantity >= 1 && IndexOf(w.stock, item.assetId) == |w.stock| then w.(stock := w.stock + [item]) else w
    case ArriveMore(i, n) =>
      if i < |w.stock| then w.(stock := w.stock[i := w.stock[i].(quantity := w.stock[i].quantity + n)]) else w
    case Reorder(i, j) =>
      if i < j < |w.stock| then w.(stock := w.stock[i := w.stock[j]][j := w.stock[i]]) else w
  }

  // ---- The invariant ----

  // The stack holds at least so many copies.
  predicate Has(items: seq<Item>, assetId: nat, least: int) {
    exists k :: 0 <= k < |items| && items[k].assetId == assetId && items[k].quantity >= least
  }

  predicate GroupIs(items: seq<Item>, assetId: nat, group: nat) {
    forall k :: 0 <= k < |items| && items[k].assetId == assetId ==> items[k].group == group
  }

  // Copies may leave only under a reservation, and the stack still holds them: as long as one has not left, it holds
  // more than the stack of the reservation would without the sold copies.
  predicate Backed(w: World, assetId: nat)
    requires assetId in w.outstanding
  {
    && assetId in w.submitted
    && 1 <= w.outstanding[assetId] <= w.submitted[assetId].quantity <= w.submitted[assetId].before
    && Has(w.stock, assetId, w.outstanding[assetId])
    && Has(w.stock, assetId, w.submitted[assetId].before - w.submitted[assetId].quantity + w.outstanding[assetId])
  }

  predicate DeskInv(w: World) {
    w.desk.Checked? ==>
      && w.desk.assetId !in w.submitted && 1 <= w.desk.quantity <= w.desk.before
      && Has(w.stock, w.desk.assetId, w.desk.before) && GroupIs(w.stock, w.desk.assetId, w.desk.group)
      && Free(w.stock, w.desk.group, w.outstanding) >= w.desk.quantity + 1
  }

  // Every group of which the account has a copy has one that no submission can take.
  ghost predicate KeepsOne(w: World) {
    forall g :: Owned(w.stock, g) ==> Free(w.stock, g, w.outstanding) >= 1
  }

  ghost predicate Inv(w: World) {
    && Whole(w.stock)
    && (forall a :: a in w.outstanding ==> Backed(w, a))
    && DeskInv(w)
    && KeepsOne(w)
  }

  // ---- Steps keep the invariant ----

  lemma IndexOfUnique(items: seq<Item>, k: nat)
    requires Distinct(items) && k < |items|
    ensures IndexOf(items, items[k].assetId) == k
  {
  }

  // A reading never releases an asset whose copies may still leave.
  lemma ReleaseSparesOutstanding(w: World, a: nat)
    requires Inv(w) && a in w.outstanding
    ensures a in Released(w.submitted, w.stock)
  {
    hide Free;
    assert Backed(w, a);
    var k :| 0 <= k < |w.stock| && w.stock[k].assetId == a && w.stock[k].quantity >= w.submitted[a].before - w.submitted[a].quantity + w.outstanding[a];
    IndexOfUnique(w.stock, k);
  }

  lemma ReadKeepsInv(w: World)
    requires Inv(w)
    ensures Inv(w.(submitted := Released(w.submitted, w.stock)))
  {
    hide Free, Owned, Whole;
    var next := w.(submitted := Released(w.submitted, w.stock));
    forall a | a in next.outstanding
      ensures Backed(next, a)
    {
      ReleaseSparesOutstanding(w, a);
      assert Backed(w, a);
    }
    assert KeepsOne(next);
  }

  // What the check counts as free is at most what is really free.
  lemma CheckUndercounts(w: World, group: nat)
    requires forall a :: a in w.outstanding ==> a in w.submitted && w.outstanding[a] <= w.submitted[a].quantity
    ensures Free(w.stock, group, Quantities(w.submitted)) <= Free(w.stock, group, w.outstanding)
  {
    FreeIsMonotone(w.stock, group, w.outstanding, Quantities(w.submitted));
  }

  // The check refuses no sale without need: it passes exactly when the stack is there with so many copies, the asset is
  // not reserved, and one copy of the group would still be free with this sale reserved as well.
  lemma SellableIff(items: seq<Item>, submitted: map<nat, Reservation>, assetId: nat, quantity: int, k: nat)
    requires Distinct(items) && k < |items| && items[k].assetId == assetId
    ensures Sellable(items, submitted, assetId, quantity) <==>
      && 1 <= quantity <= MAX_QUANTITY && quantity <= items[k].quantity && assetId !in submitted
      && Free(items, items[k].group, Quantities(submitted[assetId := Reservation(quantity, items[k].quantity)])) >= 1
  {
    IndexOfUnique(items, k);
    if 1 <= quantity <= items[k].quantity && assetId !in submitted {
      var later := Quantities(submitted[assetId := Reservation(quantity, items[k].quantity)]);
      FreeAfterUpdate(items, k, items[k], items[k].group, Quantities(submitted), later);
      assert items[k := items[k]] == items;
    }
  }

  lemma NothingToSell(items: seq<Item>, submitted: map<nat, Reservation>, assetId: nat, quantity: int)
    requires forall k :: 0 <= k < |items| ==> items[k].assetId != assetId
    ensures !Sellable(items, submitted, assetId, quantity)
  {
  }

  // A reading keeps a reservation exactly while the stack is there with more copies than the sold ones would leave; so
  // it lets the asset be sold again as soon as they are gone.
  lemma ReleasedExactly(submitted: map<nat, Reservation>, items: seq<Item>, assetId: nat)
    requires Distinct(items)
    ensures assetId in Released(submitted, items) <==>
      assetId in submitted && Has(items, assetId, submitted[assetId].before - submitted[assetId].quantity + 1)
    ensures assetId in Released(submitted, items) ==> Released(submitted, items)[assetId] == submitted[assetId]
  {
    if assetId in submitted && Has(items, assetId, submitted[assetId].before - submitted[assetId].quantity + 1) {
      var k :| 0 <= k < |items| && items[k].assetId == assetId
               && items[k].quantity >= submitted[assetId].before - submitted[assetId].quantity + 1;
      IndexOfUnique(items, k);
    }
    if assetId in Released(submitted, items) {
      HasAt(items, IndexOf(items, assetId));
    }
  }

  // A refusal takes the submission back without a trace, so the asset can be tried again at once.
  lemma RefusalRestores(w: World)
    requires Inv(w) && w.desk.Checked?
    ensures After(After(w, Submit), Refuse) == w.(desk := Idle)
  {
    assert w.desk.assetId !in w.submitted;
    assert w.desk.assetId in w.outstanding ==> Backed(w, w.desk.assetId);
    assert w.submitted[w.desk.assetId := Reservation(w.desk.quantity, w.desk.before)] - {w.desk.assetId} == w.submitted;
    assert w.outstanding[w.desk.assetId := w.desk.quantity] - {w.desk.assetId} == w.outstanding;
    hide Free;
  }

  // A sale that passes the check leaves one copy free beside the ones it will take.
  lemma CheckedIsSafe(w: World, assetId: nat, quantity: int)
    requires Inv(w) && Sellable(w.stock, w.submitted, assetId, quantity)
    ensures var i := IndexOf(w.stock, assetId);
      DeskInv(w.(desk := Checked(assetId, w.stock[i].group, quantity, w.stock[i].quantity)))
  {
    assert forall a :: a in w.outstanding ==> Backed(w, a);
    hide Backed;
    var i := IndexOf(w.stock, assetId);
    CheckUndercounts(w, w.stock[i].group);
    hide Free;
    SameAssetSameGroup(w.stock, i);
    HasAt(w.stock, i);
  }

  lemma CheckKeepsInv(w: World, assetId: nat, quantity: int)
    requires Inv(w)
    ensures Inv(AfterCheck(w, assetId, quantity))
  {
    var read := w.(submitted := Released(w.submitted, w.stock));
    ReadKeepsInv(w);
    if Sellable(read.stock, read.submitted, assetId, quantity) {
      CheckedIsSafe(read, assetId, quantity);
    }
    hide Free, Released, Whole, Owned, Has, GroupIs, Sellable;
    var next := AfterCheck(w, assetId, quantity);
    assert forall a :: a in next.outstanding ==> Backed(read, a) && Backed(next, a);
    assert KeepsOne(read) && KeepsOne(next);
  }

  // What a checked sale takes leaves one copy free in every group.
  lemma SubmitKeepsOne(w: World)
    requires Inv(w) && w.desk.Checked?
    ensures KeepsOne(AfterSubmit(w))
  {
    var d, next := w.desk, AfterSubmit(w);
    var k :| 0 <= k < |w.stock| && w.stock[k].assetId == d.assetId && w.stock[k].quantity >= d.before;
    assert w.stock[k := w.stock[k]] == w.stock;
    assert forall a :: a in w.outstanding ==> Backed(w, a);
    assert d.assetId !in w.outstanding;
    assert w.stock[k].group == d.group;
    hide Has, GroupIs, Backed, Owned;
    forall g | Owned(next.stock, g)
      ensures Free(next.stock, g, next.outstanding) >= 1
    {
      FreeAfterUpdate(w.stock, k, w.stock[k], g, w.outstanding, next.outstanding);
      hide Free;
    }
  }

  lemma SubmitKeepsInv(w: World)
    requires Inv(w) && w.desk.Checked?
    ensures Inv(AfterSubmit(w))
  {
    hide Free, Owned, Whole;
    SubmitKeepsOne(w);
    var d, next := w.desk, AfterSubmit(w);
    forall a | a in next.outstanding
      ensures Backed(next, a)
    {
      if a == d.assetId {
        HasLess(w.stock, a, d.before, d.quantity);
      } else {
        assert Backed(w, a);
      }
    }
  }

  lemma HasLess(items: seq<Item>, a: nat, more: int, less: int)
    requires Has(items, a, more) && less <= more
    ensures Has(items, a, less)
  {
    var k :| 0 <= k < |items| && items[k].assetId == a && items[k].quantity >= more;
    assert items[k].quantity >= less;
  }

  // Letting go of what a submission held only frees copies.
  lemma DropKeepsInv(w: World, assetId: nat, next: World)
    requires Inv(w)
    requires next.stock == w.stock && next.outstanding == w.outstanding - {assetId}
    requires next.submitted == w.submitted || next.submitted == w.submitted - {assetId}
    requires next.desk == w.desk || next.desk == Idle
    ensures Inv(next)
  {
    forall g
      ensures Free(next.stock, g, next.outstanding) >= Free(w.stock, g, w.outstanding)
    {
      FreeIsMonotone(w.stock, g, next.outstanding, w.outstanding);
    }
    hide Free;
    forall a | a in next.outstanding
      ensures Backed(next, a)
    {
      assert Backed(w, a);
    }
  }

  lemma HasAfterLeave(w: World, index: nat, copies: nat, a: nat, least: int)
    requires Whole(w.stock) && Leaves(w, index, copies)
    requires Has(w.stock, a, least)
    ensures a != w.stock[index].assetId ==> Has(RemoveCopies(w.stock, index, copies), a, least)
    ensures a == w.stock[index].assetId && copies < w.stock[index].quantity ==>
      Has(RemoveCopies(w.stock, index, copies), a, least - copies)
  {
    var after := RemoveCopies(w.stock, index, copies);
    var k :| 0 <= k < |w.stock| && w.stock[k].assetId == a && w.stock[k].quantity >= least;
    if k == index {
      if copies < w.stock[index].quantity {
        assert after[k].assetId == a;
      }
    } else if copies == w.stock[index].quantity && k > index {
      assert after[k - 1] == w.stock[k];
    } else {
      assert after[k] == w.stock[k];
    }
  }

  // Copies that leave were held already: what is free stays as it was, in every group.
  lemma LeaveKeepsFree(w: World, index: nat, copies: nat, group: nat)
    requires Whole(w.stock) && Leaves(w, index, copies)
    ensures Free(AfterLeave(w, index, copies).stock, group, AfterLeave(w, index, copies).outstanding)
         == Free(w.stock, group, w.outstanding)
  {
    var next := AfterLeave(w, index, copies);
    if copies == w.stock[index].quantity {
      FreeAfterRemoval(w.stock, index, group, w.outstanding, next.outstanding);
    } else {
      FreeAfterUpdate(w.stock, index, next.stock[index], group, w.outstanding, next.outstanding);
    }
  }

  lemma RemoveCopiesKeepsGroups(items: seq<Item>, index: nat, copies: nat, group: nat)
    requires Whole(items) && index < |items| && copies <= items[index].quantity
    ensures Whole(RemoveCopies(items, index, copies))
    ensures Owned(RemoveCopies(items, index, copies), group) ==> Owned(items, group)
    ensures forall a :: GroupIs(items, a, group) ==> GroupIs(RemoveCopies(items, index, copies), a, group)
  {
    var after := RemoveCopies(items, index, copies);
    assert forall k :: 0 <= k < |after| ==>
      var from := if copies == items[index].quantity && k >= index then k + 1 else k;
      after[k].assetId == items[from].assetId && after[k].group == items[from].group;
    if Owned(after, group) {
      var k :| 0 <= k < |after| && after[k].group == group;
      var origin := if copies == items[index].quantity && k >= index then k + 1 else k;
      assert items[origin].group == group;
    }
  }

  lemma LeaveKeepsInv(w: World, index: nat, copies: nat)
    requires Inv(w) && Leaves(w, index, copies)
    ensures Inv(AfterLeave(w, index, copies))
  {
    hide Free, Has, GroupIs, Owned, Whole;
    var next := AfterLeave(w, index, copies);
    var gone := w.stock[index].assetId;
    forall g
      ensures Free(next.stock, g, next.outstanding) == Free(w.stock, g, w.outstanding)
      ensures Whole(next.stock) && (Owned(next.stock, g) ==> Owned(w.stock, g))
      ensures forall a :: GroupIs(w.stock, a, g) ==> GroupIs(next.stock, a, g)
    {
      LeaveKeepsFree(w, index, copies, g);
      RemoveCopiesKeepsGroups(w.stock, index, copies, g);
    }
    RemoveCopiesKeepsGroups(w.stock, index, copies, if w.desk.Checked? then w.desk.group else 0);
    assert KeepsOne(next);
    assert Backed(w, gone);
    forall a | a in next.outstanding
      ensures Backed(next, a)
    {
      assert Backed(w, a);
      HasAfterLeave(w, index, copies, a, w.outstanding[a]);
      HasAfterLeave(w, index, copies, a, w.submitted[a].before - w.submitted[a].quantity + w.outstanding[a]);
    }
    if w.desk.Checked? {
      HasAfterLeave(w, index, copies, w.desk.assetId, w.desk.before);
    }
  }

  // The stock changes, but loses nothing: every stack is still there, and its asset keeps its group.
  ghost predicate Grows(before: seq<Item>, after: seq<Item>) {
    && Whole(after)
    && (forall k :: 0 <= k < |before| ==> Has(after, before[k].assetId, before[k].quantity))
    && (forall k :: 0 <= k < |after| ==> GroupIs(before, after[k].assetId, after[k].group))
  }

  lemma GrowthKeepsStacks(before: seq<Item>, after: seq<Item>, a: nat, least: int)
    requires Grows(before, after) && Has(before, a, least)
    ensures Has(after, a, least)
    ensures forall g :: GroupIs(before, a, g) ==> GroupIs(after, a, g)
  {
    var k :| 0 <= k < |before| && before[k].assetId == a && before[k].quantity >= least;
    assert Has(after, before[k].assetId, before[k].quantity);
    forall j | 0 <= j < |after| && after[j].assetId == a
      ensures after[j].group == before[k].group
    {
      assert GroupIs(before, after[j].assetId, after[j].group);
    }
  }

  // A stock that grows, with no less free and something free in every new group, stays safe.
  lemma GrowthKeepsInv(w: World, stock: seq<Item>)
    requires Inv(w) && Grows(w.stock, stock)
    requires forall g :: Free(stock, g, w.outstanding) >= Free(w.stock, g, w.outstanding)
    requires forall g :: Owned(stock, g) ==> Owned(w.stock, g) || Free(stock, g, w.outstanding) >= 1
    ensures Inv(w.(stock := stock))
  {
    hide Free, Has, GroupIs, Owned, Whole;
    var next := w.(stock := stock);
    assert KeepsOne(next);
    forall a | a in next.outstanding
      ensures Backed(next, a)
    {
      assert Backed(w, a);
      GrowthKeepsStacks(w.stock, stock, a, w.outstanding[a]);
      GrowthKeepsStacks(w.stock, stock, a, w.submitted[a].before - w.submitted[a].quantity + w.outstanding[a]);
    }
    if w.desk.Checked? {
      GrowthKeepsStacks(w.stock, stock, w.desk.assetId, w.desk.before);
    }
    assert Whole(stock) by { GrowsIsWhole(w.stock, stock); }
  }

  lemma GrowsIsWhole(before: seq<Item>, after: seq<Item>)
    requires Grows(before, after)
    ensures Whole(after)
  {
  }

  lemma ArriveNewGrows(items: seq<Item>, item: Item)
    requires Whole(items) && item.quantity >= 1 && IndexOf(items, item.assetId) == |items|
    ensures Grows(items, items + [item])
  {
    hide *;
    var after := items + [item];
    AppendKeepsWhole(items, item);
    forall k | 0 <= k < |items|
      ensures Has(after, items[k].assetId, items[k].quantity)
    {
      HasAt(after, k);
    }
    forall k | 0 <= k < |after|
      ensures GroupIs(items, after[k].assetId, after[k].group)
    {
      if k < |items| {
        SameAssetSameGroup(items, k);
      } else {
        NotListed(items, item.assetId);
      }
    }
    AllGrows(items, after);
  }

  lemma AppendKeepsWhole(items: seq<Item>, item: Item)
    requires Whole(items) && item.quantity >= 1 && IndexOf(items, item.assetId) == |items|
    ensures Whole(items + [item])
  {
  }

  lemma HasAt(items: seq<Item>, k: nat)
    requires k < |items|
    ensures Has(items, items[k].assetId, items[k].quantity)
  {
  }

  lemma AllGrows(before: seq<Item>, after: seq<Item>)
    requires Whole(after)
    requires forall k :: 0 <= k < |before| ==> Has(after, before[k].assetId, before[k].quantity)
    requires forall k :: 0 <= k < |after| ==> GroupIs(before, after[k].assetId, after[k].group)
    ensures Grows(before, after)
  {
  }

  lemma SameAssetSameGroup(items: seq<Item>, k: nat)
    requires Whole(items) && k < |items|
    ensures GroupIs(items, items[k].assetId, items[k].group)
  {
  }

  lemma ArriveNewKeepsInv(w: World, item: Item)
    requires Inv(w) && item.quantity >= 1 && IndexOf(w.stock, item.assetId) == |w.stock|
    ensures Inv(w.(stock := w.stock + [item]))
  {
    hide Part, Grows, IndexOf;
    var stock := w.stock + [item];
    ArriveNewGrows(w.stock, item);
    assert stock[..|stock| - 1] == w.stock;
    assert forall a :: a in w.outstanding ==> Backed(w, a);
    assert item.assetId !in w.outstanding by { NotListed(w.stock, item.assetId); }
    forall g | Owned(stock, g)
      ensures Owned(w.stock, g) || Free(stock, g, w.outstanding) >= 1
    {
      var k :| 0 <= k < |stock| && stock[k].group == g;
      if k < |w.stock| {
        assert w.stock[k].group == g;
      } else {
        OwnedIsFree(stock, k, g, w.outstanding);
      }
    }
    GrowthKeepsInv(w, stock);
  }

  lemma NotListed(items: seq<Item>, a: nat)
    requires IndexOf(items, a) == |items|
    ensures forall least :: !Has(items, a, least)
    ensures forall g :: GroupIs(items, a, g)
  {
  }

  lemma ArriveMoreGrows(items: seq<Item>, i: nat, item: Item)
    requires Whole(items) && i < |items| && item.quantity >= items[i].quantity
    requires item.assetId == items[i].assetId && item.group == items[i].group
    ensures Grows(items, items[i := item])
    ensures forall g :: Owned(items[i := item], g) ==> Owned(items, g)
  {
    var after := items[i := item];
    forall k | 0 <= k < |items|
      ensures Has(after, items[k].assetId, items[k].quantity)
    {
      assert after[k].assetId == items[k].assetId;
    }
    forall g | Owned(after, g)
      ensures Owned(items, g)
    {
      var k :| 0 <= k < |after| && after[k].group == g;
      assert items[k].group == g;
    }
  }

  lemma ArriveMoreKeepsInv(w: World, i: nat, item: Item)
    requires Inv(w) && i < |w.stock| && item.quantity >= w.stock[i].quantity
    requires item.assetId == w.stock[i].assetId && item.group == w.stock[i].group
    ensures Inv(w.(stock := w.stock[i := item]))
  {
    ArriveMoreGrows(w.stock, i, item);
    forall g
      ensures Free(w.stock[i := item], g, w.outstanding) >= Free(w.stock, g, w.outstanding)
    {
      MoreIsFree(w.stock, i, item, g, w.outstanding);
    }
    hide *;
    GrowthKeepsInv(w, w.stock[i := item]);
  }

  lemma MoreIsFree(items: seq<Item>, i: nat, item: Item, group: nat, held: map<nat, nat>)
    requires Distinct(items) && i < |items| && item.quantity >= items[i].quantity
    requires item.assetId == items[i].assetId && item.group == items[i].group
    ensures Free(items[i := item], group, held) >= Free(items, group, held)
  {
    FreeAfterUpdate(items, i, item, group, held, held);
    hide Free;
  }

  lemma ReorderGrows(items: seq<Item>, i: nat, j: nat)
    requires Whole(items) && i < j < |items|
    ensures Grows(items, items[i := items[j]][j := items[i]])
    ensures forall g :: Owned(items[i := items[j]][j := items[i]], g) ==> Owned(items, g)
  {
    var after := items[i := items[j]][j := items[i]];
    assert forall k :: 0 <= k < |items| ==> after[k] == items[if k == i then j else if k == j then i else k];
    forall k | 0 <= k < |items|
      ensures Has(after, items[k].assetId, items[k].quantity)
    {
      var place := if k == i then j else if k == j then i else k;
      assert after[place] == items[k];
    }
    forall g | Owned(after, g)
      ensures Owned(items, g)
    {
      var k :| 0 <= k < |after| && after[k].group == g;
      var place := if k == i then j else if k == j then i else k;
      assert items[place].group == g;
    }
  }

  lemma ReorderKeepsInv(w: World, i: nat, j: nat)
    requires Inv(w) && i < j < |w.stock|
    ensures Inv(w.(stock := w.stock[i := w.stock[j]][j := w.stock[i]]))
  {
    var stock := w.stock[i := w.stock[j]][j := w.stock[i]];
    ReorderGrows(w.stock, i, j);
    forall g
      ensures Free(stock, g, w.outstanding) >= Free(w.stock, g, w.outstanding)
    {
      FreeIgnoresOrder(w.stock, i, j, g, w.outstanding);
    }
    hide *;
    GrowthKeepsInv(w, stock);
  }

  lemma StepKeepsInv(w: World, e: Event)
    requires Inv(w)
    ensures Inv(After(w, e))
  {
    hide Inv, AfterCheck, AfterSubmit, AfterLeave, Leaves;
    match e {
      case Read => ReadKeepsInv(w);
      case Check(a, q) =>
        if w.desk.Idle? {
          CheckKeepsInv(w, a, q);
        }
      case Abandon => AbandonKeepsInv(w);
      case Submit =>
        if w.desk.Checked? {
          SubmitKeepsInv(w);
        }
      case Refuse =>
        if Refusable(w) {
          DropKeepsInv(w, w.desk.assetId, After(w, e));
        }
      case Keep => AbandonKeepsInv(w);
      case Leave(i, n) =>
        if Leaves(w, i, n) {
          LeaveKeepsInv(w, i, n);
        }
      case Lapse(a) => DropKeepsInv(w, a, After(w, e));
      case ArriveNew(item) =>
        if item.quantity >= 1 && IndexOf(w.stock, item.assetId) == |w.stock| {
          ArriveNewKeepsInv(w, item);
        }
      case ArriveMore(i, n) =>
        if i < |w.stock| {
          ArriveMoreKeepsInv(w, i, w.stock[i].(quantity := w.stock[i].quantity + n));
        }
      case Reorder(i, j) =>
        if i < j < |w.stock| {
          ReorderKeepsInv(w, i, j);
        }
    }
  }

  lemma AbandonKeepsInv(w: World)
    requires Inv(w)
    ensures Inv(w.(desk := Idle))
  {
    hide Free, Has, Owned, Whole;
    var next := w.(desk := Idle);
    assert forall a :: a in next.outstanding ==> Backed(w, a) && Backed(next, a);
  }

  // ---- Runs ----

  function RunOf(w: World, events: seq<Event>): World
    decreases |events|
  {
    if events == [] then w else RunOf(After(w, events[0]), events[1..])
  }

  lemma {:induction false} RunKeepsInv(w: World, events: seq<Event>)
    requires Inv(w)
    ensures Inv(RunOf(w, events))
    decreases |events|
  {
    if events != [] {
      StepKeepsInv(w, events[0]);
      RunKeepsInv(After(w, events[0]), events[1..]);
    }
  }

  // An account that starts without submissions.
  lemma StartIsSafe(stock: seq<Item>)
    requires Whole(stock)
    ensures Inv(World(stock, map[], map[], Idle))
  {
    forall g | Owned(stock, g)
      ensures Free(stock, g, map[]) >= 1
    {
      var k :| 0 <= k < |stock| && stock[k].group == g;
      OwnedIsFree(stock, k, g, map[]);
    }
  }

  lemma StepKeepsGroups(w: World, e: Event, group: nat)
    requires Inv(w) && Owned(w.stock, group)
    ensures Owned(After(w, e).stock, group)
  {
    var k :| 0 <= k < |w.stock| && w.stock[k].group == group;
    match e
    case Leave(i, n) =>
      if Leaves(w, i, n) {
        LeaveKeepsFree(w, i, n, group);
        FreeIsOwned(After(w, e).stock, group, After(w, e).outstanding);
      }
    case ArriveNew(item) => assert After(w, e).stock[k] == w.stock[k];
    case ArriveMore(i, n) => assert After(w, e).stock[k].group == group;
    case Reorder(i, j) =>
      if i < j < |w.stock| {
        assert After(w, e).stock[if k == i then j else if k == j then i else k] == w.stock[k];
      }
    case _ =>
  }

  // Whatever is submitted, refused, kept, settled or received: one copy of every item group stays.
  lemma {:induction false} OwnedGroupsStay(w: World, events: seq<Event>, group: nat)
    requires Inv(w) && Owned(w.stock, group)
    ensures Owned(RunOf(w, events).stock, group)
    decreases |events|
  {
    if events != [] {
      StepKeepsInv(w, events[0]);
      StepKeepsGroups(w, events[0], group);
      OwnedGroupsStay(After(w, events[0]), events[1..], group);
    }
  }

  // Right after any submission at least one copy of its group is out of every submission's reach.
  lemma SubmissionLeavesOne(stock: seq<Item>, events: seq<Event>)
    requires Whole(stock)
    ensures var w := RunOf(World(stock, map[], map[], Idle), events);
      w.desk.Checked? ==> Free(w.stock, w.desk.group, After(w, Submit).outstanding) >= 1
  {
    var w := RunOf(World(stock, map[], map[], Idle), events);
    StartIsSafe(stock);
    RunKeepsInv(World(stock, map[], map[], Idle), events);
    if w.desk.Checked? {
      SubmitKeepsInv(w);
      var k :| 0 <= k < |w.stock| && w.stock[k].assetId == w.desk.assetId && w.stock[k].quantity >= w.desk.before;
      assert w.stock[k].group == w.desk.group;
      assert KeepsOne(After(w, Submit));
    }
  }

  // ---- No blind repeat ----

  predicate Submits(w: World, e: Event, assetId: nat) {
    e.Submit? && w.desk.Checked? && w.desk.assetId == assetId
  }

  // A definite refusal of this asset's call, or a reading that shows the sold copies gone.
  predicate Clears(w: World, e: Event, assetId: nat, entry: Reservation) {
    || (e.Refuse? && Refusable(w) && w.desk.assetId == assetId)
    || ((e.Read? || (e.Check? && w.desk.Idle?)) && ShownGone(entry, w.stock, assetId))
  }

  lemma ReservationPersists(w: World, e: Event, assetId: nat, entry: Reservation)
    requires Inv(w) && assetId in w.submitted && w.submitted[assetId] == entry
    requires !Clears(w, e, assetId, entry)
    ensures assetId in After(w, e).submitted && After(w, e).submitted[assetId] == entry
  {
    hide Free, Owned, Has, Whole, IndexOf;
  }

  ghost predicate ClearedAlong(w: World, events: seq<Event>, assetId: nat, entry: Reservation)
    decreases |events|
  {
    events != [] &&
    (Clears(w, events[0], assetId, entry) || ClearedAlong(After(w, events[0]), events[1..], assetId, entry))
  }

  lemma {:induction false} HeldUntilCleared(w: World, events: seq<Event>, assetId: nat, entry: Reservation)
    requires Inv(w) && assetId in w.submitted && w.submitted[assetId] == entry
    requires !ClearedAlong(w, events, assetId, entry)
    ensures Inv(RunOf(w, events)) && assetId in RunOf(w, events).submitted && RunOf(w, events).submitted[assetId] == entry
    decreases |events|
  {
    if events != [] {
      StepKeepsInv(w, events[0]);
      ReservationPersists(w, events[0], assetId, entry);
      HeldUntilCleared(After(w, events[0]), events[1..], assetId, entry);
    }
  }

  // Between two submissions of the same asset lies a definite refusal of the first, or a reading of the inventory that
  // shows its copies gone: an accepted or an uncertain submission is never repeated blindly.
  lemma NoBlindRepeat(w: World, between: seq<Event>, assetId: nat)
    requires Inv(w) && Submits(w, Submit, assetId)
    requires Submits(RunOf(After(w, Submit), between), Submit, assetId)
    ensures ClearedAlong(After(w, Submit), between, assetId, Reservation(w.desk.quantity, w.desk.before))
  {
    var entry := Reservation(w.desk.quantity, w.desk.before);
    StepKeepsInv(w, Submit);
    if !ClearedAlong(After(w, Submit), between, assetId, entry) {
      HeldUntilCleared(After(w, Submit), between, assetId, entry);
      assert false;
    }
  }

  // ---- Readings that were overtaken ----

  // A reading that is evaluated late releases an asset whose copies may still leave if and only if the stack it shows,
  // or its absence, is no larger than the stack of the check without the sold copies.
  lemma LateReadingSparesIff(early: World, events: seq<Event>, a: nat)
    requires Inv(early) && a in RunOf(early, events).outstanding
    ensures var late := RunOf(early, events);
      && a in late.submitted
      && (a in Released(late.submitted, early.stock)
          <==> QuantityOf(early.stock, a) > late.submitted[a].before - late.submitted[a].quantity)
  {
    var late := RunOf(early, events);
    RunKeepsInv(early, events);
    assert Backed(late, a);
  }

  // Copies of this asset come in: a new stack, or more on the one it has.
  predicate Arrives(w: World, e: Event, a: nat) {
    || (e.ArriveNew? && e.item.assetId == a)
    || (e.ArriveMore? && e.index < |w.stock| && w.stock[e.index].assetId == a)
  }

  predicate ArrivesAlong(w: World, events: seq<Event>, a: nat)
    decreases |events|
  {
    events != [] && (Arrives(w, events[0], a) || ArrivesAlong(After(w, events[0]), events[1..], a))
  }

  lemma QuantityAt(items: seq<Item>, k: nat)
    requires Whole(items) && k < |items|
    ensures QuantityOf(items, items[k].assetId) == items[k].quantity
  {
    IndexOfUnique(items, k);
  }

  // Unless copies arrive, the stack of an asset does not grow.
  lemma StepShrinks(w: World, e: Event, a: nat)
    requires Inv(w) && !Arrives(w, e, a)
    ensures QuantityOf(After(w, e).stock, a) <= QuantityOf(w.stock, a)
  {
    var next := After(w, e);
    StepKeepsInv(w, e);
    assert Whole(w.stock) && Whole(next.stock);
    hide Inv, Whole, Released, AfterCheck, AfterSubmit, AfterRefuse;
    var j := IndexOf(next.stock, a);
    if j < |next.stock| {
      StackWasThere(w, e, j);
      var k :| 0 <= k < |w.stock| && w.stock[k].assetId == a && w.stock[k].quantity >= next.stock[j].quantity;
      QuantityAt(w.stock, k);
    }
  }

  lemma StackWasThere(w: World, e: Event, j: nat)
    requires j < |After(w, e).stock| && !Arrives(w, e, After(w, e).stock[j].assetId)
    ensures Has(w.stock, After(w, e).stock[j].assetId, After(w, e).stock[j].quantity)
  {
    hide Free, Released, Sellable, IndexOf;
    match e
    case Leave(i, n) =>
      if Leaves(w, i, n) {
        RemainingStackWasThere(w.stock, i, n, j);
      } else {
        HasAt(w.stock, j);
      }
    case Reorder(i, k) => ReorderedStackWasThere(w, i, k, j);
    case _ =>
      assert j < |w.stock| && w.stock[j] == After(w, e).stock[j];
      HasAt(w.stock, j);
  }

  lemma RemainingStackWasThere(items: seq<Item>, i: nat, copies: nat, j: nat)
    requires i < |items| && copies <= items[i].quantity && j < |RemoveCopies(items, i, copies)|
    ensures Has(items, RemoveCopies(items, i, copies)[j].assetId, RemoveCopies(items, i, copies)[j].quantity)
  {
    var k := if copies == items[i].quantity && j >= i then j + 1 else j;
    assert items[k].assetId == RemoveCopies(items, i, copies)[j].assetId;
  }

  lemma ReorderedStackWasThere(w: World, i: nat, k: nat, j: nat)
    requires j < |w.stock|
    ensures |After(w, Reorder(i, k)).stock| == |w.stock|
    ensures Has(w.stock, After(w, Reorder(i, k)).stock[j].assetId, After(w, Reorder(i, k)).stock[j].quantity)
  {
    var place := if i < k < |w.stock| then (if j == i then k else if j == k then i else j) else j;
    assert w.stock[place] == After(w, Reorder(i, k)).stock[j];
    HasAt(w.stock, place);
  }

  lemma {:induction false} RunShrinks(w: World, events: seq<Event>, a: nat)
    requires Inv(w) && !ArrivesAlong(w, events, a)
    ensures QuantityOf(RunOf(w, events).stock, a) <= QuantityOf(w.stock, a)
    decreases |events|
  {
    if events != [] {
      StepShrinks(w, events[0], a);
      StepKeepsInv(w, events[0]);
      hide After, Arrives, Inv;
      RunShrinks(After(w, events[0]), events[1..], a);
    }
  }

  lemma {:induction false} RunConcat(w: World, first: seq<Event>, second: seq<Event>)
    ensures RunOf(w, first + second) == RunOf(RunOf(w, first), second)
    decreases |first|
  {
    if first == [] {
      assert first + second == second;
    } else {
      assert (first + second)[1..] == first[1..] + second;
      hide After;
      RunConcat(After(w, first[0]), first[1..], second);
    }
  }

  // So a late evaluation is harmless when no copy of the asset came in between the reading and the check of its sale,
  // whatever happens before, between and afterwards.
  lemma LateReadingIsHarmless(early: World, before: seq<Event>, a: nat, quantity: int, between: seq<Event>)
    requires Inv(early) && !ArrivesAlong(early, before, a)
    requires var atCheck := RunOf(early, before);
      && After(atCheck, Check(a, quantity)).desk.Checked? && atCheck.desk.Idle?
      && var late := RunOf(early, before + [Check(a, quantity)] + between);
         a in late.outstanding && a in late.submitted
         && late.submitted[a] == Reservation(quantity, QuantityOf(atCheck.stock, a))
    ensures a in Released(RunOf(early, before + [Check(a, quantity)] + between).submitted, early.stock)
  {
    var events := before + [Check(a, quantity)] + between;
    RunShrinks(early, before, a);
    LateReadingSparesIff(early, events, a);
    var late := RunOf(early, events);
    RunKeepsInv(early, events);
    assert Backed(late, a);
  }

  // A reading that began when the sale had been checked already, or submitted,
  // never releases its reservation, however late it is evaluated: until the
  // reservation is cleared otherwise it is still there afterwards.
  lemma ReadingSinceSubmissionIsHarmless(early: World, events: seq<Event>, a: nat)
    requires Inv(early) && a in early.outstanding
    requires !ClearedAlong(early, events, a, early.submitted[a])
    ensures a in Released(RunOf(early, events).submitted, early.stock)
  {
    assert Backed(early, a);
    HeldUntilCleared(early, events, a, early.submitted[a]);
    ReleaseSparesOutstanding(early, a);
  }

  lemma ReadingSinceCheckIsHarmless(early: World, events: seq<Event>, a: nat)
    requires Inv(early) && early.desk.Checked? && early.desk.assetId == a
    requires var late := RunOf(early, events);
      a in late.submitted && late.submitted[a] == Reservation(early.desk.quantity, early.desk.before)
    ensures a in Released(RunOf(early, events).submitted, early.stock)
  {
    var k :| 0 <= k < |early.stock| && early.stock[k].assetId == a && early.stock[k].quantity >= early.desk.before;
    IndexOfUnique(early.stock, k);
  }

  // A reading that began before the sale can release it too early: the pages were fetched when the asset had not
  // arrived yet, and by the time they are evaluated the asset has been submitted and its copies may still leave.
  lemma StaleReadingReleasesTooEarly()
    ensures exists early: World, events: seq<Event>, a: nat ::
      && Inv(early)
      && var late := RunOf(early, events);
         a in late.outstanding && a in late.submitted && a !in Released(late.submitted, early.stock)
  {
    var early := World([Item(1, 7, 1)], map[], map[], Idle);
    StartIsSafe(early.stock);
    var one := After(early, ArriveNew(Item(2, 7, 2)));
    assert one.stock == [Item(1, 7, 1), Item(2, 7, 2)];
    var two := After(one, Check(2, 2));
    assert Free(one.stock, 7, map[]) == 3 by {
      assert one.stock[..1] == early.stock && early.stock[..0] == [];
    }
    assert Quantities(map[]) == map[] && Released(map[], one.stock) == map[];
    assert two.desk == Checked(2, 7, 2, 2);
    var three := After(two, Submit);
    var events := [ArriveNew(Item(2, 7, 2)), Check(2, 2), Submit];
    assert events[1..] == [Check(2, 2), Submit] && events[1..][1..] == [Submit] && events[1..][1..][1..] == [];
    assert RunOf(two, [Submit]) == RunOf(three, []) == three;
    assert RunOf(early, events) == three;
    assert 2 in three.outstanding && 2 !in Released(three.submitted, early.stock);
  }
}
