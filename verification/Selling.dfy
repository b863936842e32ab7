// The sale side of the inventory market service of one account: reading, checking, submitting and planning.
module Selling {
  import opened Results
  import opened SaleLedger
  import opened SaleProtocol

  const MAX_STACK := 1_000_000
  const MAX_BATCH := 50

  datatype SaleError =
    | BadInventory | Unavailable | AlreadySubmitted | KeepOneCopy | NotSubmitted | Uncertain | Rejected | BadSelection

  // ---- Reading the inventory ----

  datatype Asset = Asset(assetId: nat, group: nat, amount: int, described: bool)

  datatype Row = Row(item: Item, duplicateQuantity: nat)

  predicate Readable(asset: Asset) {
    asset.described && 1 <= asset.amount <= MAX_STACK
  }

  function ItemsOf(rows: seq<Row>): (r: seq<Item>)
    ensures |r| == |rows| && forall k :: 0 <= k < |rows| ==> r[k] == rows[k].item
  {
    seq(|rows|, k requires 0 <= k < |rows| => rows[k].item)
  }

  function DuplicatesOf(rows: seq<Row>, group: nat): nat {
    if rows == [] then 0
    else
      DuplicatesOf(rows[..|rows| - 1], group)
      + (if rows[|rows| - 1].item.group == group then rows[|rows| - 1].duplicateQuantity else 0)
  }

  // Duplicates are all copies of a group but one.
  ghost predicate OneIsNoDuplicate(rows: seq<Row>) {
    forall g :: DuplicatesOf(rows, g) + (if Owned(ItemsOf(rows), g) then 1 else 0) == Free(ItemsOf(rows), g, map[])
  }

  lemma RowKeepsCount(rows: seq<Row>, row: Row, g: nat)
    requires DuplicatesOf(rows, g) + (if Owned(ItemsOf(rows), g) then 1 else 0) == Free(ItemsOf(rows), g, map[])
    requires row.item.quantity >= 1
    requires row.duplicateQuantity == row.item.quantity - (if Owned(ItemsOf(rows), row.item.group) then 0 else 1)
    ensures DuplicatesOf(rows + [row], g) + (if Owned(ItemsOf(rows + [row]), g) then 1 else 0) == Free(ItemsOf(rows + [row]), g, map[])
  {
    var after := rows + [row];
    var items := ItemsOf(rows);
    assert after[..|after| - 1] == rows;
    assert ItemsOf(after) == items + [row.item];
    assert (items + [row.item])[..|items|] == items;
    OwnedAppend(items, row.item, g);
  }

  lemma OwnedAppend(items: seq<Item>, item: Item, g: nat)
    ensures Owned(items + [item], g) <==> Owned(items, g) || item.group == g
  {
    var after := items + [item];
    if Owned(items, g) {
      var k :| 0 <= k < |items| && items[k].group == g;
      assert after[k].group == g;
    } else if item.group == g {
      assert after[|items|].group == g;
    }
  }

  method ListItems(assets: seq<Asset>) returns (r: Result<seq<Row>, SaleError>)
    ensures r.Ok? <==> forall k :: 0 <= k < |assets| ==> Readable(assets[k])
    ensures r.Err? ==> r.error == BadInventory
    ensures r.Ok? ==> |r.value| == |assets| && OneIsNoDuplicate(r.value)
    ensures r.Ok? ==> forall k :: 0 <= k < |assets| ==>
      r.value[k].item.assetId == assets[k].assetId && r.value[k].item.group == assets[k].group
      && r.value[k].item.quantity == assets[k].amount
      && (r.value[k].duplicateQuantity == r.value[k].item.quantity - 1 || r.value[k].duplicateQuantity == r.value[k].item.quantity)
  {
    var rows: seq<Row> := [];
    var kept: set<nat> := {};
    for i := 0 to |assets|
      invariant |rows| == i && forall k :: 0 <= k < i ==> Readable(assets[k])
      invariant forall g :: g in kept <==> Owned(ItemsOf(rows), g)
      invariant OneIsNoDuplicate(rows)
      invariant forall k :: 0 <= k < i ==>
        rows[k].item.assetId == assets[k].assetId && rows[k].item.group == assets[k].group
        && rows[k].item.quantity == assets[k].amount
        && (rows[k].duplicateQuantity == rows[k].item.quantity - 1 || rows[k].duplicateQuantity == rows[k].item.quantity)
    {
      if !assets[i].described || !(1 <= assets[i].amount <= MAX_STACK) {
        return Err(BadInventory);
      }
      var item := Item(assets[i].assetId, assets[i].group, assets[i].amount);
      var row := Row(item, item.quantity - (if item.group in kept then 0 else 1));
      forall g
        ensures DuplicatesOf(rows + [row], g) + (if Owned(ItemsOf(rows + [row]), g) then 1 else 0) == Free(ItemsOf(rows + [row]), g, map[])
        ensures Owned(ItemsOf(rows + [row]), g) <==> Owned(ItemsOf(rows), g) || item.group == g
      {
        RowKeepsCount(rows, row, g);
        OwnedAppend(ItemsOf(rows), item, g);
        assert ItemsOf(rows + [row]) == ItemsOf(rows) + [item];
      }
      kept := kept + {item.group};
      rows := rows + [row];
    }
    r := Ok(rows);
  }

  // ---- Selling ----

  datatype Reply = NeverSent | Broken | Answer(success: bool, needsConfirmation: bool)

  predicate Refused(reply: Reply) {
    reply.NeverSent? || (reply.Answer? && !reply.success)
  }

  predicate InStock(items: seq<Item>, assetId: nat, quantity: int) {
    IndexOf(items, assetId) < |items| && quantity <= items[IndexOf(items, assetId)].quantity
  }

  class InventoryMarketService {
    var submitted: map<nat, Reservation>
    // The machine this service takes part in.
    ghost var world: World

    ghost predicate Valid()
      reads this
    {
      world.submitted == submitted && Inv(world)
    }

    constructor (ghost stock: seq<Item>)
      requires Whole(stock)
      ensures Valid() && world == World(stock, map[], map[], Idle)
    {
      submitted := map[];
      world := World(stock, map[], map[], Idle);
      StartIsSafe(stock);
    }

    method ReleaseSettledSubmissions(items: seq<Item>)
      modifies `submitted
      ensures submitted == Released(old(submitted), items)
    {
      var assets := submitted.Keys;
      while assets != {}
        invariant assets <= submitted.Keys <= old(submitted).Keys
        invariant forall a :: a in submitted ==> submitted[a] == old(submitted)[a]
        invariant forall a :: a in old(submitted) && a !in assets ==>
          (a in submitted <==> !ShownGone(old(submitted)[a], items, a))
        decreases |assets|
      {
        var a :| a in assets;
        assets := assets - {a};
        var i := IndexOf(items, a);
        if i == |items| || items[i].quantity <= submitted[a].before - submitted[a].quantity {
          submitted := submitted - {a};
        }
      }
    }

    method AssertSellable(items: seq<Item>, assetId: nat, quantity: int) returns (r: Result<Item, SaleError>)
      ensures r.Ok? <==> Sellable(items, submitted, assetId, quantity)
      ensures r.Ok? ==> r.value == items[IndexOf(items, assetId)]
      ensures r == Err(Unavailable) <==> !InStock(items, assetId, quantity) || !(1 <= quantity <= MAX_QUANTITY)
      ensures r == Err(AlreadySubmitted) <==> InStock(items, assetId, quantity) && 1 <= quantity <= MAX_QUANTITY && assetId in submitted
      ensures r == Err(KeepOneCopy) <==>
        InStock(items, assetId, quantity) && 1 <= quantity <= MAX_QUANTITY && assetId !in submitted && !Sellable(items, submitted, assetId, quantity)
    {
      var i := IndexOf(items, assetId);
      if i == |items| || quantity < 1 || quantity > MAX_QUANTITY || quantity > items[i].quantity {
        return Err(Unavailable);
      }
      if assetId in submitted {
        return Err(AlreadySubmitted);
      }
      var available := AvailableOf(items, items[i].group);
      if available - quantity < 1 {
        return Err(KeepOneCopy);
      }
      r := Ok(items[i]);
    }

    method AvailableOf(items: seq<Item>, group: nat) returns (sum: nat)
      ensures sum == Free(items, group, Quantities(submitted))
    {
      sum := 0;
      for k := 0 to |items|
        invariant sum == Free(items[..k], group, Quantities(submitted))
      {
        assert items[..k + 1][..k] == items[..k];
        if items[k].group == group {
          var held := if items[k].assetId in submitted then submitted[items[k].assetId].quantity else 0;
          sum := sum + items[k].quantity - (if held < items[k].quantity then held else items[k].quantity);
        }
      }
      assert items[..|items|] == items;
    }

    // Any reading of the inventory, from a sale or only for show.
    method Inventory(items: seq<Item>)
      requires Valid() && items == world.stock
      modifies this
      ensures Valid() && world == After(old(world), Read)
    {
      ReadKeepsInv(world);
      hide Inv, Released;
      ReleaseSettledSubmissions(items);
      world := world.(submitted := submitted);
    }

    // A sale reads the inventory and checks itself against it.
    method CheckSale(items: seq<Item>, assetId: nat, quantity: int) returns (r: Result<Item, SaleError>)
      requires Valid() && items == world.stock && world.desk.Idle?
      modifies this
      ensures Valid() && world == After(old(world), Check(assetId, quantity))
      ensures r.Ok? <==> world.desk.Checked?
      ensures r.Ok? ==> world.desk == Checked(assetId, r.value.group, quantity, r.value.quantity) && r.value.assetId == assetId
    {
      CheckKeepsInv(world, assetId, quantity);
      hide Inv, Released;
      ReleaseSettledSubmissions(items);
      r := AssertSellable(items, assetId, quantity);
      world := AfterCheck(world, assetId, quantity);
    }

    // A guard between the check and the call fails: the sale is given up without a trace.
    method GiveUp()
      requires Valid() && world.desk.Checked?
      modifies `world
      ensures Valid() && world == After(old(world), Abandon)
    {
      AbandonKeepsInv(world);
      world := world.(desk := Idle);
    }

    // Reserves the asset before the call to Steam leaves.
    method Reserve(item: Item, quantity: nat)
      requires Valid() && world.desk == Checked(item.assetId, item.group, quantity, item.quantity)
      modifies this
      ensures Valid() && world == After(old(world), Submit)
    {
      SubmitKeepsInv(world);
      world := AfterSubmit(world);
      submitted := submitted[item.assetId := Reservation(quantity, item.quantity)];
    }

    // The answer to the call: only a definite refusal gives the asset back.
    method Settle(assetId: nat, reply: Reply) returns (r: Result<bool, SaleError>)
      requires Valid() && world.desk == Calling(assetId)
      // When Steam refuses, or the request never left, no copy of it has gone.
      requires Refused(reply) ==> Refusable(world)
      modifies this
      ensures Valid() && world == After(old(world), if Refused(reply) then Refuse else Keep)
      ensures r == match reply
        case NeverSent => Err(NotSubmitted)
        case Broken => Err(Uncertain)
        case Answer(success, needsConfirmation) => if success then Ok(needsConfirmation) else Err(Rejected)
    {
      StepKeepsInv(world, if Refused(reply) then Refuse else Keep);
      hide Inv;
      world := After(world, if Refused(reply) then Refuse else Keep);
      match reply {
        case NeverSent =>
          submitted := submitted - {assetId};
          r := Err(NotSubmitted);
        case Broken =>
          r := Err(Uncertain);
        case Answer(success, needsConfirmation) =>
          if !success {
            submitted := submitted - {assetId};
            r := Err(Rejected);
          } else {
            r := Ok(needsConfirmation);
          }
      }
    }

    // ---- Planning a batch ----

    method PlanBatch(items: seq<Item>, wishes: seq<Wish>) returns (r: Result<seq<bool>, SaleError>)
      ensures r.Ok? <==> 1 <= |wishes| <= MAX_BATCH && DistinctWishes(wishes)
      ensures r.Ok? ==> Planned(items, submitted, wishes, r.value)
    {
      var distinct := AreDistinct(wishes);
      if |wishes| == 0 || |wishes| > MAX_BATCH || !distinct {
        return Err(BadSelection);
      }
      var ready: seq<bool> := [];
      var planned: map<nat, nat> := map[];
      for k := 0 to |wishes|
        invariant |ready| == k
        invariant forall g :: HeldOf(planned, g) == ReadyTotal(items, wishes, ready, k, g)
        invariant forall i :: 0 <= i < k ==> (ready[i] <==> MayJoin(items, submitted, wishes, ready, i))
      {
        hide Joins, MayJoin, ReadyTotal, DistinctWishes, InGroup;
        ghost var before, counted := ready, planned;
        var verdict, group := JudgeRow(items, wishes[k], planned);
        if verdict {
          planned := planned[group := HeldOf(planned, group) + wishes[k].quantity];
        }
        ready := ready + [verdict];
        RowJoins(items, submitted, wishes, before, ready, counted, group);
      }
      r := Ok(ready);
    }

    // One row of a plan: whether it is ready beside the copies already planned, and its group if so.
    method JudgeRow(items: seq<Item>, wish: Wish, planned: map<nat, nat>) returns (verdict: bool, group: nat)
      ensures verdict <==> Joins(items, submitted, wish, (g: nat) => HeldOf(planned, g))
      ensures verdict ==> InGroup(items, wish.assetId, group) && wish.quantity >= 1
    {
      verdict, group := false, 0;
      var checked := AssertSellable(items, wish.assetId, wish.quantity);
      if checked.Ok? && !wish.listed {
        group := checked.value.group;
        var available := AvailableOf(items, group);
        verdict := !(available - HeldOf(planned, group) - wish.quantity < 1) && wish.quoted;
      }
    }
  }

  method AreDistinct(wishes: seq<Wish>) returns (r: bool)
    ensures r <==> DistinctWishes(wishes)
  {
    var seen: set<nat> := {};
    for k := 0 to |wishes|
      invariant forall a :: a in seen <==> exists i :: 0 <= i < k && wishes[i].assetId == a
      invariant forall i, j :: 0 <= i < j < k ==> wishes[i].assetId != wishes[j].assetId
    {
      if wishes[k].assetId in seen {
        return false;
      }
      seen := seen + {wishes[k].assetId};
    }
    r := true;
  }

  // One selected asset of a batch; whether it is listed already and whether a price could be quoted are Steam's word.
  datatype Wish = Wish(assetId: nat, quantity: int, listed: bool, quoted: bool)

  predicate DistinctWishes(wishes: seq<Wish>) {
    forall i, j :: 0 <= i < j < |wishes| ==> wishes[i].assetId != wishes[j].assetId
  }

  predicate InGroup(items: seq<Item>, assetId: nat, group: nat) {
    var i := IndexOf(items, assetId);
    i < |items| && items[i].group == group
  }

  // The copies of a group that the first `n` rows of a plan will sell.
  function ReadyTotal(items: seq<Item>, wishes: seq<Wish>, ready: seq<bool>, n: nat, group: nat): int
    requires n <= |wishes| && n <= |ready|
  {
    if n == 0 then 0
    else
      ReadyTotal(items, wishes, ready, n - 1, group)
      + (if ready[n - 1] && InGroup(items, wishes[n - 1].assetId, group) then wishes[n - 1].quantity else 0)
  }

  // The conditions under which a row is ready, given how many copies of each group are planned already.
  predicate Joins(items: seq<Item>, submitted: map<nat, Reservation>, wish: Wish, already: nat -> int) {
    && Sellable(items, submitted, wish.assetId, wish.quantity) && !wish.listed && wish.quoted
    && var group := items[IndexOf(items, wish.assetId)].group;
       Free(items, group, Quantities(submitted)) - already(group) - wish.quantity >= 1
  }

  // Row `k` is ready beside the ready rows before it.
  predicate MayJoin(items: seq<Item>, submitted: map<nat, Reservation>, wishes: seq<Wish>, ready: seq<bool>, k: nat)
    requires k < |wishes| && k <= |ready|
  {
    Joins(items, submitted, wishes[k], (g: nat) => ReadyTotal(items, wishes, ready, k, g))
  }

  predicate Planned(items: seq<Item>, submitted: map<nat, Reservation>, wishes: seq<Wish>, ready: seq<bool>) {
    && |ready| == |wishes|
    && forall k :: 0 <= k < |wishes| ==> (ready[k] <==> MayJoin(items, submitted, wishes, ready, k))
  }

  lemma {:induction false} ReadyTotalLocal(items: seq<Item>, wishes: seq<Wish>, one: seq<bool>, other: seq<bool>, n: nat, group: nat)
    requires n <= |wishes| && n <= |one| && n <= |other|
    requires one[..n] == other[..n]
    ensures ReadyTotal(items, wishes, one, n, group) == ReadyTotal(items, wishes, other, n, group)
  {
    if n > 0 {
      assert one[..n][..n - 1] == one[..n - 1] && other[..n][..n - 1] == other[..n - 1];
      assert one[..n][n - 1] == one[n - 1] && other[..n][n - 1] == other[n - 1];
      ReadyTotalLocal(items, wishes, one, other, n - 1, group);
    }
  }

  // Adding the verdict on a row keeps the verdicts before it, and the totals grow by that row.
  lemma RowJoins(items: seq<Item>, submitted: map<nat, Reservation>, wishes: seq<Wish>, before: seq<bool>, ready: seq<bool>, planned: map<nat, nat>, group: nat)
    requires |before| < |wishes| && |ready| == |before| + 1 && ready[..|before|] == before
    requires forall g :: HeldOf(planned, g) == ReadyTotal(items, wishes, before, |before|, g)
    requires forall i :: 0 <= i < |before| ==> (before[i] <==> MayJoin(items, submitted, wishes, before, i))
    requires ready[|before|] <==> Joins(items, submitted, wishes[|before|], (g: nat) => HeldOf(planned, g))
    requires ready[|before|] ==> InGroup(items, wishes[|before|].assetId, group)
    ensures forall i :: 0 <= i < |ready| ==> (ready[i] <==> MayJoin(items, submitted, wishes, ready, i))
    ensures forall g :: ReadyTotal(items, wishes, ready, |ready|, g) == HeldOf(planned, g) + (if ready[|before|] && g == group then wishes[|before|].quantity else 0)
  {
    hide Free, HeldOf;
    forall g: nat, n: nat | n <= |before|
      ensures ReadyTotal(items, wishes, ready, n, g) == ReadyTotal(items, wishes, before, n, g)
    {
      assert before[..n] == ready[..|before|][..n] == ready[..n];
      ReadyTotalLocal(items, wishes, before, ready, n, g);
    }
    forall i | 0 <= i < |ready|
      ensures ready[i] <==> MayJoin(items, submitted, wishes, ready, i)
    {
      assert forall g: nat :: ReadyTotal(items, wishes, ready, i, g) == ReadyTotal(items, wishes, before, i, g);
      if i < |before| {
        assert ready[i] == ready[..|before|][i] == before[i];
        assert MayJoin(items, submitted, wishes, before, i) == MayJoin(items, submitted, wishes, ready, i);
      }
    }
  }

  // The ready rows of a plan together leave at least one copy of each group they touch.
  lemma {:induction false} PlanLeavesOne(items: seq<Item>, submitted: map<nat, Reservation>, wishes: seq<Wish>, ready: seq<bool>, n: nat, group: nat)
    requires Planned(items, submitted, wishes, ready) && n <= |wishes|
    ensures ReadyTotal(items, wishes, ready, n, group) >= 0
    ensures ReadyTotal(items, wishes, ready, n, group) > 0 ==>
      Free(items, group, Quantities(submitted)) - ReadyTotal(items, wishes, ready, n, group) >= 1
  {
    if n > 0 {
      PlanLeavesOne(items, submitted, wishes, ready, n - 1, group);
      assert ready[n - 1] ==> MayJoin(items, submitted, wishes, ready, n - 1);
    }
  }

  // ---- Carrying a plan out ----

  // The reservations once the first `n` rows have been submitted.
  function Reserved(items: seq<Item>, submitted: map<nat, Reservation>, wishes: seq<Wish>, ready: seq<bool>, n: nat): map<nat, Reservation>
    requires Planned(items, submitted, wishes, ready) && n <= |wishes|
  {
    if n == 0 then submitted
    else
      var earlier := Reserved(items, submitted, wishes, ready, n - 1);
      if ready[n - 1] then
        assert MayJoin(items, submitted, wishes, ready, n - 1);
        earlier[wishes[n - 1].assetId := Reservation(wishes[n - 1].quantity, QuantityOf(items, wishes[n - 1].assetId))]
      else earlier
  }

  lemma {:induction false} ReservedAssets(items: seq<Item>, submitted: map<nat, Reservation>, wishes: seq<Wish>, ready: seq<bool>, n: nat, a: nat)
    requires Planned(items, submitted, wishes, ready) && n <= |wishes|
    ensures a in Reserved(items, submitted, wishes, ready, n) <==>
      a in submitted || exists i :: 0 <= i < n && ready[i] && wishes[i].assetId == a
  {
    if n > 0 {
      ReservedAssets(items, submitted, wishes, ready, n - 1, a);
    }
  }

  // Each submitted row takes exactly its copies off what the check counts.
  lemma {:induction false} ReservedFree(items: seq<Item>, submitted: map<nat, Reservation>, wishes: seq<Wish>, ready: seq<bool>, n: nat, group: nat)
    requires Distinct(items) && DistinctWishes(wishes)
    requires Planned(items, submitted, wishes, ready) && n <= |wishes|
    ensures Free(items, group, Quantities(Reserved(items, submitted, wishes, ready, n)))
         == Free(items, group, Quantities(submitted)) - ReadyTotal(items, wishes, ready, n, group)
  {
    if n > 0 {
      ReservedFree(items, submitted, wishes, ready, n - 1, group);
      if ready[n - 1] {
        assert MayJoin(items, submitted, wishes, ready, n - 1);
        var a := wishes[n - 1].assetId;
        var i := IndexOf(items, a);
        var earlier := Reserved(items, submitted, wishes, ready, n - 1);
        ReservedAssets(items, submitted, wishes, ready, n - 1, a);
        assert a !in earlier;
        var later := Reserved(items, submitted, wishes, ready, n);
        FreeAfterUpdate(items, i, items[i], group, Quantities(earlier), Quantities(later));
        assert items[i := items[i]] == items;
      }
    }
  }

  // As long as the inventory does not change, every ready row still passes its own check when its turn comes, after
  // all earlier rows have been submitted and accepted: a plan never promises a sale that the check would refuse.
  lemma PlanPassesItsChecks(items: seq<Item>, submitted: map<nat, Reservation>, wishes: seq<Wish>, ready: seq<bool>, k: nat)
    requires Distinct(items) && DistinctWishes(wishes)
    requires Planned(items, submitted, wishes, ready) && k < |wishes| && ready[k]
    ensures Sellable(items, Reserved(items, submitted, wishes, ready, k), wishes[k].assetId, wishes[k].quantity)
  {
    assert MayJoin(items, submitted, wishes, ready, k);
    var a := wishes[k].assetId;
    ReservedAssets(items, submitted, wishes, ready, k, a);
    ReservedFree(items, submitted, wishes, ready, k, items[IndexOf(items, a)].group);
  }

  // Nor does it leave out a sale that the check would let through: a row is ready exactly when it is not listed yet, has
  // a price, and passes its check after the earlier ready rows.
  lemma PlanIsExact(items: seq<Item>, submitted: map<nat, Reservation>, wishes: seq<Wish>, ready: seq<bool>, k: nat)
    requires Distinct(items) && DistinctWishes(wishes)
    requires Planned(items, submitted, wishes, ready) && k < |wishes|
    ensures ready[k] <==>
      && !wishes[k].listed && wishes[k].quoted
      && Sellable(items, Reserved(items, submitted, wishes, ready, k), wishes[k].assetId, wishes[k].quantity)
  {
    var a := wishes[k].assetId;
    var i := IndexOf(items, a);
    assert ready[k] <==> MayJoin(items, submitted, wishes, ready, k);
    ReservedAssets(items, submitted, wishes, ready, k, a);
    if i < |items| {
      ReservedFree(items, submitted, wishes, ready, k, items[i].group);
      PlanLeavesOne(items, submitted, wishes, ready, k, items[i].group);
    }
    hide Free, Reserved, ReadyTotal, Planned;
  }

  // The readings in between release nothing, so those reservations are the ones the check meets.
  lemma {:induction false} PlanKeepsReservations(items: seq<Item>, submitted: map<nat, Reservation>, wishes: seq<Wish>, ready: seq<bool>, n: nat)
    requires Planned(items, submitted, wishes, ready) && n <= |wishes|
    requires Released(submitted, items) == submitted
    ensures Released(Reserved(items, submitted, wishes, ready, n), items) == Reserved(items, submitted, wishes, ready, n)
  {
    if n > 0 {
      PlanKeepsReservations(items, submitted, wishes, ready, n - 1);
      var earlier := Reserved(items, submitted, wishes, ready, n - 1);
      var later := Reserved(items, submitted, wishes, ready, n);
      if ready[n - 1] {
        assert MayJoin(items, submitted, wishes, ready, n - 1);
      }
      forall a | a in later
        ensures !ShownGone(later[a], items, a)
      {
        if a in earlier && later[a] == earlier[a] {
          assert a in Released(earlier, items);
        }
      }
      assert Released(later, items) == later;
    }
  }
}
