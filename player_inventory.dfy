/**
 * The player's item inventory (src/inventory/player_inventory.py): a list of
 * items with unique ids, where adding an id already held stacks onto the
 * existing entry, a new id needs a free slot out of twenty, and removing the
 * last of an item deletes its entry. Item names, descriptions, display
 * colours and the artifact effect summary are not modelled.
 */
module PyInventory {
  import opened Wrappers

  datatype ItemType = Artifact | Potion | Material | Card

  datatype ItemRarity = Common | Uncommon | Rare | Epic | Legendary

  /** Item, without its display name and description. */
  datatype Item = Item(id: string, itemType: ItemType, rarity: ItemRarity,
                       quantity: int, consumable: bool, effectValue: int)

  /** max_items. */
  const MaxItems: int := 20

  /** The position of a rarity in the order Common < Uncommon < ... < Legendary. */
  function Rank(r: ItemRarity): nat {
    match r
    case Common => 0
    case Uncommon => 1
    case Rare => 2
    case Epic => 3
    case Legendary => 4
  }

  /** The value of one unit of an item of rarity r (the base_values table of get_value). */
  function BaseValue(r: ItemRarity): (v: int)
    ensures 10 <= v <= 250
  {
    match r
    case Common => 10
    case Uncommon => 25
    case Rare => 60
    case Epic => 120
    case Legendary => 250
  }

  /** get_value: the base value of the item's rarity for each unit held. */
  function Value(item: Item): int {
    BaseValue(item.rarity) * item.quantity
  }

  /** A rarer item is worth strictly more per unit, so a rarer stack of the same positive size is worth more. */
  lemma RarerIsWorthMore(a: Item, b: Item)
    requires Rank(a.rarity) < Rank(b.rarity) && a.quantity == b.quantity > 0
    ensures Value(a) < Value(b)
    ensures BaseValue(a.rarity) < BaseValue(b.rarity)
  {
  }

  /** get_total_value: the sum of the values of the entries. */
  function TotalValue(items: seq<Item>): int {
    if |items| == 0 then 0 else TotalValue(items[..|items| - 1]) + Value(items[|items| - 1])
  }

  /** The first index holding id, scanning from the front as the inventory's loops do. */
  function IndexOf(items: seq<Item>, id: string): (r: Option<nat>)
    ensures r.Some? ==> r.value < |items| && items[r.value].id == id
    ensures r.Some? ==> forall j :: 0 <= j < r.value ==> items[j].id != id
    ensures r.None? ==> forall j :: 0 <= j < |items| ==> items[j].id != id
  {
    if |items| == 0 then None
    else if items[0].id == id then Some(0)
    else match IndexOf(items[1..], id)
      case None => None
      case Some(k) => Some(k + 1)
  }

  /** No two entries share an id. */
  predicate UniqueIds(items: seq<Item>) {
    forall i, j :: 0 <= i < j < |items| ==> items[i].id != items[j].id
  }

  /** The inventory's invariant: unique ids and at most MaxItems entries. */
  predicate WellFormed(items: seq<Item>) {
    UniqueIds(items) && |items| <= MaxItems
  }

  // ---------------------------------------------------------------------
  // The state changes, as functions of the list before the call
  // ---------------------------------------------------------------------

  /**
   * add_item: an id already held gets the new quantity added to the first
   * entry with that id; otherwise the item is appended when fewer than
   * MaxItems entries are held, and refused when the list is full.
   */
  function Added(items: seq<Item>, item: Item): (bool, seq<Item>) {
    match IndexOf(items, item.id)
    case Some(i) => (true, items[i := items[i].(quantity := items[i].quantity + item.quantity)])
    case None => if |items| < MaxItems then (true, items + [item]) else (false, items)
  }

  /**
   * remove_item: the first entry with the id loses `quantity` units when it
   * holds at least that many, and is deleted when it is left with none; an
   * absent id or too few units is refused.
   */
  function Removed(items: seq<Item>, id: string, quantity: int): (bool, seq<Item>) {
    match IndexOf(items, id)
    case None => (false, items)
    case Some(i) =>
      if items[i].quantity < quantity then (false, items)
      else if items[i].quantity - quantity <= 0 then (true, items[..i] + items[i + 1..])
      else (true, items[i := items[i].(quantity := items[i].quantity - quantity)])
  }

  /** The total quantity held under id (a sum over all entries). */
  function QuantityOf(items: seq<Item>, id: string): int {
    if |items| == 0 then 0
    else QuantityOf(items[..|items| - 1], id) + (if items[|items| - 1].id == id then items[|items| - 1].quantity else 0)
  }

  // ---------------------------------------------------------------------
  // Properties of the state changes
  // ---------------------------------------------------------------------

  /** add_item keeps the ids unique and the entry count within MaxItems. */
  lemma AddedKeepsWellFormed(items: seq<Item>, item: Item)
    requires WellFormed(items)
    ensures WellFormed(Added(items, item).1)
  {
  }

  /**
   * add_item never fails for an id already held and then adds no entry;
   * for a new id it fails exactly when the list is full, and a failure
   * changes nothing.
   */
  lemma AddedStacksOrAppends(items: seq<Item>, item: Item)
    ensures var (ok, after) := Added(items, item);
      (IndexOf(items, item.id).Some? ==> ok && |after| == |items|) &&
      (IndexOf(items, item.id).None? ==> (ok <==> |items| < MaxItems) && |after| == |items| + (if ok then 1 else 0)) &&
      (!ok ==> after == items)
  {
  }

  /** add_item raises the quantity held under the id by the item's quantity, or fails and changes nothing. */
  lemma AddedQuantity(items: seq<Item>, item: Item, id: string)
    ensures var (ok, after) := Added(items, item);
      QuantityOf(after, id) == QuantityOf(items, id) + (if ok && id == item.id then item.quantity else 0)
  {
    match IndexOf(items, item.id)
    case Some(i) =>
      QuantityOfUpdate(items, i, items[i].(quantity := items[i].quantity + item.quantity), id);
    case None =>
      if |items| < MaxItems {
        assert (items + [item])[..|items|] == items;
      }
  }

  /**
   * add_item raises the total value by the added units priced at the rarity
   * of the entry they join (the existing entry's, when the id is already
   * held), and a failure leaves it unchanged.
   */
  lemma AddedTotalValue(items: seq<Item>, item: Item)
    ensures !Added(items, item).0 ==> TotalValue(Added(items, item).1) == TotalValue(items)
    ensures IndexOf(items, item.id).Some? ==>
      TotalValue(Added(items, item).1) == TotalValue(items) + BaseValue(items[IndexOf(items, item.id).value].rarity) * item.quantity
    ensures IndexOf(items, item.id).None? && Added(items, item).0 ==>
      TotalValue(Added(items, item).1) == TotalValue(items) + Value(item)
  {
    match IndexOf(items, item.id)
    case Some(i) =>
      var e := items[i].(quantity := items[i].quantity + item.quantity);
      TotalValueUpdate(items, i, e);
      ValueSplits(items[i].rarity, items[i].quantity, item.quantity);
    case None =>
      if |items| < MaxItems {
        assert (items + [item])[..|items|] == items;
      }
  }

  /** b * (p + q) == b * p + b * q, for a rarity's base value. */
  lemma ValueSplits(r: ItemRarity, p: int, q: int)
    ensures BaseValue(r) * (p + q) == BaseValue(r) * p + BaseValue(r) * q
  {
  }

  /** remove_item keeps the ids unique and never adds an entry. */
  lemma RemovedKeepsWellFormed(items: seq<Item>, id: string, quantity: int)
    requires WellFormed(items)
    ensures WellFormed(Removed(items, id, quantity).1)
    ensures |Removed(items, id, quantity).1| <= |items|
  {
    match IndexOf(items, id)
    case None =>
    case Some(i) =>
      var rest := items[..i] + items[i + 1..];
      assert forall k :: 0 <= k < |rest| ==> rest[k] == items[if k < i then k else k + 1];
  }

  /**
   * remove_item succeeds exactly when the first entry with the id holds at
   * least `quantity` units, and a failure changes nothing.
   */
  lemma RemovedSucceedsIffEnough(items: seq<Item>, id: string, quantity: int)
    ensures Removed(items, id, quantity).0 <==>
      IndexOf(items, id).Some? && items[IndexOf(items, id).value].quantity >= quantity
    ensures !Removed(items, id, quantity).0 ==> Removed(items, id, quantity).1 == items
  {
  }

  /** A successful remove_item lowers the quantity held under the id by exactly `quantity` and leaves other ids alone. */
  lemma RemovedQuantity(items: seq<Item>, id: string, quantity: int, other: string)
    requires Removed(items, id, quantity).0
    ensures QuantityOf(Removed(items, id, quantity).1, other) ==
      QuantityOf(items, other) - (if other == id then quantity else 0)
  {
    var i := IndexOf(items, id).value;
    if items[i].quantity - quantity <= 0 {
      QuantityOfDelete(items, i, other);
    } else {
      QuantityOfUpdate(items, i, items[i].(quantity := items[i].quantity - quantity), other);
    }
  }

  /** A successful remove_item lowers the total value by the removed units at the entry's rarity. */
  lemma RemovedTotalValue(items: seq<Item>, id: string, quantity: int)
    requires Removed(items, id, quantity).0
    ensures TotalValue(Removed(items, id, quantity).1) ==
      TotalValue(items) - BaseValue(items[IndexOf(items, id).value].rarity) * quantity
  {
    var i := IndexOf(items, id).value;
    var e := items[i];
    var b := BaseValue(e.rarity);
    assert Value(e) == b * e.quantity;
    if e.quantity - quantity <= 0 {
      assert e.quantity == quantity;
      assert Removed(items, id, quantity).1 == items[..i] + items[i + 1..];
      TotalValueDelete(items, i);
    } else {
      var e' := e.(quantity := e.quantity - quantity);
      assert Removed(items, id, quantity).1 == items[i := e'];
      TotalValueUpdate(items, i, e');
      ValueSplits(e.rarity, e.quantity - quantity, quantity);
      assert e.quantity - quantity + quantity == e.quantity;
      assert Value(e') == b * (e.quantity - quantity);
    }
  }

  /** Adding units of an id and then removing as many gives the quantities back. */
  lemma AddThenRemove(items: seq<Item>, item: Item, id: string)
    requires Added(items, item).0
    requires Removed(Added(items, item).1, item.id, item.quantity).0
    ensures QuantityOf(Removed(Added(items, item).1, item.id, item.quantity).1, id) == QuantityOf(items, id)
  {
    AddedQuantity(items, item, id);
    RemovedQuantity(Added(items, item).1, item.id, item.quantity, id);
  }

  // ---------------------------------------------------------------------
  // Sums over a changed list
  // ---------------------------------------------------------------------

  lemma {:induction false} TotalValueUpdate(items: seq<Item>, i: nat, e: Item)
    requires i < |items|
    ensures TotalValue(items[i := e]) == TotalValue(items) - Value(items[i]) + Value(e)
    decreases |items|
  {
    var n := |items| - 1;
    if i < n {
      assert items[i := e][..n] == items[..n][i := e];
      TotalValueUpdate(items[..n], i, e);
    } else {
      assert items[i := e][..n] == items[..n];
    }
  }

  lemma {:induction false} TotalValueDelete(items: seq<Item>, i: nat)
    requires i < |items|
    ensures TotalValue(items[..i] + items[i + 1..]) == TotalValue(items) - Value(items[i])
    decreases |items|
  {
    var n := |items| - 1;
    var rest := items[..i] + items[i + 1..];
    if i < n {
      assert rest[..|rest| - 1] == items[..n][..i] + items[..n][i + 1..];
      assert rest[|rest| - 1] == items[n];
      TotalValueDelete(items[..n], i);
    } else {
      assert rest == items[..n];
    }
  }

  lemma {:induction false} QuantityOfUpdate(items: seq<Item>, i: nat, e: Item, id: string)
    requires i < |items|
    ensures QuantityOf(items[i := e], id) ==
      QuantityOf(items, id) - (if items[i].id == id then items[i].quantity else 0) + (if e.id == id then e.quantity else 0)
    decreases |items|
  {
    var n := |items| - 1;
    if i < n {
      assert items[i := e][..n] == items[..n][i := e];
      QuantityOfUpdate(items[..n], i, e, id);
    } else {
      assert items[i := e][..n] == items[..n];
    }
  }

  lemma {:induction false} QuantityOfDelete(items: seq<Item>, i: nat, id: string)
    requires i < |items|
    ensures QuantityOf(items[..i] + items[i + 1..], id) ==
      QuantityOf(items, id) - (if items[i].id == id then items[i].quantity else 0)
    decreases |items|
  {
    var n := |items| - 1;
    var rest := items[..i] + items[i + 1..];
    if i < n {
      assert rest[..|rest| - 1] == items[..n][..i] + items[..n][i + 1..];
      assert rest[|rest| - 1] == items[n];
      QuantityOfDelete(items[..n], i, id);
    } else {
      assert rest == items[..n];
    }
  }

  // ---------------------------------------------------------------------
  // create_item
  // ---------------------------------------------------------------------

  /** PREDEFINED_ITEMS, each with quantity 1. */
  const Predefined: map<string, Item> := map[
    "health_potion_small" := Item("health_potion_small", Potion, Common, 1, true, 20),
    "health_potion_medium" := Item("health_potion_medium", Potion, Uncommon, 1, true, 40),
    "health_potion_large" := Item("health_potion_large", Potion, Rare, 1, true, 70),
    "energy_potion" := Item("energy_potion", Potion, Uncommon, 1, true, 1),
    "lucky_coin" := Item("lucky_coin", Artifact, Uncommon, 1, false, 5),
    "merchants_badge" := Item("merchants_badge", Artifact, Rare, 1, false, 10),
    "power_ring" := Item("power_ring", Artifact, Rare, 1, false, 15),
    "vitality_amulet" := Item("vitality_amulet", Artifact, Uncommon, 1, false, 15),
    "energy_crystal" := Item("energy_crystal", Artifact, Epic, 1, false, 1),
    "golden_scarab" := Item("golden_scarab", Artifact, Epic, 1, false, 50),
    "iron_ore" := Item("iron_ore", Material, Common, 1, false, 0),
    "gem_fragment" := Item("gem_fragment", Material, Rare, 1, false, 0),
    "mystic_essence" := Item("mystic_essence", Material, Legendary, 1, false, 0)
  ]

  /** create_item: a copy of the predefined item with the requested quantity, or None for an unknown id. */
  function CreateItem(id: string, quantity: int): (r: Option<Item>)
    ensures r.None? <==> id !in Predefined
    ensures r.Some? ==> r.value.id == id && r.value.quantity == quantity
    ensures r.Some? ==> r.value == Predefined[id].(quantity := quantity)
  {
    if id in Predefined then Some(Predefined[id].(quantity := quantity)) else None
  }

  /** Every predefined item is filed under its own id, and only potions are consumable. */
  lemma PredefinedConsistent(id: string)
    requires id in Predefined
    ensures Predefined[id].id == id
    ensures Predefined[id].consumable <==> Predefined[id].itemType == Potion
  {
  }

  // ---------------------------------------------------------------------
  // PlayerInventory
  // ---------------------------------------------------------------------

  class PlayerInventory {
    var items: seq<Item>

    /** A new inventory the starting items were added to: two small health potions and a lucky coin. */
    constructor()
      ensures items == [Item("health_potion_small", Potion, Common, 2, true, 20),
                        Item("lucky_coin", Artifact, Uncommon, 1, false, 5)]
      ensures WellFormed(items)
    {
      items := [];
      new;
      var ok := AddItem(Item("health_potion_small", Potion, Common, 2, true, 20));
      ok := AddItem(Item("lucky_coin", Artifact, Uncommon, 1, false, 5));
    }

    /** add_item, scanning the list for the id before appending. */
    method AddItem(item: Item) returns (ok: bool)
      modifies this
      ensures (ok, items) == Added(old(items), item)
    {
      var i := 0;
      while i < |items|
        invariant 0 <= i <= |items| && items == old(items)
        invariant forall j :: 0 <= j < i ==> items[j].id != item.id
      {
        if items[i].id == item.id {
          items := items[i := items[i].(quantity := items[i].quantity + item.quantity)];
          return true;
        }
        i := i + 1;
      }
      if |items| < MaxItems {
        items := items + [item];
        return true;
      }
      return false;
    }

    /** remove_item, scanning for the first entry with the id. */
    method RemoveItem(id: string, quantity: int) returns (ok: bool)
      modifies this
      ensures (ok, items) == Removed(old(items), id, quantity)
    {
      var i := 0;
      while i < |items|
        invariant 0 <= i <= |items| && items == old(items)
        invariant forall j :: 0 <= j < i ==> items[j].id != id
      {
        if items[i].id == id {
          if items[i].quantity >= quantity {
            var left := items[i].quantity - quantity;
            if left <= 0 {
              items := items[..i] + items[i + 1..];
            } else {
              items := items[i := items[i].(quantity := left)];
            }
            return true;
          } else {
            return false;
          }
        }
        i := i + 1;
      }
      return false;
    }

    /** has_item: some entry has the id and at least `quantity` units. */
    method HasItem(id: string, quantity: int) returns (r: bool)
      ensures r <==> exists j :: 0 <= j < |items| && items[j].id == id && items[j].quantity >= quantity
    {
      for i := 0 to |items|
        invariant forall j :: 0 <= j < i ==> !(items[j].id == id && items[j].quantity >= quantity)
      {
        if items[i].id == id && items[i].quantity >= quantity {
          return true;
        }
      }
      return false;
    }

    /** get_item: the first entry with the id, or None. */
    method GetItem(id: string) returns (r: Option<Item>)
      ensures r.Some? <==> exists j :: 0 <= j < |items| && items[j].id == id
      ensures r.Some? ==> IndexOf(items, id).Some? && r.value == items[IndexOf(items, id).value]
    {
      for i := 0 to |items|
        invariant forall j :: 0 <= j < i ==> items[j].id != id
      {
        if items[i].id == id {
          return Some(items[i]);
        }
      }
      return None;
    }

    /**
     * use_consumable: a consumable entry loses one unit, and the item is
     * returned as it is after the removal (the source hands back the entry
     * object it just decremented); anything else gives None and changes nothing.
     */
    method UseConsumable(id: string) returns (r: Option<Item>)
      modifies this
      ensures var ix := IndexOf(old(items), id);
        var used := ix.Some? && old(items)[ix.value].consumable && Removed(old(items), id, 1).0;
        items == (if used then Removed(old(items), id, 1).1 else old(items)) &&
        r == (if used then Some(old(items)[ix.value].(quantity := old(items)[ix.value].quantity - 1)) else None)
    {
      var item := GetItem(id);
      if item.Some? && item.value.consumable {
        var ok := RemoveItem(id, 1);
        if ok {
          return Some(item.value.(quantity := item.value.quantity - 1));
        }
      }
      return None;
    }
  }

  /** With unique ids, has_item for an id is a question about its one entry. */
  lemma HasItemIsFirstEntry(items: seq<Item>, id: string, quantity: int)
    requires UniqueIds(items)
    ensures (exists j :: 0 <= j < |items| && items[j].id == id && items[j].quantity >= quantity) <==>
      IndexOf(items, id).Some? && items[IndexOf(items, id).value].quantity >= quantity
  {
  }

  /** use_consumable takes one unit of a consumable held under the id, and nothing of anything else. */
  lemma UseConsumableTakesOne(items: seq<Item>, id: string, other: string)
    requires IndexOf(items, id).Some? && items[IndexOf(items, id).value].consumable
    requires Removed(items, id, 1).0
    ensures QuantityOf(Removed(items, id, 1).1, other) == QuantityOf(items, other) - (if other == id then 1 else 0)
  {
    RemovedQuantity(items, id, 1, other);
  }
}
