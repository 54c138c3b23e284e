/**
 * The server's items (server/models/item.js and server/models/items/), its slot inventory
 * (server/models/Inventory.js) and its equipment table (server/models/Equiped.js).
 *
 * Items are values here: a slot holds a copy, and the `quant` an operation changes is the copy's.
 */
module ServerItems {
  import opened Common
  import ServerStatus

  /**
   * A server item: `item_type` is "consumable", "equipment" or "Weapon" for the three subclasses;
   * `slot` and `bonuses` belong to an equipment item (its `stats` object, entry by entry in key
   * order), `effect` to a consumable (`{stat, value}`).
   */
  datatype JsItem = JsItem(id: int, itemType: string, quant: int, slot: Option<string>,
                           bonuses: seq<(string, real)>, effect: Option<(string, real)>)

  /** `new Item(...)`: every item starts with `quant` 1. */
  function NewItem(id: int, itemType: string, slot: Option<string>, bonuses: seq<(string, real)>,
                   effect: Option<(string, real)>): (it: JsItem)
    ensures it.quant == 1 && it.id == id && it.itemType == itemType
  {
    JsItem(id, itemType, 1, slot, bonuses, effect)
  }

  /** `this.slot` is truthy: present and not the empty string. */
  predicate HasSlot(it: JsItem) {
    it.slot.Some? && it.slot.value != ""
  }

  // ---------------------------------------------------------------------------------------------
  // Stat bonuses (EquipmentItem.js)

  /**
   * The stat table after adding `sign * value` for every bonus entry, in order, whose stat the
   * table has; entries for other stats are skipped.
   */
  function AddBonuses(values: map<string, real>, bonuses: seq<(string, real)>, sign: real): (m: map<string, real>)
    ensures m.Keys == values.Keys
  {
    if |bonuses| == 0 then values
    else
      var before := AddBonuses(values, bonuses[..|bonuses| - 1], sign);
      AddOne(before, bonuses[|bonuses| - 1], sign)
  }

  /** One bonus entry applied: the stat moves by `sign * value` when the table has it. */
  function AddOne(values: map<string, real>, bonus: (string, real), sign: real): (m: map<string, real>)
    ensures m.Keys == values.Keys
    ensures forall k :: k in values ==> m[k] == values[k] + (if k == bonus.0 then sign * bonus.1 else 0.0)
  {
    if bonus.0 in values then values[bonus.0 := values[bonus.0] + sign * bonus.1] else values
  }

  /** The sum of the bonus values listed for one stat. */
  function KeySum(bonuses: seq<(string, real)>, stat: string): real {
    if |bonuses| == 0 then 0.0
    else KeySum(bonuses[..|bonuses| - 1], stat) + (if bonuses[|bonuses| - 1].0 == stat then bonuses[|bonuses| - 1].1 else 0.0)
  }

  /** The sum of `sign` times each bonus value listed for one stat. */
  function SignedSum(bonuses: seq<(string, real)>, stat: string, sign: real): real {
    if |bonuses| == 0 then 0.0
    else SignedSum(bonuses[..|bonuses| - 1], stat, sign) + (if bonuses[|bonuses| - 1].0 == stat then sign * bonuses[|bonuses| - 1].1 else 0.0)
  }

  /** Applying bonuses moves a stat the table has by the signed sum of its entries. */
  lemma {:induction false} AddBonusesSigned(values: map<string, real>, bonuses: seq<(string, real)>, sign: real, stat: string)
    requires stat in values
    ensures AddBonuses(values, bonuses, sign)[stat] == values[stat] + SignedSum(bonuses, stat, sign)
  {
    if |bonuses| > 0 {
      AddBonusesSigned(values, bonuses[..|bonuses| - 1], sign, stat);
    }
  }

  /** The signed sum is `sign` times the bonus total. */
  lemma {:induction false} SignedSumScales(bonuses: seq<(string, real)>, stat: string, sign: real)
    ensures SignedSum(bonuses, stat, sign) == sign * KeySum(bonuses, stat)
  {
    if |bonuses| > 0 {
      var front := bonuses[..|bonuses| - 1];
      var last := bonuses[|bonuses| - 1];
      SignedSumScales(front, stat, sign);
      if last.0 == stat {
        Distribute(sign, KeySum(front, stat), last.1);
      }
    } else {
      assert sign * 0.0 == 0.0;
    }
  }

  /** Applying bonuses moves each stat the table has by `sign` times that stat's bonus total. */
  lemma AddBonusesAt(values: map<string, real>, bonuses: seq<(string, real)>, sign: real, stat: string)
    requires stat in values
    ensures AddBonuses(values, bonuses, sign)[stat] == values[stat] + sign * KeySum(bonuses, stat)
  {
    AddBonusesSigned(values, bonuses, sign, stat);
    SignedSumScales(bonuses, stat, sign);
  }

  /** Multiplication distributes over a sum of two bonus totals. */
  lemma Distribute(a: real, b: real, c: real)
    ensures a * (b + c) == a * b + a * c
  {
  }

  /** Adding a set of bonuses and then subtracting the same set restores the stat table. */
  lemma BonusRoundTrip(values: map<string, real>, bonuses: seq<(string, real)>)
    ensures AddBonuses(AddBonuses(values, bonuses, 1.0), bonuses, -1.0) == values
  {
    var up := AddBonuses(values, bonuses, 1.0);
    var back := AddBonuses(up, bonuses, -1.0);
    forall stat | stat in values
      ensures back[stat] == values[stat]
    {
      AddBonusesAt(values, bonuses, 1.0, stat);
      AddBonusesAt(up, bonuses, -1.0, stat);
    }
  }

  /** The item in an equipment table's slot: `null` and a missing key both read as none. */
  function Occupant(equipped: map<string, Option<JsItem>>, key: string): (o: Option<JsItem>)
    ensures key !in equipped ==> o == None
  {
    if key in equipped then equipped[key] else None
  }

  /** The bonuses an `equip` first takes back: those of the slot's current occupant, if any. */
  function ReplacedBonuses(equipped: map<string, Option<JsItem>>, key: string): seq<(string, real)> {
    match Occupant(equipped, key)
    case None => []
    case Some(c) => c.bonuses
  }

  /**
   * The player object the item classes work on: its `stats` table and its `equipped` object,
   * keyed by slot name.
   */
  class JsHolder {
    const stats: ServerStatus.JsStatus
    var equipped: map<string, Option<JsItem>>

    constructor (stats: ServerStatus.JsStatus)
      ensures this.stats == stats && equipped == map[]
    {
      this.stats := stats;
      equipped := map[];
    }
  }

  /** One pass over a bonus list, as the `for ... of Object.entries(...)` loops make it. */
  method ApplyBonuses(status: ServerStatus.JsStatus, bonuses: seq<(string, real)>, sign: real)
    modifies status`values
    ensures status.values == AddBonuses(old(status.values), bonuses, sign)
  {
    var i := 0;
    while i < |bonuses|
      invariant 0 <= i <= |bonuses|
      invariant status.values == AddBonuses(old(status.values), bonuses[..i], sign)
    {
      assert bonuses[..i + 1][..i] == bonuses[..i];
      status.values := AddOne(status.values, bonuses[i], sign);
      i := i + 1;
    }
    assert bonuses[..i] == bonuses;
  }

  /**
   * `EquipmentItem.equip(player)`: false without a player or a slot; otherwise the current
   * occupant's bonuses are taken back, the item's own are added and the item takes the slot. The
   * replaced item is not handed back.
   */
  method EquipItemOn(item: JsItem, player: JsHolder?) returns (ok: bool)
    requires player != null ==> player.stats.Valid()
    modifies if player == null then {} else {player, player.stats}
    ensures ok <==> player != null && HasSlot(item)
    ensures ok ==> (player.stats.values ==
      AddBonuses(AddBonuses(old(player.stats.values), ReplacedBonuses(old(player.equipped), item.slot.value), -1.0), item.bonuses, 1.0))
    ensures ok ==> player.equipped == old(player.equipped)[item.slot.value := Some(item)]
    ensures player != null ==> player.stats.Valid() && player.stats.activeEffects == old(player.stats.activeEffects)
    ensures player != null && !ok ==> player.stats.values == old(player.stats.values) && player.equipped == old(player.equipped)
  {
    if player == null || !HasSlot(item) {
      return false;
    }
    var key := item.slot.value;
    ApplyBonuses(player.stats, ReplacedBonuses(player.equipped, key), -1.0);
    ApplyBonuses(player.stats, item.bonuses, 1.0);
    player.equipped := player.equipped[key := Some(item)];
    ok := true;
  }

  /** `EquipmentItem.unequip(player)`: false without a player or a slot; otherwise its bonuses are taken back and its slot nulled. */
  method UnequipItemFrom(item: JsItem, player: JsHolder?) returns (ok: bool)
    requires player != null ==> player.stats.Valid()
    modifies if player == null then {} else {player, player.stats}
    ensures ok <==> player != null && HasSlot(item)
    ensures ok ==> player.stats.values == AddBonuses(old(player.stats.values), item.bonuses, -1.0)
    ensures ok ==> player.equipped == old(player.equipped)[item.slot.value := None]
    ensures player != null ==> player.stats.Valid() && player.stats.activeEffects == old(player.stats.activeEffects)
    ensures player != null && !ok ==> player.stats.values == old(player.stats.values) && player.equipped == old(player.equipped)
  {
    if player == null || !HasSlot(item) {
      return false;
    }
    ApplyBonuses(player.stats, item.bonuses, -1.0);
    player.equipped := player.equipped[item.slot.value := None];
    ok := true;
  }

  /**
   * Equipping an item into an empty slot and then unequipping it leaves every stat as it was and
   * the slot null: the composition of the two methods' postconditions.
   */
  lemma EquipUnequipRoundTrip(values: map<string, real>, equipped: map<string, Option<JsItem>>, item: JsItem)
    requires HasSlot(item) && Occupant(equipped, item.slot.value) == None
    ensures var key := item.slot.value;
      AddBonuses(AddBonuses(AddBonuses(values, ReplacedBonuses(equipped, key), -1.0), item.bonuses, 1.0), item.bonuses, -1.0) == values
    ensures var key := item.slot.value;
      equipped[key := Some(item)][key := None] == equipped[key := None]
  {
    BonusRoundTrip(values, item.bonuses);
  }

  // ---------------------------------------------------------------------------------------------
  // Consumption (ConsumableItem.js)

  /** ASCII upper case, as `toUpperCase` gives it for the letters a-z. */
  function Upper(c: char): char {
    if 'a' <= c <= 'z' then (c as int - 32) as char else c
  }

  /** The name of a stat's ceiling: "max" then the stat with its first character upper-cased. */
  function MaxKey(stat: string): (k: string)
    ensures |k| == 3 + |stat| && k != stat
    ensures stat == "hp" ==> k == "maxHp"
    ensures stat == "mana" ==> k == "maxMana"
    ensures stat == "stamina" ==> k == "maxStamina"
  {
    if |stat| == 0 then "max" else "max" + [Upper(stat[0])] + stat[1..]
  }

  /** The stat table after drinking `value` of `stat`: added, then capped by the ceiling when the table has one. */
  function Consumed(values: map<string, real>, stat: string, value: real): (m: map<string, real>)
    requires stat in values
    ensures m.Keys == values.Keys
    ensures forall k :: k in values && k != stat ==> m[k] == values[k]
  {
    var raised := values[stat] + value;
    if MaxKey(stat) in values then
      values[stat := if raised <= values[MaxKey(stat)] then raised else values[MaxKey(stat)]]
    else values[stat := raised]
  }

  /**
   * What consumption promises: the stat never exceeds its ceiling when there is one (and otherwise
   * gets the whole value), never gets more than the value, and is not clamped from below.
   */
  lemma ConsumedBounds(values: map<string, real>, stat: string, value: real)
    requires stat in values
    ensures MaxKey(stat) in values ==> Consumed(values, stat, value)[stat] <= values[MaxKey(stat)]
    ensures MaxKey(stat) !in values ==> Consumed(values, stat, value)[stat] == values[stat] + value
    ensures Consumed(values, stat, value)[stat] <= values[stat] + value
    ensures (MaxKey(stat) !in values || values[stat] <= values[MaxKey(stat)]) && value <= 0.0 ==>
      Consumed(values, stat, value)[stat] == values[stat] + value
  {
  }

  /**
   * `ConsumableItem.use(player)`: false without a player or an effect, or when the table lacks the
   * effect's stat (nothing changes); otherwise the stat drinks the value and the call is true.
   */
  method UseOn(item: JsItem, player: JsHolder?) returns (ok: bool)
    modifies if player == null then {} else {player.stats}
    ensures ok <==> player != null && item.effect.Some? && item.effect.value.0 in old(player.stats.values)
    ensures ok ==> player.stats.values == Consumed(old(player.stats.values), item.effect.value.0, item.effect.value.1)
    ensures player != null ==> player.stats.activeEffects == old(player.stats.activeEffects)
    ensures player != null && !ok ==> player.stats.values == old(player.stats.values)
  {
    if player == null || item.effect.None? {
      return false;
    }
    var (stat, value) := item.effect.value;
    var st := player.stats;
    if stat in st.values {
      st.values := st.values[stat := st.values[stat] + value];
      var top := MaxKey(stat);
      if top in st.values {
        st.values := st.values[stat := if st.values[stat] <= st.values[top] then st.values[stat] else st.values[top]];
      }
      return true;
    }
    ok := false;
  }

  // ---------------------------------------------------------------------------------------------
  // The slot inventory (Inventory.js)

  /** A slot holding an item with that id. */
  predicate HoldsId(o: Option<JsItem>, id: int) {
    o.Some? && o.value.id == id
  }

  /** The first slot from `k` on holding an item with that id, or the length. */
  function FirstHolding(s: seq<Option<JsItem>>, id: int, k: nat): (r: nat)
    requires k <= |s|
    ensures k <= r <= |s|
    ensures r < |s| ==> HoldsId(s[r], id)
    ensures forall j :: k <= j < r ==> !HoldsId(s[j], id)
    decreases |s| - k
  {
    if k == |s| then |s| else if HoldsId(s[k], id) then k else FirstHolding(s, id, k + 1)
  }

  /** The first empty slot from `k` on, or the length. */
  function FirstFree(s: seq<Option<JsItem>>, k: nat): (r: nat)
    requires k <= |s|
    ensures k <= r <= |s|
    ensures r < |s| ==> s[r] == None
    ensures forall j :: k <= j < r ==> s[j].Some?
    decreases |s| - k
  {
    if k == |s| then |s| else if s[k].None? then k else FirstFree(s, k + 1)
  }

  /** Whether `get` stacks the item: a consumable with a held item of the same id. */
  predicate Stacks(s: seq<Option<JsItem>>, item: JsItem) {
    item.itemType == "consumable" && FirstHolding(s, item.id, 0) < |s|
  }

  /** The slot `get` writes: the stack's slot, else the first empty one; the length when neither exists. */
  function GetTarget(s: seq<Option<JsItem>>, item: JsItem): (t: nat)
    ensures t <= |s|
  {
    if Stacks(s, item) then FirstHolding(s, item.id, 0) else FirstFree(s, 0)
  }

  /**
   * The slots after `get(item, quant)`: a consumable stacks onto the first held item with its id
   * by adding `quant`; otherwise the item goes, with `quant` as its count, into the first empty
   * slot; a full inventory is unchanged. Only the target slot changes.
   */
  function Got(s: seq<Option<JsItem>>, item: JsItem, quant: int): (r: seq<Option<JsItem>>)
    ensures |r| == |s|
    ensures forall j :: 0 <= j < |s| && j != GetTarget(s, item) ==> r[j] == s[j]
    ensures GetTarget(s, item) == |s| ==> r == s
    ensures GetTarget(s, item) < |s| ==> HoldsId(r[GetTarget(s, item)], item.id)
  {
    var t := GetTarget(s, item);
    if t == |s| then s
    else if Stacks(s, item) then s[t := Some(s[t].value.(quant := s[t].value.quant + quant))]
    else s[t := Some(item.(quant := quant))]
  }

  /**
   * The slots and the result of `drop(index, quant)`: a held item loses `quant` and is returned
   * with its new count, and the slot empties when that count is at most 0; an empty or
   * out-of-range slot returns none.
   */
  function Dropped(s: seq<Option<JsItem>>, index: int, quant: int): (r: (seq<Option<JsItem>>, Option<JsItem>))
    ensures |r.0| == |s|
    ensures r.1.None? <==> !(0 <= index < |s| && s[index].Some?)
    ensures r.1.None? ==> r.0 == s
    ensures r.1.Some? ==> r.1.value == s[index].value.(quant := s[index].value.quant - quant)
    ensures r.1.Some? ==> r.0 == s[index := if r.1.value.quant <= 0 then None else r.1]
  {
    if 0 <= index < |s| && s[index].Some? then
      var it := s[index].value.(quant := s[index].value.quant - quant);
      (if it.quant <= 0 then s[index := None] else s[index := Some(it)], Some(it))
    else (s, None)
  }

  /** Placing an item in an empty slot and dropping the same count from that slot empties it again. */
  lemma GetThenDropPlaced(s: seq<Option<JsItem>>, item: JsItem, quant: int)
    requires !Stacks(s, item) && FirstFree(s, 0) < |s|
    ensures Dropped(Got(s, item, quant), FirstFree(s, 0), quant) == (s, Some(item.(quant := 0)))
  {
    var f := FirstFree(s, 0);
    assert Got(s, item, quant) == s[f := Some(item.(quant := quant))];
    assert item.(quant := quant).(quant := quant - quant) == item.(quant := 0);
    assert s[f := Some(item.(quant := quant))][f := None] == s[f := None] == s;
  }

  /** Stacking a count onto a held item and dropping the same count from it restores the slots. */
  lemma GetThenDropStacked(s: seq<Option<JsItem>>, item: JsItem, quant: int)
    requires Stacks(s, item)
    requires s[FirstHolding(s, item.id, 0)].value.quant > 0
    ensures Dropped(Got(s, item, quant), FirstHolding(s, item.id, 0), quant).0 == s
  {
    var k := FirstHolding(s, item.id, 0);
    var held := s[k].value;
    assert Got(s, item, quant)[k] == Some(held.(quant := held.quant + quant));
    assert held.(quant := held.quant + quant).(quant := held.quant + quant - quant) == held;
    assert s[k := Some(held)] == s;
  }

  /** `loadItems` data: an array of item entries, or an object whose `inv` field is one (or missing). */
  datatype ItemsData = AsArray(entries: seq<Option<JsItem>>) | AsObject(inv: Option<seq<Option<JsItem>>>)

  /** The entries `loadItems` walks, if it finds an array. */
  function LoadEntries(data: ItemsData): Option<seq<Option<JsItem>>> {
    match data
    case AsArray(es) => Some(es)
    case AsObject(inv) => inv
  }

  /** The count `loadItems` passes to `get`: the entry's `quant`, or 1 when that is 0 or missing. */
  function LoadCount(q: int): (c: int)
    ensures c != 0
  {
    if q == 0 then 1 else q
  }

  /** The slots after `get` of every present entry in order. */
  function LoadAll(s: seq<Option<JsItem>>, entries: seq<Option<JsItem>>): (r: seq<Option<JsItem>>)
    ensures |r| == |s|
  {
    if |entries| == 0 then s
    else
      var before := LoadAll(s, entries[..|entries| - 1]);
      match entries[|entries| - 1]
      case None => before
      case Some(e) => Got(before, e, LoadCount(e.quant))
  }

  /** Loading only consumables that are already held changes no slot's item, only counts. */
  lemma {:induction false} LoadHeldConsumables(s: seq<Option<JsItem>>, entries: seq<Option<JsItem>>)
    requires forall j :: 0 <= j < |entries| && entries[j].Some? ==>
      entries[j].value.itemType == "consumable" && FirstHolding(s, entries[j].value.id, 0) < |s|
    ensures forall i :: 0 <= i < |s| ==> (LoadAll(s, entries)[i].None? <==> s[i].None?)
    ensures forall i :: 0 <= i < |s| && s[i].Some? ==> LoadAll(s, entries)[i].value.id == s[i].value.id
  {
    if |entries| > 0 {
      var front := entries[..|entries| - 1];
      LoadHeldConsumables(s, front);
      var before := LoadAll(s, front);
      if entries[|entries| - 1].Some? {
        var e := entries[|entries| - 1].value;
        SameIdsSameHolding(s, before, e.id, 0);
      }
    }
  }

  /** Two slot lists with the same ids in the same places find the same first holder. */
  lemma {:induction false} SameIdsSameHolding(s: seq<Option<JsItem>>, t: seq<Option<JsItem>>, id: int, k: nat)
    requires |s| == |t| && k <= |s|
    requires forall i :: 0 <= i < |s| ==> (t[i].None? <==> s[i].None?)
    requires forall i :: 0 <= i < |s| && s[i].Some? ==> t[i].value.id == s[i].value.id
    ensures FirstHolding(t, id, k) == FirstHolding(s, id, k)
    decreases |s| - k
  {
    if k < |s| {
      SameIdsSameHolding(s, t, id, k + 1);
    }
  }

  /** What the inventory operations that report an outcome answer. */
  datatype Reply =
    | NotConsumable | Used | UseFailed
    | NotEquippable | Equipped | EquipFailed
    | NothingEquipped | InventoryFull | Unequipped | UnequipFailed

  /** The `success` field of a reply. */
  predicate Succeeded(r: Reply) {
    r == Used || r == Equipped || r == Unequipped
  }

  /** The item at a slot index, none for an empty or out-of-range slot. */
  function At(s: seq<Option<JsItem>>, index: int): (o: Option<JsItem>)
    ensures o.Some? ==> 0 <= index < |s| && s[index] == o
  {
    if 0 <= index < |s| then s[index] else None
  }

  /** `new Inventory(size)`: a fixed array of slots. */
  class JsInventory {
    var itens: seq<Option<JsItem>>

    /** Every slot starts empty. */
    constructor (size: nat)
      ensures |itens| == size && forall i :: 0 <= i < size ==> itens[i] == None
    {
      itens := seq(size, _ => None);
    }

    /** `get(item, quant)`: the stacking scan, then the first-empty-slot scan; a full inventory changes nothing. */
    method Get(item: JsItem, quant: int)
      modifies this
      ensures itens == Got(old(itens), item, quant)
    {
      if item.itemType == "consumable" {
        var i := 0;
        while i < |itens|
          invariant 0 <= i <= |itens| && itens == old(itens)
          invariant FirstHolding(itens, item.id, 0) == FirstHolding(itens, item.id, i)
        {
          if itens[i].Some? && itens[i].value.id == item.id {
            itens := itens[i := Some(itens[i].value.(quant := itens[i].value.quant + quant))];
            return;
          }
          i := i + 1;
        }
      }
      var i := 0;
      while i < |itens|
        invariant 0 <= i <= |itens| && itens == old(itens)
        invariant FirstFree(itens, 0) == FirstFree(itens, i)
      {
        if itens[i] == None {
          itens := itens[i := Some(item.(quant := quant))];
          return;
        }
        i := i + 1;
      }
    }

    /** `drop(index, quant)`: see `Dropped`. */
    method Drop(index: int, quant: int) returns (dropped: Option<JsItem>)
      modifies this
      ensures (itens, dropped) == Dropped(old(itens), index, quant)
    {
      if 0 <= index < |itens| && itens[index].Some? {
        var it := itens[index].value.(quant := itens[index].value.quant - quant);
        if it.quant <= 0 {
          itens := itens[index := None];
        } else {
          itens := itens[index := Some(it)];
        }
        return Some(it);
      }
      return None;
    }

    /**
     * `useItem(player, index)`: refused for an empty slot or a non-consumable; a successful use
     * drops one unit; a failed use changes nothing.
     */
    method UseItem(player: JsHolder?, index: int) returns (r: Reply)
      modifies this, if player == null then {} else {player.stats}
      ensures var it := At(old(itens), index);
        r == NotConsumable <==> it.None? || it.value.itemType != "consumable"
      ensures r == Used ==> itens == Dropped(old(itens), index, 1).0
      ensures r == Used <==>
        (At(old(itens), index).Some? && At(old(itens), index).value.itemType == "consumable" &&
         player != null && At(old(itens), index).value.effect.Some? &&
         At(old(itens), index).value.effect.value.0 in old(player.stats.values))
      ensures r == Used ==> (player != null && At(old(itens), index).Some? &&
        var it := At(old(itens), index).value;
        it.effect.Some? && it.effect.value.0 in old(player.stats.values) &&
        player.stats.values == Consumed(old(player.stats.values), it.effect.value.0, it.effect.value.1))
      ensures r != Used ==> itens == old(itens)
      ensures r != Used && player != null ==> player.stats.values == old(player.stats.values)
      ensures r in {NotConsumable, Used, UseFailed}
    {
      var it := At(itens, index);
      if it.None? || it.value.itemType != "consumable" {
        return NotConsumable;
      }
      var ok := UseOn(it.value, player);
      if ok {
        var _ := Drop(index, 1);
        return Used;
      }
      return UseFailed;
    }

    /**
     * `equipItem(player, index)`: refused unless the slot holds an "equipment" item; a successful
     * equip empties the inventory slot.
     */
    method EquipItem(player: JsHolder?, index: int) returns (r: Reply)
      requires player != null ==> player.stats.Valid()
      modifies this, if player == null then {} else {player, player.stats}
      ensures var it := At(old(itens), index);
        r == NotEquippable <==> it.None? || it.value.itemType != "equipment"
      ensures r == Equipped <==> r != NotEquippable && player != null && HasSlot(At(old(itens), index).value)
      ensures r == Equipped ==> itens == old(itens)[index := None]
      ensures r == Equipped ==> var it := At(old(itens), index).value;
        player.equipped == old(player.equipped)[it.slot.value := Some(it)]
      ensures r != Equipped ==> itens == old(itens)
      ensures r in {NotEquippable, Equipped, EquipFailed}
      ensures player != null ==> player.stats.Valid()
    {
      var it := At(itens, index);
      if it.None? || it.value.itemType != "equipment" {
        return NotEquippable;
      }
      var ok := EquipItemOn(it.value, player);
      if ok {
        itens := itens[index := None];
        return Equipped;
      }
      return EquipFailed;
    }

    /**
     * `unequipItem(player, slot)`: refused when the slot is empty or the inventory is full, with
     * nothing unequipped; otherwise the item unequips itself (from its own slot) and lands in the
     * first empty inventory slot.
     */
    method UnequipItem(player: JsHolder, slot: string) returns (r: Reply)
      requires player.stats.Valid()
      modifies this, player, player.stats
      ensures r == NothingEquipped <==> Occupant(old(player.equipped), slot) == None
      ensures r == InventoryFull <==> Occupant(old(player.equipped), slot).Some? && FirstFree(old(itens), 0) == |old(itens)|
      ensures r == Unequipped ==> var it := Occupant(old(player.equipped), slot).value;
        HasSlot(it) && itens == old(itens)[FirstFree(old(itens), 0) := Some(it)] &&
        player.equipped == old(player.equipped)[it.slot.value := None] &&
        player.stats.values == AddBonuses(old(player.stats.values), it.bonuses, -1.0)
      ensures r != Unequipped ==> itens == old(itens) && player.equipped == old(player.equipped)
      ensures r in {NothingEquipped, InventoryFull, Unequipped, UnequipFailed}
      ensures player.stats.Valid()
    {
      var current := Occupant(player.equipped, slot);
      if current.None? {
        return NothingEquipped;
      }
      var empty := FreeSlot();
      if empty == |itens| {
        return InventoryFull;
      }
      var ok := UnequipItemFrom(current.value, player);
      if ok {
        itens := itens[empty := Some(current.value)];
        return Unequipped;
      }
      return UnequipFailed;
    }

    /** The scan for the first empty slot; the length when there is none. */
    method FreeSlot() returns (k: nat)
      ensures k == FirstFree(itens, 0)
    {
      k := 0;
      while k < |itens| && itens[k] != None
        invariant k <= |itens|
        invariant FirstFree(itens, 0) == FirstFree(itens, k)
      {
        k := k + 1;
      }
    }

    /**
     * `loadItems(itemsData, createItemFromData)`: nothing without data or without the factory, or
     * when no array is found; otherwise `get` of every present entry with its count.
     */
    method LoadItems(data: Option<ItemsData>, hasFactory: bool)
      modifies this
      ensures data.None? || !hasFactory || LoadEntries(data.value).None? ==> itens == old(itens)
      ensures data.Some? && hasFactory && LoadEntries(data.value).Some? ==>
        itens == LoadAll(old(itens), LoadEntries(data.value).value)
    {
      if data.None? || !hasFactory {
        return;
      }
      var entries := LoadEntries(data.value);
      if entries.None? {
        return;
      }
      var es := entries.value;
      var i := 0;
      while i < |es|
        invariant 0 <= i <= |es|
        invariant itens == LoadAll(old(itens), es[..i])
      {
        assert es[..i + 1][..i] == es[..i];
        if es[i].Some? {
          Get(es[i].value, LoadCount(es[i].value.quant));
        }
        i := i + 1;
      }
      assert es[..i] == es;
    }
  }

  // ---------------------------------------------------------------------------------------------
  // The equipment table (Equiped.js)

  /** The ten slots `new Equiped()` creates. */
  const EquipSlots: seq<string> := ["body", "leg", "foot", "bag", "hands", "neck", "belt", "arm", "hand1", "hand2"]

  /** The property `this[item.slot]` names: a missing slot is the key "undefined". */
  function SlotKey(item: JsItem): string {
    if item.slot.None? then "undefined" else item.slot.value
  }

  /** The table holds the two weapon hands (the constructor creates them and nothing deletes them). */
  predicate HasHands(slots: map<string, Option<JsItem>>) {
    "hand1" in slots && "hand2" in slots
  }

  /**
   * The table and the result of `equip(item)`: a "Weapon" goes into an empty `hand1`, else an
   * empty `hand2`, else into `hand1` moving the old one to `hand2` and giving back the old
   * `hand2`; an "Equipment" item swaps into its slot, giving back the previous occupant; anything
   * else stores nothing.
   */
  function Equipping(slots: map<string, Option<JsItem>>, item: JsItem): (r: (map<string, Option<JsItem>>, Option<JsItem>))
    requires HasHands(slots)
    ensures r.0.Keys == slots.Keys + (if item.itemType == "Equipment" then {SlotKey(item)} else {})
    ensures item.itemType != "Weapon" && item.itemType != "Equipment" ==> r == (slots, None)
  {
    if item.itemType == "Weapon" then
      if slots["hand1"] == None then (slots["hand1" := Some(item)], None)
      else if slots["hand2"] == None then (slots["hand2" := Some(item)], None)
      else (slots["hand1" := Some(item)]["hand2" := slots["hand1"]], slots["hand2"])
    else if item.itemType == "Equipment" then
      (slots[SlotKey(item) := Some(item)], Occupant(slots, SlotKey(item)))
    else (slots, None)
  }

  /** The item an optional slot value holds, as a multiset of at most one. */
  function Held(o: Option<JsItem>): multiset<JsItem> {
    if o.Some? then multiset{o.value} else multiset{}
  }

  /**
   * The weapon-hand rotation loses and duplicates nothing: the two hands and the item given back
   * hold exactly the hands' old items plus the new weapon.
   */
  lemma WeaponConserved(slots: map<string, Option<JsItem>>, item: JsItem)
    requires HasHands(slots) && item.itemType == "Weapon"
    ensures var (after, back) := Equipping(slots, item);
      Held(after["hand1"]) + Held(after["hand2"]) + Held(back) == Held(slots["hand1"]) + Held(slots["hand2"]) + multiset{item}
  {
    var (after, back) := Equipping(slots, item);
    if slots["hand1"] == None {
      assert after["hand1"] == Some(item) && after["hand2"] == slots["hand2"] && back == None;
    } else if slots["hand2"] == None {
      assert after["hand1"] == slots["hand1"] && after["hand2"] == Some(item) && back == None;
    } else {
      assert after["hand1"] == Some(item) && after["hand2"] == slots["hand1"] && back == slots["hand2"];
    }
  }

  /** The table and the result of `unEquip(slot)`: an own property is given back and nulled; any other name gives none. */
  function UnEquipping(slots: map<string, Option<JsItem>>, key: string): (r: (map<string, Option<JsItem>>, Option<JsItem>))
    ensures r.0.Keys == slots.Keys
    ensures r.1 == Occupant(slots, key)
  {
    if key in slots then (slots[key := None], slots[key]) else (slots, None)
  }

  /** Swapping equipment in and unequipping its slot gives the item back and leaves the slot null. */
  lemma EquipmentSwapUndone(slots: map<string, Option<JsItem>>, item: JsItem)
    requires HasHands(slots) && item.itemType == "Equipment"
    ensures UnEquipping(Equipping(slots, item).0, SlotKey(item)) == (slots[SlotKey(item) := None], Some(item))
  {
    assert Equipping(slots, item).0 == slots[SlotKey(item) := Some(item)];
    assert slots[SlotKey(item) := Some(item)][SlotKey(item) := None] == slots[SlotKey(item) := None];
  }

  /** `new Equiped()`: the ten named slots, in place; the table changes by `equip` and `unEquip`. */
  class JsEquiped {
    var slots: map<string, Option<JsItem>>

    /** The hands exist and every slot the constructor made is still there. */
    ghost predicate Valid()
      reads this
    {
      HasHands(slots) && forall i :: 0 <= i < |EquipSlots| ==> EquipSlots[i] in slots
    }

    /** All ten slots null. */
    constructor ()
      ensures Valid()
      ensures slots.Keys == set i | 0 <= i < |EquipSlots| :: EquipSlots[i]
      ensures forall k :: k in slots ==> slots[k] == None
    {
      slots := map k | k in EquipSlots :: None;
    }

    /** `equip(item)`: see `Equipping`. */
    method Equip(item: JsItem) returns (replaced: Option<JsItem>)
      requires Valid()
      modifies this
      ensures Valid()
      ensures (slots, replaced) == Equipping(old(slots), item)
    {
      if item.itemType == "Weapon" {
        if slots["hand1"] == None {
          slots := slots["hand1" := Some(item)];
          return None;
        } else if slots["hand2"] == None {
          slots := slots["hand2" := Some(item)];
          return None;
        }
        var first, second := slots["hand1"], slots["hand2"];
        slots := slots["hand1" := Some(item)]["hand2" := first];
        return second;
      } else if item.itemType == "Equipment" {
        var key := SlotKey(item);
        replaced := Occupant(slots, key);
        slots := slots[key := Some(item)];
        return replaced;
      }
      return None;
    }

    /** `unEquip(slot)`: see `UnEquipping`. */
    method UnEquip(key: string) returns (removed: Option<JsItem>)
      requires Valid()
      modifies this
      ensures Valid()
      ensures (slots, removed) == UnEquipping(old(slots), key)
    {
      if key in slots {
        removed := slots[key];
        slots := slots[key := None];
        return removed;
      }
      return None;
    }
  }
}
