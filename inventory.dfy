/**
 * The client's slot inventory and equipment (core/inventory.py): a fixed row of slots that holds
 * items or nothing, with a separate occupancy counter, and a set of named equipment slots.
 */
module Inventories {
  import opened Common
  import opened Items
  import opened PyText

  /** Number of occupied slots. */
  function Occupied(s: seq<Option<Item>>): (n: nat)
    ensures n <= |s|
  {
    if s == [] then 0 else (if s[|s| - 1].Some? then 1 else 0) + Occupied(s[..|s| - 1])
  }

  /** Filling an empty slot raises the occupancy by one. */
  lemma {:induction false} OccupiedFill(s: seq<Option<Item>>, k: nat, x: Item)
    requires k < |s| && s[k].None?
    ensures Occupied(s[k := Some(x)]) == Occupied(s) + 1
    decreases |s|
  {
    var t := s[k := Some(x)];
    if k < |s| - 1 {
      assert t[..|t| - 1] == s[..|s| - 1][k := Some(x)];
      OccupiedFill(s[..|s| - 1], k, x);
    } else {
      assert t[..|t| - 1] == s[..|s| - 1];
    }
  }

  /** Emptying an occupied slot lowers the occupancy by one. */
  lemma {:induction false} OccupiedClear(s: seq<Option<Item>>, k: nat)
    requires k < |s| && s[k].Some?
    ensures Occupied(s[k := None]) == Occupied(s) - 1
    decreases |s|
  {
    var t := s[k := None];
    if k < |s| - 1 {
      assert t[..|t| - 1] == s[..|s| - 1][k := None];
      OccupiedClear(s[..|s| - 1], k);
    } else {
      assert t[..|t| - 1] == s[..|s| - 1];
    }
  }

  /** Replacing an occupied slot's item keeps the occupancy. */
  lemma {:induction false} OccupiedReplace(s: seq<Option<Item>>, k: nat, x: Item)
    requires k < |s| && s[k].Some?
    ensures Occupied(s[k := Some(x)]) == Occupied(s)
    decreases |s|
  {
    var t := s[k := Some(x)];
    if k < |s| - 1 {
      assert t[..|t| - 1] == s[..|s| - 1][k := Some(x)];
      OccupiedReplace(s[..|s| - 1], k, x);
    } else {
      assert t[..|t| - 1] == s[..|s| - 1];
    }
  }

  /** A slot holds an item whose id equals `id` (Python `==`). */
  predicate Holds(o: Option<Item>, id: Value) {
    o.Some? && PyEq(o.value.id, id)
  }

  /** `r` is the first slot holding an item with id `id`, or `None` when no slot does. */
  predicate MatchAt(s: seq<Option<Item>>, id: Value, r: Option<nat>) {
    (r.Some? ==> r.value < |s| && Holds(s[r.value], id) && forall j :: 0 <= j < r.value ==> !Holds(s[j], id)) &&
    (r.None? ==> forall j :: 0 <= j < |s| ==> !Holds(s[j], id))
  }

  /** `r` is the first empty slot, or `None` when every slot is occupied. */
  predicate FreeAt(s: seq<Option<Item>>, r: Option<nat>) {
    (r.Some? ==> r.value < |s| && s[r.value].None? && forall j :: 0 <= j < r.value ==> s[j].Some?) &&
    (r.None? ==> forall j :: 0 <= j < |s| ==> s[j].Some?)
  }

  /** The first slot holding an item with id `id`. */
  function FirstMatch(s: seq<Option<Item>>, id: Value): (r: Option<nat>)
    ensures MatchAt(s, id, r)
  {
    if s == [] then None
    else if Holds(s[0], id) then Some(0)
    else
      var t := FirstMatch(s[1..], id);
      if t.Some? then Some(t.value + 1) else None
  }

  /** The first empty slot. */
  function FirstFree(s: seq<Option<Item>>): (r: Option<nat>)
    ensures FreeAt(s, r)
  {
    if s == [] then None
    else if s[0].None? then Some(0)
    else
      var t := FirstFree(s[1..]);
      if t.Some? then Some(t.value + 1) else None
  }

  /** The first matching slot is unique: `MatchAt` holds of exactly `FirstMatch`. */
  lemma {:induction false} MatchAtUnique(s: seq<Option<Item>>, id: Value, r: Option<nat>)
    ensures MatchAt(s, id, r) <==> r == FirstMatch(s, id)
  {
    if |s| > 0 && !Holds(s[0], id) {
      var r' := match r case None => None case Some(k) => if k == 0 then None else Some(k - 1);
      MatchAtUnique(s[1..], id, r');
    }
  }

  /** The first empty slot is unique: `FreeAt` holds of exactly `FirstFree`. */
  lemma {:induction false} FreeAtUnique(s: seq<Option<Item>>, r: Option<nat>)
    ensures FreeAt(s, r) <==> r == FirstFree(s)
  {
    if |s| > 0 && s[0].Some? {
      var r' := match r case None => None case Some(k) => if k == 0 then None else Some(k - 1);
      FreeAtUnique(s[1..], r');
    }
  }

  /** `Inventory`: the slot row `itens` and the counter `quant`. */
  class Inventory {
    var itens: seq<Option<Item>>
    var quant: int

    /** `Inventory(storage, quant)`: `storage` empty slots (none for a negative size). */
    constructor(storage: int, quant: int)
      ensures |itens| == (if storage < 0 then 0 else storage)
      ensures forall j :: 0 <= j < |itens| ==> itens[j].None?
      ensures this.quant == quant
    {
      itens := seq(if storage < 0 then 0 else storage, _ => None);
      this.quant := quant;
    }

    /**
     * `get(item)`: a consumable stacks onto the first slot holding an item of the same id, whose
     * count goes up by one; otherwise the item takes the first empty slot and `quant` goes up by
     * one; a full inventory is unchanged. No other slot changes.
     */
    method Get(item: Item) returns (ghost m: Option<nat>, ghost f: Option<nat>)
      modifies this
      ensures item.itemType == Str("Consumable") ==> MatchAt(old(itens), item.id, m)
      ensures item.itemType != Str("Consumable") ==> m.None?
      ensures m.Some? ==> itens == old(itens)[m.value := Some(old(itens)[m.value].value.(quant := old(itens)[m.value].value.quant + 1))]
      ensures m.Some? ==> quant == old(quant)
      ensures m.None? ==> FreeAt(old(itens), f)
      ensures m.None? && f.Some? ==> itens == old(itens)[f.value := Some(item)] && quant == old(quant) + 1
      ensures m.None? && f.None? ==> itens == old(itens) && quant == old(quant)
      ensures quant - Occupied(itens) == old(quant - Occupied(itens))
    {
      m, f := None, None;
      if item.itemType == Str("Consumable") {
        var i := 0;
        while i < |itens|
          invariant 0 <= i <= |itens|
          invariant forall j :: 0 <= j < i ==> !Holds(itens[j], item.id)
        {
          if Holds(itens[i], item.id) {
            var held := itens[i].value;
            OccupiedReplace(itens, i, held.(quant := held.quant + 1));
            itens := itens[i := Some(held.(quant := held.quant + 1))];
            m := Some(i);
            return;
          }
          i := i + 1;
        }
      }
      var i := 0;
      while i < |itens|
        invariant 0 <= i <= |itens|
        invariant forall j :: 0 <= j < i ==> itens[j].Some?
      {
        if itens[i].None? {
          OccupiedFill(itens, i, item);
          itens := itens[i := Some(item)];
          quant := quant + 1;
          f := Some(i);
          return;
        }
        i := i + 1;
      }
    }

    /**
     * `drop(slot)`: an occupied slot in range gives up its item, becomes empty and `quant` goes
     * down by one; any other slot gives `None` and changes nothing.
     */
    method Drop(slot: int) returns (r: Option<Item>)
      modifies this
      ensures 0 <= slot < |old(itens)| && old(itens)[slot].Some? ==>
        r == old(itens)[slot] && itens == old(itens)[slot := None] && quant == old(quant) - 1
      ensures !(0 <= slot < |old(itens)| && old(itens)[slot].Some?) ==>
        r.None? && itens == old(itens) && quant == old(quant)
      ensures quant - Occupied(itens) == old(quant - Occupied(itens))
    {
      r := None;
      if 0 <= slot < |itens| && itens[slot].Some? {
        r := itens[slot];
        OccupiedClear(itens, slot);
        itens := itens[slot := None];
        quant := quant - 1;
      }
    }

    /** `str(inventory)`: the summary line, which reads back as `quant` and the number of slots. */
    function Describe(): (s: string)
      reads this
      ensures ReadSummary(s) == Some((quant, |itens|))
    {
      SummaryReadsBack(quant, |itens|);
      Summary(quant, |itens|)
    }
  }

  /** The summary line for `quant` occupied slots out of `size`. */
  function Summary(quant: int, size: nat): (s: string)
    ensures "Inventário: " + IntToDecimal(quant) <= s
    ensures |s| == |IntToDecimal(quant)| + |IntToDecimal(size)| + 22
  {
    "Inventário: " + IntToDecimal(quant) + "/" + IntToDecimal(size) + " ocupados"
  }

  /**
   * Reads a summary line back: the integers before and after the first `/` between
   * "Inventário: " and " ocupados", or `None` for any other text.
   */
  function ReadSummary(s: string): (r: Option<(int, int)>)
  {
    match Unframe(s, "Inventário: ", " ocupados")
    case None => None
    case Some(mid) => ReadPair(mid)
  }

  /** The text between prefix `a` and suffix `b`, or `None` when `s` is not framed by them. */
  function Unframe(s: string, a: string, b: string): (r: Option<string>)
    ensures r.Some? ==> s == a + r.value + b
  {
    if |s| >= |a| + |b| && s[..|a|] == a && s[|s| - |b|..] == b then
      assert s == s[..|a|] + s[|a|..|s| - |b|] + s[|s| - |b|..];
      Some(s[|a|..|s| - |b|])
    else None
  }

  /** The integers before and after the first `/` of `m`. */
  function ReadPair(m: string): (r: Option<(int, int)>)
  {
    var k := Find(m, '/');
    if k == |m| then None
    else
      match (ParseInt(m[..k]), ParseInt(m[k + 1..]))
      case (Some(x), Some(y)) => Some((x, y))
      case _ => None
  }

  /** The summary line gives back both numbers it was written from. */
  lemma SummaryReadsBack(quant: int, size: nat)
    ensures ReadSummary(Summary(quant, size)) == Some((quant, size))
  {
    var q, z := IntToDecimal(quant), IntToDecimal(size);
    var mid := q + "/" + z;
    assert Summary(quant, size) == "Inventário: " + mid + " ocupados";
    UnframeFrame("Inventário: ", mid, " ocupados");
    DecimalChars(quant);
    SlashSplits(q, z);
    ParseIntRoundTrip(quant);
    ParseIntRoundTrip(size);
  }

  /** A prefix and a suffix come off again as they were put on. */
  lemma UnframeFrame(a: string, m: string, b: string)
    ensures Unframe(a + m + b, a, b) == Some(m)
  {
    var s := a + m + b;
    assert s[..|a|] == a;
    assert s[|s| - |b|..] == b;
    assert s[|a|..|s| - |b|] == m;
  }

  /** The first `/` of `q + "/" + z`, when `q` holds none, is the one between them. */
  lemma SlashSplits(q: string, z: string)
    requires forall i :: 0 <= i < |q| ==> q[i] != '/'
    ensures var m := q + "/" + z; Find(m, '/') == |q| && m[..|q|] == q && m[|q| + 1..] == z
  {
    var m := q + "/" + z;
    assert m[|q|] == '/';
    assert forall i :: 0 <= i < |q| ==> m[i] == q[i];
    assert m[..|q|] == q;
    assert m[|q| + 1..] == z;
  }

  /** The attribute names of `Equiped`, one per equipment slot. */
  const SlotNames: set<string> := {"head", "body", "leg", "foot", "bag", "hands", "neck", "belt", "arm", "hand1", "hand2"}

  /** Why `equip` fails: no `slot` attribute (AttributeError), a slot that is not a string (TypeError), an unknown slot (ValueError). */
  datatype EquipError = NoSlotAttribute | SlotNotString | InvalidSlot(slot: string)

  /** What `equip` gives back: the previous occupant of the slot, or the error it raises. */
  datatype EquipOutcome = Equipped(previous: Option<Item>) | Failed(error: EquipError)

  /** The slot `equip` would use for `item`, or the error it raises. */
  function EquipSlot(item: Item): (r: Result<string, EquipError>)
    ensures r.Ok? ==> r.value in SlotNames && SlotOf(item) == Some(Str(r.value))
    ensures SlotOf(item).None? ==> r == Err(NoSlotAttribute)
    ensures SlotOf(item).Some? && !SlotOf(item).value.Str? ==> r == Err(SlotNotString)
    ensures SlotOf(item).Some? && SlotOf(item).value.Str? && SlotOf(item).value.s !in SlotNames ==>
      r == Err(InvalidSlot(SlotOf(item).value.s))
  {
    match SlotOf(item)
    case None => Err(NoSlotAttribute)
    case Some(v) =>
      if !v.Str? then Err(SlotNotString)
      else if v.s in SlotNames then Ok(v.s)
      else Err(InvalidSlot(v.s))
  }

  /** `equip(item)` on the slot table `m`: the new table and the outcome. */
  function EquipOn(m: map<string, Option<Item>>, item: Item): (r: (map<string, Option<Item>>, EquipOutcome))
    requires m.Keys == SlotNames
    ensures r.0.Keys == SlotNames
    ensures EquipSlot(item).Err? ==> r == (m, Failed(EquipSlot(item).error))
    ensures EquipSlot(item).Ok? ==> r.0[EquipSlot(item).value] == Some(item) && r.1 == Equipped(m[EquipSlot(item).value])
    ensures forall k :: k in m && (EquipSlot(item).Err? || k != EquipSlot(item).value) ==> r.0[k] == m[k]
  {
    match EquipSlot(item)
    case Err(e) => (m, Failed(e))
    case Ok(slot) => (m[slot := Some(item)], Equipped(m[slot]))
  }

  /** `unEquip(slot)` on the slot table `m`: an existing slot is emptied and its occupant returned. */
  function UnEquipOn(m: map<string, Option<Item>>, slot: string): (r: (map<string, Option<Item>>, Option<Item>))
    requires m.Keys == SlotNames
    ensures r.0.Keys == SlotNames
    ensures slot in SlotNames ==> r.0[slot].None? && r.1 == m[slot]
    ensures slot !in SlotNames ==> r == (m, None)
    ensures forall k :: k in m && k != slot ==> r.0[k] == m[k]
  {
    if slot in m then (m[slot := None], m[slot]) else (m, None)
  }

  /**
   * Equipping an item and then unequipping its slot gives the item back, and leaves the slot
   * empty and every other slot as it was.
   */
  lemma EquipUnEquipRoundTrip(m: map<string, Option<Item>>, item: Item)
    requires m.Keys == SlotNames && EquipSlot(item).Ok?
    ensures UnEquipOn(EquipOn(m, item).0, EquipSlot(item).value).1 == Some(item)
    ensures UnEquipOn(EquipOn(m, item).0, EquipSlot(item).value).0 == m[EquipSlot(item).value := None]
  {
    var slot := EquipSlot(item).value;
    var after := UnEquipOn(EquipOn(m, item).0, slot).0;
    assert forall k :: k in after <==> k in m[slot := None];
    assert forall k :: k in after ==> after[k] == m[slot := None][k];
  }

  /** `Equiped`: one optional item per equipment slot. */
  class Equiped {
    var slots: map<string, Option<Item>>

    predicate Valid()
      reads this
    {
      slots.Keys == SlotNames
    }

    /** `Equiped()`: every slot empty. */
    constructor()
      ensures Valid()
      ensures forall k :: k in slots ==> slots[k].None?
    {
      slots := map k | k in SlotNames :: None;
    }

    /** `equip(item)`: stores the item in its slot and returns the previous occupant, or fails. */
    method Equip(item: Item) returns (r: EquipOutcome)
      requires Valid()
      modifies this
      ensures Valid()
      ensures (slots, r) == EquipOn(old(slots), item)
    {
      var slot := EquipSlot(item);
      if slot.Err? {
        r := Failed(slot.error);
      } else {
        r := Equipped(slots[slot.value]);
        slots := slots[slot.value := Some(item)];
      }
    }

    /** `unEquip(slot)`: empties an existing slot and returns its occupant; any other name gives `None`. */
    method UnEquip(slot: string) returns (r: Option<Item>)
      requires Valid()
      modifies this
      ensures Valid()
      ensures (slots, r) == UnEquipOn(old(slots), slot)
    {
      r := None;
      if slot in slots {
        r := slots[slot];
        slots := slots[slot := None];
      }
    }
  }
}
