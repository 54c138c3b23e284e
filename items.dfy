/**
 * The client's item classes (core/item.py, assets/classes/itens.py) and the round trip through
 * their dictionary form: `to_dict` on the item side, `item_with_quant_to_dict` and
 * `create_item_from_dict` on the player side (assets/classes/entities.py). Items are values;
 * the weapon's cooldown tick returns the updated weapon.
 */
module Items {
  import opened Common
  import opened World
  import Stats

  /** A scalar as a Python item record or its dictionary form holds it. */
  datatype Value = Str(s: string) | Int(i: int) | Real(r: real) | Nil

  /** Python's truth value of a scalar. */
  predicate Truthy(v: Value) {
    match v
    case Str(s) => s != ""
    case Int(i) => i != 0
    case Real(r) => r != 0.0
    case Nil => false
  }

  /** Python's `==` on scalars: an int and a float compare by value. */
  predicate PyEq(a: Value, b: Value) {
    match (a, b)
    case (Int(i), Real(r)) => i as real == r
    case (Real(r), Int(i)) => i as real == r
    case _ => a == b
  }

  /** A number as a float, or `None` for a value that is not a number. */
  function AsReal(v: Value): (r: Option<real>)
    ensures r.Some? <==> (v.Int? || v.Real?)
    ensures v.Real? ==> r == Some(v.r)
    ensures v.Int? ==> r == Some(v.i as real)
  {
    match v
    case Int(i) => Some(i as real)
    case Real(r) => Some(r)
    case _ => None
  }

  /** The attributes of `Consumable`. */
  datatype ConsumableAttrs = ConsumableAttrs(heal: real, mana: real, stamina: real, effect: Value)

  /** The attributes of `Equipment`. */
  datatype EquipmentAttrs = EquipmentAttrs(
    defense: Value, resistance: Value, regen: Value, speed: Value, attack: Value, critical: Value,
    stamina: Value, mana: Value, manaRegen: Value, classe: Value, condition: Value, special: Value, slot: Value)

  /**
   * The attributes of `Weapon`: `projectile` is the `special` argument, `hand` the slot its class
   * names; `condition` and `element` are only set on a weapon built from a dictionary and read as
   * `None` otherwise.
   */
  datatype WeaponAttrs = WeaponAttrs(
    classe: string, damage: Value, critical: Value, range: Value, speed: real, move: Value,
    projectile: Value, ability: Value, condition: Value, element: Value, textureAction: Value,
    cooldown: int, maxCooldown: int, hand: string)

  /** The part of an item that depends on its class. */
  datatype Details =
    | Plain
    | Consumable(c: ConsumableAttrs)
    | Equipment(e: EquipmentAttrs)
    | KeyItem(special: Value)
    | Weapon(w: WeaponAttrs)

  /** An item: the base attributes of `Item`, the stack count `quant`, and the subclass's part. */
  datatype Item = Item(name: Value, itemType: Value, texture: Value, description: Value, id: Value,
                       quant: int, details: Details)

  /**
   * An item's dictionary form, one entry per key the item code reads or writes (`None` when the
   * key is absent); keys the code never reads are not represented.
   */
  datatype ItemDict = ItemDict(
    itemType: Option<Value>, name: Option<Value>, texture: Option<Value>, description: Option<Value>,
    id: Option<Value>, quant: Option<Value>,
    heal: Option<Value>, mana: Option<Value>, stamina: Option<Value>, effect: Option<Value>,
    defense: Option<Value>, resistance: Option<Value>, regen: Option<Value>, speed: Option<Value>,
    attack: Option<Value>, critical: Option<Value>, manaRegen: Option<Value>, classe: Option<Value>,
    condition: Option<Value>, special: Option<Value>, slot: Option<Value>, damage: Option<Value>,
    range: Option<Value>, move: Option<Value>, ability: Option<Value>, element: Option<Value>,
    textureAction: Option<Value>)

  /** The empty dictionary. */
  const EmptyDict := ItemDict(None, None, None, None, None, None, None, None, None, None, None, None, None,
                              None, None, None, None, None, None, None, None, None, None, None, None, None, None)

  /** `d.get(key, default)` for one entry. */
  function Get(entry: Option<Value>, default: Value): (v: Value)
    ensures entry.Some? ==> v == entry.value
    ensures entry.None? ==> v == default
  {
    if entry.Some? then entry.value else default
  }

  /** `Item(name, item_type, texture, description, id)`: one unit, no subclass part. */
  function NewItem(name: Value, itemType: Value, texture: Value, description: Value, id: Value): (x: Item)
    ensures x.itemType == itemType && x.quant == 1 && x.details == Plain
  {
    Item(name, itemType, texture, description, id, 1, Plain)
  }

  /** `Consumable(...)`: typed "Consumable". */
  function NewConsumable(name: Value, c: ConsumableAttrs, texture: Value, description: Value, id: Value): (x: Item)
    ensures x.itemType == Str("Consumable") && x.quant == 1 && x.details == Consumable(c)
  {
    Item(name, Str("Consumable"), texture, description, id, 1, Consumable(c))
  }

  /** `Equipment(...)`: typed "Equipment". */
  function NewEquipment(name: Value, e: EquipmentAttrs, texture: Value, description: Value, id: Value): (x: Item)
    ensures x.itemType == Str("Equipment") && x.quant == 1 && x.details == Equipment(e)
  {
    Item(name, Str("Equipment"), texture, description, id, 1, Equipment(e))
  }

  /** `KeyItem(...)`: typed "KeyItem". */
  function NewKeyItem(name: Value, special: Value, texture: Value, description: Value, id: Value): (x: Item)
    ensures x.itemType == Str("KeyItem") && x.quant == 1 && x.details == KeyItem(special)
  {
    Item(name, Str("KeyItem"), texture, description, id, 1, KeyItem(special))
  }

  /**
   * `Weapon(...)`: typed "Weapon", ready to fire (cooldown 0), with `max_cooldown = int(120 / speed)`
   * and the hand its class names. A speed of 0 raises ZeroDivisionError, hence the precondition.
   */
  function NewWeapon(name: Value, classe: string, damage: Value, critical: Value, range: Value, speed: real,
                     move: Value, projectile: Value, ability: Value, textureAction: Value,
                     texture: Value, description: Value, id: Value): (x: Item)
    requires speed != 0.0
    ensures x.itemType == Str("Weapon") && x.quant == 1 && x.details.Weapon?
    ensures x.details.w.cooldown == 0 && x.details.w.maxCooldown == Truncate(120.0 / speed)
    ensures x.details.w.hand == WeaponSlot(classe)
    ensures speed >= 120.0 ==> x.details.w.maxCooldown <= 1
  {
    Item(name, Str("Weapon"), texture, description, id, 1,
         Weapon(WeaponAttrs(classe, damage, critical, range, speed, move, projectile, ability, Nil, Nil,
                            textureAction, 0, Truncate(120.0 / speed), WeaponSlot(classe))))
  }

  /**
   * `_get_weapon_slot(classe)`: the lower-cased class looked up in the slot table; shields
   * ("escudo", "shield") go to the second hand, every other class, listed or not, to the first.
   */
  function WeaponSlot(classe: string): (slot: string)
    ensures slot == "hand2" <==> Lower(classe) in {"escudo", "shield"}
    ensures slot == "hand1" || slot == "hand2"
  {
    var table := map["espada" := "hand1", "sword" := "hand1", "arco" := "hand1", "bow" := "hand1",
                     "machado" := "hand1", "axe" := "hand1", "escudo" := "hand2", "shield" := "hand2",
                     "duas_maos" := "hand1", "two_handed" := "hand1"];
    var key := Lower(classe);
    if key in table then table[key] else "hand1"
  }

  /** The `slot` attribute of an item, or `None` for a class without one. */
  function SlotOf(x: Item): (s: Option<Value>)
    ensures s.Some? <==> x.details.Equipment? || x.details.Weapon?
    ensures x.details.Weapon? ==> s == Some(Str(x.details.w.hand))
  {
    match x.details
    case Equipment(e) => Some(e.slot)
    case Weapon(w) => Some(Str(w.hand))
    case _ => None
  }

  /** The `item_type` entry `to_dict` writes: a subclass writes its own class name. */
  function Tag(x: Item): (t: Value)
    ensures x.details.Plain? ==> t == x.itemType
    ensures x.details.Consumable? ==> t == Str("Consumable")
    ensures x.details.Equipment? ==> t == Str("Equipment")
    ensures x.details.KeyItem? ==> t == Str("KeyItem")
    ensures x.details.Weapon? ==> t == Str("Weapon")
  {
    match x.details
    case Plain => x.itemType
    case Consumable(_) => Str("Consumable")
    case Equipment(_) => Str("Equipment")
    case KeyItem(_) => Str("KeyItem")
    case Weapon(_) => Str("Weapon")
  }

  /**
   * `to_dict()`: the base entries (`item_type`, `name`, `texture`, `description`, `id`) and the
   * subclass's own entries, with `item_type` the class's name; no `quant`.
   */
  function ToDict(x: Item): (d: ItemDict)
    ensures d.itemType == Some(Tag(x)) && d.name == Some(x.name) && d.texture == Some(x.texture)
    ensures d.description == Some(x.description) && d.id == Some(x.id) && d.quant.None?
    ensures x.details.Consumable? <==> d.heal.Some?
    ensures x.details.Equipment? <==> d.defense.Some?
    ensures x.details.Weapon? <==> d.damage.Some?
    ensures d.special.Some? <==> !x.details.Plain? && !x.details.Consumable?
    ensures x.details.Weapon? ==> d.slot == Some(Str(x.details.w.hand)) && d.speed == Some(Real(x.details.w.speed))
  {
    var base := EmptyDict.(itemType := Some(Tag(x)), name := Some(x.name), texture := Some(x.texture),
                           description := Some(x.description), id := Some(x.id));
    match x.details
    case Plain => base
    case Consumable(c) =>
      base.(heal := Some(Real(c.heal)), mana := Some(Real(c.mana)), stamina := Some(Real(c.stamina)),
            effect := Some(c.effect))
    case Equipment(e) =>
      base.(defense := Some(e.defense), resistance := Some(e.resistance), regen := Some(e.regen),
            speed := Some(e.speed), attack := Some(e.attack), critical := Some(e.critical),
            stamina := Some(e.stamina), mana := Some(e.mana), manaRegen := Some(e.manaRegen),
            classe := Some(e.classe), condition := Some(e.condition), special := Some(e.special),
            slot := Some(e.slot))
    case KeyItem(special) => base.(special := Some(special))
    case Weapon(w) =>
      base.(classe := Some(Str(w.classe)), damage := Some(w.damage), critical := Some(w.critical),
            range := Some(w.range), speed := Some(Real(w.speed)), move := Some(w.move),
            condition := Some(w.condition), special := Some(w.projectile), ability := Some(w.ability),
            element := Some(w.element), slot := Some(Str(w.hand)), textureAction := Some(w.textureAction))
  }

  /** `item_with_quant_to_dict(item)`: `to_dict()` with the stack count added. */
  function ToDictWithQuant(x: Item): (d: ItemDict)
    ensures d.quant == Some(Int(x.quant))
    ensures d.(quant := None) == ToDict(x)
  {
    ToDict(x).(quant := Some(Int(x.quant)))
  }

  /**
   * The texture normalisation of `create_item_from_dict`: `None` and "" become `None`, an
   * integer string or a number becomes its `int`, and any other value is kept.
   */
  function NormalTexture(v: Value): (t: Value)
    ensures (v == Nil || v == Str("")) ==> t == Nil
    ensures v.Int? ==> t == v
    ensures v.Str? && v.s != "" && ParseInt(v.s).Some? ==> t == Int(ParseInt(v.s).value)
    ensures v.Str? && ParseInt(v.s).None? && v.s != "" ==> t == v
  {
    match v
    case Nil => Nil
    case Str(s) => if s == "" then Nil else if ParseInt(s).Some? then Int(ParseInt(s).value) else v
    case Int(_) => v
    case Real(r) => Int(Truncate(r))
  }

  /**
   * The `texture_action` normalisation for weapons: `None` and "" are kept, an integer string or a
   * number becomes its `int`, any other string becomes `None`.
   */
  function NormalAction(v: Value): (t: Value)
    ensures (v == Nil || v == Str("") || v.Int?) ==> t == v
    ensures v.Str? && v.s != "" && ParseInt(v.s).None? ==> t == Nil
  {
    match v
    case Str(s) => if s == "" then v else if ParseInt(s).Some? then Int(ParseInt(s).value) else Nil
    case Real(r) => Int(Truncate(r))
    case _ => v
  }

  /**
   * `create_item_from_dict(d)`: dispatches on `item_type` and fills every missing entry with its
   * default; an unknown type gives a plain item typed by the tag, or "Generico" when the tag is
   * falsy. The count is set from `quant` (default 1). `None` stands for two kinds of input: those
   * the source's constructors raise on (a weapon class that is not a string, which has no
   * `lower`, and a weapon speed of 0 or not a number), and those Python stores as given but this
   * model's `int` count and `real` amounts cannot hold (a count that is not an integer, and
   * consumable amounts that are not numbers).
   */
  function FromDict(d: ItemDict): (r: Option<Item>)
    ensures r.Some? ==> r.value.texture == NormalTexture(Get(d.texture, Nil))
    ensures r.Some? ==> Int(r.value.quant) == Get(d.quant, Int(1))
    ensures r.Some? ==> r.value.id == Get(d.id, Nil) && r.value.description == Get(d.description, Str(""))
    ensures r.Some? && r.value.details.Plain? ==>
      r.value.itemType == if Truthy(Get(d.itemType, Nil)) then Get(d.itemType, Nil) else Str("Generico")
    ensures r.Some? && !r.value.details.Plain? ==> r.value.itemType == Get(d.itemType, Nil)
    ensures r.Some? && r.value.details.Weapon? ==> r.value.details.w.cooldown == 0
  {
    var tag := Get(d.itemType, Nil);
    var texture := NormalTexture(Get(d.texture, Nil));
    var description := Get(d.description, Str(""));
    var id := Get(d.id, Nil);
    var quant := Get(d.quant, Int(1));
    if !quant.Int? then None
    else if tag == Str("Equipment") then
      var e := EquipmentAttrs(
        Get(d.defense, Int(0)), Get(d.resistance, Int(0)), Get(d.regen, Int(0)), Get(d.speed, Int(0)),
        Get(d.attack, Int(0)), Get(d.critical, Int(0)), Get(d.stamina, Int(0)), Get(d.mana, Int(0)),
        Get(d.manaRegen, Int(0)), Get(d.classe, Str("Geral")), Get(d.condition, Int(100)), Get(d.special, Nil),
        Get(d.slot, Str("body")));
      Some(NewEquipment(Get(d.name, Str("Item Desconhecido")), e, texture, description, id).(quant := quant.i))
    else if tag == Str("Consumable") then
      var heal, mana, stamina := AsReal(Get(d.heal, Int(0))), AsReal(Get(d.mana, Int(0))), AsReal(Get(d.stamina, Int(0)));
      if heal.None? || mana.None? || stamina.None? then None
      else
        var c := ConsumableAttrs(heal.value, mana.value, stamina.value, Get(d.effect, Str("Nenhum")));
        Some(NewConsumable(Get(d.name, Str("Consumível Desconhecido")), c, texture, description, id).(quant := quant.i))
    else if tag == Str("Weapon") then
      var classe, speed := Get(d.classe, Str("Geral")), AsReal(Get(d.speed, Real(1.0)));
      if !classe.Str? || speed.None? || speed.value == 0.0 then None
      else
        var x := NewWeapon(Get(d.name, Str("Arma Desconhecida")), classe.s, Get(d.damage, Int(0)),
                           Get(d.critical, Int(0)), Get(d.range, Int(1)), speed.value, Get(d.move, Int(0)),
                           Get(d.special, Nil), Get(d.ability, Str("Nenhuma")),
                           NormalAction(Get(d.textureAction, Nil)), texture, description, id);
        var w := x.details.w.(condition := Get(d.condition, Int(100)), element := Get(d.element, Nil));
        Some(x.(details := Weapon(w), quant := quant.i))
    else if tag == Str("KeyItem") then
      var x := NewKeyItem(Get(d.name, Str("Item Chave Desconhecido")), Get(d.special, Str("Função Desconhecida")),
                          texture, description, id);
      Some(x.(quant := quant.i))
    else
      var x := NewItem(Get(d.name, Str("Item Desconhecido")), if Truthy(tag) then tag else Str("Generico"),
                       texture, description, id);
      Some(x.(quant := quant.i))
  }

  /** The class tags `create_item_from_dict` dispatches on. */
  predicate IsClassTag(v: Value) {
    v == Str("Consumable") || v == Str("Equipment") || v == Str("KeyItem") || v == Str("Weapon")
  }

  /**
   * An item that `create_item_from_dict` can rebuild from its own dictionary: its texture is
   * already normal, a plain item's tag is truthy and names no subclass, a subclass item carries its
   * class's tag, and a weapon's derived attributes are those its constructor computes.
   */
  predicate Rebuildable(x: Item) {
    NormalTexture(x.texture) == x.texture &&
    match x.details
    case Plain => Truthy(x.itemType) && !IsClassTag(x.itemType)
    case Consumable(_) => x.itemType == Str("Consumable")
    case Equipment(_) => x.itemType == Str("Equipment")
    case KeyItem(_) => x.itemType == Str("KeyItem")
    case Weapon(w) =>
      x.itemType == Str("Weapon") && w.speed != 0.0 && NormalAction(w.textureAction) == w.textureAction &&
      w.maxCooldown == Truncate(120.0 / w.speed) && w.hand == WeaponSlot(w.classe)
  }

  /** The item as a fresh load gives it back: a weapon's cooldown starts again at 0. */
  function Reloaded(x: Item): (y: Item)
    ensures y.details.Weapon? ==> y.details.w.cooldown == 0
    ensures !x.details.Weapon? ==> y == x
    ensures x.details.Weapon? ==> y.details.Weapon? && y.details.w == x.details.w.(cooldown := 0) && y.(details := x.details) == x
  {
    if x.details.Weapon? then x.(details := Weapon(x.details.w.(cooldown := 0))) else x
  }

  /**
   * Round trip of saving and loading an item: `create_item_from_dict(item_with_quant_to_dict(x))`
   * rebuilds `x`, up to the weapon cooldown that a fresh weapon resets.
   */
  lemma SaveLoadRoundTrip(x: Item)
    requires Rebuildable(x)
    ensures FromDict(ToDictWithQuant(x)) == Some(Reloaded(x))
  {
    var d := ToDictWithQuant(x);
    match x.details
    case Plain =>
      assert Get(d.itemType, Nil) == x.itemType;
    case Consumable(_) =>
    case Equipment(_) =>
    case KeyItem(_) =>
    case Weapon(w) =>
      assert Get(d.classe, Str("Geral")) == Str(w.classe);
  }

  /**
   * `Consumable.use(player)`: each nonzero amount raises its resource to at most its maximum,
   * `min(current + amount, max)`; a zero amount leaves it alone.
   */
  method Use(c: ConsumableAttrs, s: Stats.Status)
    requires s.Valid()
    modifies s`values
    ensures s.Valid()
    ensures s.values == Refill(Refill(Refill(old(s.values), "hp", "maxHp", c.heal),
                                      "mana", "maxMana", c.mana), "stamina", "maxStamina", c.stamina)
  {
    var v := s.values;
    assert "hp" in v && "maxHp" in v && "mana" in v && "maxMana" in v && "stamina" in v && "maxStamina" in v;
    v := Refill(v, "hp", "maxHp", c.heal);
    v := Refill(v, "mana", "maxMana", c.mana);
    v := Refill(v, "stamina", "maxStamina", c.stamina);
    s.values := v;
  }

  /** Python's `min(a, b)` on floats. */
  function Min(a: real, b: real): (m: real)
    ensures m <= a && m <= b && (m == a || m == b)
  {
    if b < a then b else a
  }

  /** One refill of `Consumable.use`: a nonzero `amount` is added to `stat` and capped at `cap`. */
  function Refill(values: map<string, real>, stat: string, cap: string, amount: real): (v: map<string, real>)
    requires stat in values && cap in values
    ensures v.Keys == values.Keys
    ensures amount != 0.0 ==> v[stat] == Min(values[stat] + amount, values[cap])
    ensures amount == 0.0 ==> v == values
    ensures forall k :: k in values && k != stat ==> v[k] == values[k]
    ensures amount != 0.0 && stat != cap ==> v[stat] <= values[cap]
  {
    if amount != 0.0 then values[stat := Min(values[stat] + amount, values[cap])] else values
  }

  /** `update_cooldown()`: a positive cooldown drops by one; zero (or less) stays. */
  function UpdateCooldown(w: WeaponAttrs): (u: WeaponAttrs)
    ensures u == w.(cooldown := u.cooldown)
    ensures w.cooldown > 0 ==> u.cooldown == w.cooldown - 1
    ensures w.cooldown <= 0 ==> u.cooldown == w.cooldown
  {
    if w.cooldown > 0 then w.(cooldown := w.cooldown - 1) else w
  }

  /** `n` frames of `update_cooldown()`. */
  function Cooldowns(w: WeaponAttrs, n: nat): WeaponAttrs
    decreases n
  {
    if n == 0 then w else Cooldowns(UpdateCooldown(w), n - 1)
  }

  /**
   * The cooldown counts down to 0 and never below it: after `n` frames a cooldown `c >= 0` is
   * `max(c - n, 0)`, and nothing else about the weapon changes.
   */
  lemma {:induction false} CooldownsCountDown(w: WeaponAttrs, n: nat)
    requires w.cooldown >= 0
    ensures Cooldowns(w, n).cooldown == if w.cooldown >= n then w.cooldown - n else 0
    ensures Cooldowns(w, n) == w.(cooldown := Cooldowns(w, n).cooldown)
    decreases n
  {
    if n > 0 {
      CooldownsCountDown(UpdateCooldown(w), n - 1);
    }
  }

  /**
   * `atack(...)`: only a weapon whose cooldown is 0 fires. Firing offsets the already built
   * projectile body 16 pixels along the aim direction, adds it to `EControl` (which numbers it) and
   * sets the cooldown to its maximum; otherwise nothing changes.
   */
  method Attack(weapon: WeaponAttrs, w: World, p: Entity, dirx: int, diry: int) returns (r: WeaponAttrs, fired: bool)
    requires w.Valid() && p !in w.All()
    modifies w, p`posx, p`posy, p`id
    ensures w.Valid()
    ensures fired <==> weapon.cooldown == 0
    ensures fired ==> r == weapon.(cooldown := weapon.maxCooldown)
    ensures fired ==> p.posx == old(p.posx) + dirx * 16 && p.posy == old(p.posy) + diry * 16
    ensures fired ==> w.Snapshot() == old(w.Snapshot()).Put(EControl, old(w.entities) + [p]) && p.id == |w.entities|
    ensures !fired ==> r == weapon && w.Snapshot() == old(w.Snapshot()) && p.posx == old(p.posx) && p.posy == old(p.posy)
  {
    r, fired := weapon, false;
    if weapon.cooldown == 0 {
      p.posx := p.posx + dirx * 16;
      p.posy := p.posy + diry * 16;
      var id := w.Add(EControl, p);
      r, fired := weapon.(cooldown := weapon.maxCooldown), true;
    }
  }

  /**
   * After firing, a weapon with a non-negative maximum is ready again after exactly `max_cooldown`
   * frames of `update_cooldown()`, and not one frame earlier.
   */
  lemma ReadyAgain(w: WeaponAttrs, n: nat)
    requires w.maxCooldown >= 0
    ensures Cooldowns(w.(cooldown := w.maxCooldown), n).cooldown == 0 <==> n >= w.maxCooldown
  {
    CooldownsCountDown(w.(cooldown := w.maxCooldown), n);
  }
}
