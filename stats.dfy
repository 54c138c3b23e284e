/**
 * The client's character attributes and timed effects (assets/classes/status.py):
 * fourteen numeric stats, reached by name, and a list of effects that are applied at once
 * and reverted when their tick count runs out.
 */
module Stats {
  import opened Common

  /** The numeric attributes a `Status` is built with. */
  const StatNames: set<string> := {
    "hp", "maxHp", "regenHp", "mana", "maxMana", "regenMana",
    "stamina", "maxStamina", "regenStamina", "damage", "critical", "defense", "speed", "ace"
  }

  /** A timed change of one stat: `remaining` ticks left, `applied` once the value has been added. */
  datatype Effect = Effect(stat: string, value: real, duration: int, remaining: int, applied: bool)

  /** `Effect(stat, value, duration)`: the countdown starts at the full duration and nothing is applied yet. */
  function NewEffect(stat: string, value: real, duration: int): (e: Effect)
    ensures e.stat == stat && e.value == value && e.duration == duration
    ensures e.remaining == duration && !e.applied
  {
    Effect(stat, value, duration, duration, false)
  }

  /** The stat table after one effect's revert: an applied effect gives its value back. */
  function Revert(values: map<string, real>, e: Effect): map<string, real>
  {
    if e.applied && e.stat in values then values[e.stat := values[e.stat] - e.value] else values
  }

  /** The result of one `update_effects` pass: the stat table and the effects still active. */
  datatype Tick = Tick(values: map<string, real>, effects: seq<Effect>)

  /**
   * One `update_effects` pass over `effects`, in list order: every effect's countdown drops by one;
   * one that reaches zero or less is reverted and dropped, the others are kept in order.
   */
  function UpdateAll(values: map<string, real>, effects: seq<Effect>): (t: Tick)
    ensures |t.effects| <= |effects|
    ensures t.values.Keys == values.Keys
  {
    if |effects| == 0 then Tick(values, [])
    else
      var before := UpdateAll(values, effects[..|effects| - 1]);
      var e := effects[|effects| - 1];
      var e' := e.(remaining := e.remaining - 1);
      if e'.remaining <= 0 then Tick(Revert(before.values, e'), before.effects)
      else Tick(before.values, before.effects + [e'])
  }

  /** A pass keeps only effects it was given: when every effect's stat is in `names`, so is every kept one's. */
  lemma {:induction false} UpdateAllStats(values: map<string, real>, effects: seq<Effect>, names: set<string>)
    requires forall i :: 0 <= i < |effects| ==> effects[i].stat in names
    ensures forall i :: 0 <= i < |UpdateAll(values, effects).effects| ==> UpdateAll(values, effects).effects[i].stat in names
    decreases |effects|
  {
    if |effects| > 0 {
      var p := effects[..|effects| - 1];
      assert forall i :: 0 <= i < |p| ==> p[i] == effects[i];
      UpdateAllStats(values, p, names);
      var before, e := UpdateAll(values, p), effects[|effects| - 1];
      assert e.stat in names;
      var kept := UpdateAll(values, effects).effects;
      assert kept == before.effects || kept == before.effects + [e.(remaining := e.remaining - 1)];
    }
  }

  /** `n` consecutive `update_effects` passes. */
  function UpdateTimes(values: map<string, real>, effects: seq<Effect>, n: nat): Tick
    decreases n
  {
    if n == 0 then Tick(values, effects)
    else
      var t := UpdateAll(values, effects);
      UpdateTimes(t.values, t.effects, n - 1)
  }

  /** The stat table with `delta` added to `stat`. */
  function Shift(values: map<string, real>, stat: string, delta: real): map<string, real>
    requires stat in values
  {
    values[stat := values[stat] + delta]
  }

  /** Reverting an applied effect gives back the shift it made. */
  lemma RevertShift(values: map<string, real>, e: Effect)
    requires e.applied && e.stat in values
    ensures Revert(Shift(values, e.stat, e.value), e) == values
  {
    var r := Revert(Shift(values, e.stat, e.value), e);
    assert r.Keys == values.Keys;
    assert forall k :: k in r ==> r[k] == values[k];
  }

  /** A revert and a shift of a stat commute. */
  lemma RevertShiftCommute(values: map<string, real>, e: Effect, stat: string, delta: real)
    requires stat in values
    ensures stat in Revert(values, e)
    ensures Revert(Shift(values, stat, delta), e) == Shift(Revert(values, e), stat, delta)
  {
    var a, b := Revert(Shift(values, stat, delta), e), Shift(Revert(values, e), stat, delta);
    assert a.Keys == b.Keys;
    assert forall k :: k in a ==> a[k] == b[k];
  }

  /** Shifting one stat before an update pass shifts it by the same amount after the pass, and leaves the surviving effects as they were. */
  lemma {:induction false} UpdateAllShift(values: map<string, real>, effects: seq<Effect>, stat: string, delta: real)
    requires stat in values
    ensures UpdateAll(Shift(values, stat, delta), effects) ==
      Tick(Shift(UpdateAll(values, effects).values, stat, delta), UpdateAll(values, effects).effects)
  {
    if |effects| > 0 {
      UpdateAllShift(values, effects[..|effects| - 1], stat, delta);
      var before := UpdateAll(values, effects[..|effects| - 1]);
      var e := effects[|effects| - 1];
      var e' := e.(remaining := e.remaining - 1);
      assert stat in before.values;
      RevertShiftCommute(before.values, e', stat, delta);
    }
  }

  /** A pass over a list with one more effect at its end processes that effect last, after the rest. */
  lemma UpdateAllAppend(values: map<string, real>, effects: seq<Effect>, x: Effect)
    ensures var before := UpdateAll(values, effects);
      var x' := x.(remaining := x.remaining - 1);
      UpdateAll(values, effects + [x]) ==
        if x'.remaining <= 0 then Tick(Revert(before.values, x'), before.effects)
        else Tick(before.values, before.effects + [x'])
  {
    assert (effects + [x])[..|effects|] == effects;
  }

  /** The number of passes an effect survives: its remaining ticks, and at least one. */
  function Lifetime(e: Effect): (k: int)
    ensures k >= 1 && k >= e.remaining
  {
    if e.remaining < 1 then 1 else e.remaining
  }

  /**
   * While an added effect is still active: the stat is off by its value and the effect, counted
   * down `n` times, sits at the end of the list.
   */
  predicate Pending(base: Tick, with: Tick, x: Effect, n: nat) {
    x.stat in base.values &&
    with == Tick(Shift(base.values, x.stat, x.value), base.effects + [x.(remaining := x.remaining - n)])
  }

  /**
   * Round trip of `add_effect`: applying an effect of `d` ticks and running `max(d, 1)` or more passes
   * gives exactly the stats and effect list that the same passes give without ever adding it;
   * before that the effect is `Pending`.
   */
  lemma {:induction false} EffectRoundTrip(values: map<string, real>, effects: seq<Effect>, x: Effect, n: nat)
    requires x.stat in values && x.applied
    ensures n < Lifetime(x) ==>
      Pending(UpdateTimes(values, effects, n), UpdateTimes(Shift(values, x.stat, x.value), effects + [x], n), x, n)
    ensures n >= Lifetime(x) ==>
      UpdateTimes(Shift(values, x.stat, x.value), effects + [x], n) == UpdateTimes(values, effects, n)
    decreases n
  {
    var base, with := UpdateTimes(values, effects, n), UpdateTimes(Shift(values, x.stat, x.value), effects + [x], n);
    if n == 0 {
      assert x.(remaining := x.remaining - n) == x;
      assert Pending(base, with, x, n);
    } else {
      var t := UpdateAll(values, effects);
      var sx := Shift(values, x.stat, x.value);
      UpdateAllShift(values, effects + [x], x.stat, x.value);
      UpdateAllAppend(values, effects, x);
      var x' := x.(remaining := x.remaining - 1);
      assert base == UpdateTimes(t.values, t.effects, n - 1);
      if x'.remaining <= 0 {
        RevertShift(t.values, x');
        RevertShiftCommute(t.values, x', x.stat, x.value);
        assert UpdateAll(sx, effects + [x]) == t;
        assert with == base && Lifetime(x) == 1;
      } else {
        var st := Shift(t.values, x'.stat, x'.value);
        assert st == Shift(t.values, x.stat, x.value);
        assert UpdateAll(sx, effects + [x]) == Tick(st, t.effects + [x']);
        assert with == UpdateTimes(st, t.effects + [x'], n - 1);
        EffectRoundTrip(t.values, t.effects, x', n - 1);
        assert Lifetime(x') == Lifetime(x) - 1;
        if n < Lifetime(x) {
          assert Pending(base, with, x', n - 1);
          assert x'.(remaining := x'.remaining - (n - 1)) == x.(remaining := x.remaining - n);
          assert Pending(base, with, x, n);
        } else {
          assert with == base;
        }
      }
    }
  }

  /** The client `Status`: the fourteen numeric stats by name, and the active effects in the order they were added. */
  class Status {
    var values: map<string, real>
    var activeEffects: seq<Effect>

    /** Exactly the fourteen stats exist, and every active effect names one of them. */
    ghost predicate Valid()
      reads this
    {
      values.Keys == StatNames &&
      forall i :: 0 <= i < |activeEffects| ==> activeEffects[i].stat in StatNames
    }

    /** `Status(hp, maxHp, ..., ace)`: each stat takes its argument and no effect is active. */
    constructor (hp: real, maxHp: real, regenHp: real, mana: real, maxMana: real, regenMana: real,
                 stamina: real, maxStamina: real, regenStamina: real, damage: real, critical: real,
                 defense: real, speed: real, ace: real)
      ensures Valid() && activeEffects == []
      ensures "hp" in values && values["hp"] == hp
      ensures values == map[
        "hp" := hp, "maxHp" := maxHp, "regenHp" := regenHp, "mana" := mana, "maxMana" := maxMana,
        "regenMana" := regenMana, "stamina" := stamina, "maxStamina" := maxStamina,
        "regenStamina" := regenStamina, "damage" := damage, "critical" := critical,
        "defense" := defense, "speed" := speed, "ace" := ace]
    {
      values := map[
        "hp" := hp, "maxHp" := maxHp, "regenHp" := regenHp, "mana" := mana, "maxMana" := maxMana,
        "regenMana" := regenMana, "stamina" := stamina, "maxStamina" := maxStamina,
        "regenStamina" := regenStamina, "damage" := damage, "critical" := critical,
        "defense" := defense, "speed" := speed, "ace" := ace];
      activeEffects := [];
    }

    /** `get(stat)`: the stat's value, or `None` for a name that is not a stat. */
    function Get(stat: string): (r: Option<real>)
      reads this
      ensures r.Some? <==> stat in values
      ensures r.Some? ==> r.value == values[stat]
    {
      if stat in values then Some(values[stat]) else None
    }

    /** `buff(stat, value)`: adds `value` to an existing stat; an unknown name changes nothing. */
    method Buff(stat: string, value: real)
      requires Valid()
      modifies this`values
      ensures Valid()
      ensures stat in StatNames ==> values == old(values)[stat := old(values)[stat] + value]
      ensures stat !in StatNames ==> values == old(values)
    {
      if stat in values {
        values := values[stat := values[stat] + value];
      }
    }

    /** `set(stat, value)`: overwrites an existing stat, so that `Get` then returns `value`; an unknown name changes nothing. */
    method Set(stat: string, value: real)
      requires Valid()
      modifies this`values
      ensures Valid()
      ensures stat in StatNames ==> Get(stat) == Some(value) && values == old(values)[stat := value]
      ensures stat !in StatNames ==> values == old(values)
    {
      if stat in values {
        values := values[stat := value];
      }
    }

    /**
     * `add_effect(buff)`: adds the value to the stat at once and appends the effect, marked applied.
     * A name that is not a stat raises AttributeError before anything changes (`ok` is false).
     */
    method AddEffect(e: Effect) returns (ok: bool, added: Effect)
      requires Valid()
      modifies this
      ensures Valid()
      ensures ok <==> e.stat in StatNames
      ensures added == e.(applied := true)
      ensures ok ==> values == Shift(old(values), e.stat, e.value) && activeEffects == old(activeEffects) + [added]
      ensures !ok ==> values == old(values) && activeEffects == old(activeEffects)
    {
      added := e.(applied := true);
      ok := e.stat in values;
      if ok {
        values := values[e.stat := values[e.stat] + e.value];
        activeEffects := activeEffects + [added];
      }
    }

    /**
     * `update_effects()`: one pass over a copy of the list, so that removing an effect skips none;
     * the new stats and list are those of `UpdateAll`.
     */
    method UpdateEffects()
      requires Valid()
      modifies this
      ensures Valid()
      ensures Tick(values, activeEffects) == UpdateAll(old(values), old(activeEffects))
    {
      var t := Pass(values, activeEffects);
      UpdateAllStats(values, activeEffects, StatNames);
      values, activeEffects := t.values, t.effects;
    }
  }

  /**
   * The loop of `update_effects`: each effect of the copied list in turn counts down; one that runs
   * out is reverted and dropped, and the others are kept in order.
   */
  method Pass(values: map<string, real>, effects: seq<Effect>) returns (t: Tick)
    ensures t == UpdateAll(values, effects)
  {
    var vals := values;
    var kept: seq<Effect> := [];
    var i := 0;
    while i < |effects|
      invariant 0 <= i <= |effects|
      invariant Tick(vals, kept) == UpdateAll(values, effects[..i])
    {
      var e := effects[i].(remaining := effects[i].remaining - 1);
      assert effects[..i + 1][..i] == effects[..i];
      if e.remaining <= 0 {
        vals := Revert(vals, e);
      } else {
        kept := kept + [e];
      }
      i := i + 1;
    }
    assert effects[..i] == effects;
    t := Tick(vals, kept);
  }
}
