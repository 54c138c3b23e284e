/**
 * The server's character attributes and timed effects (server/models/Status.js). A stat is a
 * property of the status object, reached by name; an effect is added to its stat at once and taken
 * back when its duration runs out. The countdown differs from the client's in one point only: a
 * duration of 0 is not decremented. `PassAgrees` shows that one pass nevertheless ends the same way
 * as the client's pass, so the client's round trip carries over.
 */
module ServerStatus {
  import opened Common
  import Stats

  /** `Effect(stat, value, duration)` of the server, with the `applied` flag `add_effect` sets. */
  datatype JsEffect = JsEffect(stat: string, value: real, duration: int, applied: bool)

  /** `new Effect(stat, value, duration)`: not applied yet. */
  function NewJsEffect(stat: string, value: real, duration: int): (e: JsEffect)
    ensures e.stat == stat && e.value == value && e.duration == duration && !e.applied
  {
    JsEffect(stat, value, duration, false)
  }

  /** `if (effect.duration) effect.duration--`: a non-zero duration counts down, a zero one stays. */
  function Tock(e: JsEffect): (t: JsEffect)
    ensures t.stat == e.stat && t.value == e.value && t.applied == e.applied
    ensures e.duration != 0 ==> t.duration == e.duration - 1
    ensures e.duration == 0 ==> t.duration == 0
  {
    e.(duration := if e.duration != 0 then e.duration - 1 else e.duration)
  }

  /** The stat table after an expired effect is taken back: an applied effect subtracts its value. */
  function RevertJs(values: map<string, real>, e: JsEffect): (v: map<string, real>)
    ensures v.Keys == values.Keys
  {
    if e.applied && e.stat in values then values[e.stat := values[e.stat] - e.value] else values
  }

  /** The result of one `update_effects` call: the stat table and the effects still listed. */
  datatype JsTick = JsTick(values: map<string, real>, effects: seq<JsEffect>)

  /**
   * One `update_effects` call: the loop visits the effects of the list as it was when the call
   * began, in order; each counts down, and one at 0 or below is taken back and filtered out of the
   * list, the others staying in order.
   */
  function JsUpdateAll(values: map<string, real>, effects: seq<JsEffect>): (t: JsTick)
    ensures |t.effects| <= |effects|
    ensures t.values.Keys == values.Keys
  {
    if |effects| == 0 then JsTick(values, [])
    else JsStep(JsUpdateAll(values, effects[..|effects| - 1]), effects[|effects| - 1])
  }

  /** The loop body of `update_effects` for one effect: it counts down, and at 0 or below it is taken back and dropped. */
  function JsStep(before: JsTick, x: JsEffect): (t: JsTick)
    ensures |t.effects| <= |before.effects| + 1
    ensures t.values.Keys == before.values.Keys
  {
    var e := Tock(x);
    if e.duration <= 0 then JsTick(RevertJs(before.values, e), before.effects)
    else JsTick(before.values, before.effects + [e])
  }

  /** `n` consecutive `update_effects` calls. */
  function JsUpdateTimes(values: map<string, real>, effects: seq<JsEffect>, n: nat): JsTick
    decreases n
  {
    if n == 0 then JsTick(values, effects)
    else
      var t := JsUpdateAll(values, effects);
      JsUpdateTimes(t.values, t.effects, n - 1)
  }

  /** The server view of a client effect: its remaining ticks are the server's duration. */
  function FromPy(p: Stats.Effect): JsEffect {
    JsEffect(p.stat, p.value, p.remaining, p.applied)
  }

  /** The client view of a server effect, with its full duration still remaining. */
  function ToPy(e: JsEffect): Stats.Effect {
    Stats.Effect(e.stat, e.value, e.duration, e.duration, e.applied)
  }

  /** The server views of a list of client effects. */
  function FromPys(ps: seq<Stats.Effect>): (es: seq<JsEffect>)
    ensures |es| == |ps|
    ensures forall i :: 0 <= i < |ps| ==> es[i] == FromPy(ps[i])
  {
    seq(|ps|, i requires 0 <= i < |ps| => FromPy(ps[i]))
  }

  /** The client views of a list of server effects. */
  function ToPys(es: seq<JsEffect>): (ps: seq<Stats.Effect>)
    ensures |ps| == |es|
    ensures forall i :: 0 <= i < |es| ==> ps[i] == ToPy(es[i])
  {
    seq(|es|, i requires 0 <= i < |es| => ToPy(es[i]))
  }

  /** The server views of the client views give back the server effects. */
  lemma FromToPys(es: seq<JsEffect>)
    ensures FromPys(ToPys(es)) == es
  {
    assert forall i :: 0 <= i < |es| ==> FromPys(ToPys(es))[i] == es[i];
  }

  /** Both views map a list one effect at a time, so they distribute over appending one effect. */
  lemma ViewsAppend(ps: seq<Stats.Effect>, p: Stats.Effect, es: seq<JsEffect>, e: JsEffect)
    ensures FromPys(ps + [p]) == FromPys(ps) + [FromPy(p)]
    ensures ToPys(es + [e]) == ToPys(es) + [ToPy(e)]
  {
    assert (ps + [p])[..|ps|] == ps;
    assert (es + [e])[..|es|] == es;
  }

  /** The server view of a client pass result. */
  function Lift(t: Stats.Tick): JsTick {
    JsTick(t.values, FromPys(t.effects))
  }

  /** The client's loop body for one effect, as `Stats.UpdateAll` runs it. */
  function PyStep(before: Stats.Tick, p: Stats.Effect): Stats.Tick {
    var p' := p.(remaining := p.remaining - 1);
    if p'.remaining <= 0 then Stats.Tick(Stats.Revert(before.values, p'), before.effects)
    else Stats.Tick(before.values, before.effects + [p'])
  }

  /**
   * The two loop bodies agree on one effect: a client effect with 0 remaining drops to -1 where the
   * server's stays at 0, and both are taken back and dropped.
   */
  lemma StepAgrees(before: Stats.Tick, p: Stats.Effect)
    ensures JsStep(Lift(before), FromPy(p)) == Lift(PyStep(before, p))
  {
    var p' := p.(remaining := p.remaining - 1);
    var e := Tock(FromPy(p));
    assert RevertJs(before.values, e) == Stats.Revert(before.values, p');
    if p'.remaining > 0 {
      assert e == FromPy(p');
      ViewsAppend(before.effects, p', [], e);
    }
  }

  /**
   * One server pass does to a list what one client pass does to the corresponding client list:
   * the same stat table, and the survivors correspond.
   */
  lemma {:induction false} PassAgrees(values: map<string, real>, ps: seq<Stats.Effect>)
    ensures JsUpdateAll(values, FromPys(ps)) == Lift(Stats.UpdateAll(values, ps))
    decreases |ps|
  {
    if |ps| > 0 {
      var front := ps[..|ps| - 1];
      assert FromPys(ps)[..|ps| - 1] == FromPys(front);
      PassAgrees(values, front);
      StepAgrees(Stats.UpdateAll(values, front), ps[|ps| - 1]);
      assert Stats.UpdateAll(values, ps) == PyStep(Stats.UpdateAll(values, front), ps[|ps| - 1]);
    }
  }

  /** `n` server passes over a list agree with `n` client passes over the corresponding list. */
  lemma {:induction false} TimesAgree(values: map<string, real>, ps: seq<Stats.Effect>, n: nat)
    ensures JsUpdateTimes(values, FromPys(ps), n) ==
      Lift(Stats.UpdateTimes(values, ps, n))
    decreases n
  {
    if n > 0 {
      PassAgrees(values, ps);
      var t := Stats.UpdateAll(values, ps);
      TimesAgree(t.values, t.effects, n - 1);
      assert JsUpdateAll(values, FromPys(ps)) == JsTick(t.values, FromPys(t.effects));
      assert JsUpdateTimes(values, FromPys(ps), n) == JsUpdateTimes(t.values, FromPys(t.effects), n - 1);
      assert Stats.UpdateTimes(values, ps, n) == Stats.UpdateTimes(t.values, t.effects, n - 1);
    }
  }

  /** The number of calls an effect of duration `d` survives: `d`, and at least one. */
  function JsLifetime(e: JsEffect): (k: int)
    ensures k >= 1 && k >= e.duration
  {
    if e.duration < 1 then 1 else e.duration
  }

  /** The stat table with `delta` added to `stat`, which `add_effect` first creates as 0 when it is missing. */
  function AddTo(values: map<string, real>, stat: string, delta: real): (v: map<string, real>)
    ensures v.Keys == values.Keys + {stat}
    ensures v[stat] == (if stat in values then values[stat] else 0.0) + delta
  {
    values[stat := (if stat in values then values[stat] else 0.0) + delta]
  }

  /**
   * Round trip of `add_effect` on the server: once `max(duration, 1)` or more `update_effects` calls
   * have run, stats and effects are those the same calls give without the effect, except that a
   * stat the effect created remains, at 0.
   */
  lemma JsEffectRoundTrip(values: map<string, real>, effects: seq<JsEffect>, x: JsEffect, n: nat)
    requires n >= JsLifetime(x)
    ensures JsUpdateTimes(AddTo(values, x.stat, x.value), effects + [x.(applied := true)], n) ==
      JsUpdateTimes(AddTo(values, x.stat, 0.0), effects, n)
    ensures x.stat in values ==>
      JsUpdateTimes(AddTo(values, x.stat, x.value), effects + [x.(applied := true)], n) == JsUpdateTimes(values, effects, n)
  {
    var base := AddTo(values, x.stat, 0.0);
    var px := ToPy(x.(applied := true));
    var ps := ToPys(effects);
    assert AddTo(values, x.stat, x.value) == Stats.Shift(base, x.stat, x.value);
    Stats.EffectRoundTrip(base, ps, px, n);
    FromToPys(effects);
    ViewsAppend([], px, effects, x.(applied := true));
    FromToPys(effects + [x.(applied := true)]);
    TimesAgree(Stats.Shift(base, x.stat, x.value), ps + [px], n);
    TimesAgree(base, ps, n);
    if x.stat in values {
      assert base == values;
    }
  }

  /** A pass keeps only effects it was given a stat for: when every listed stat is in `names`, so is every kept one's. */
  lemma {:induction false} JsUpdateAllStats(values: map<string, real>, effects: seq<JsEffect>, names: set<string>)
    requires forall i :: 0 <= i < |effects| ==> effects[i].stat in names
    ensures forall i :: 0 <= i < |JsUpdateAll(values, effects).effects| ==> JsUpdateAll(values, effects).effects[i].stat in names
    decreases |effects|
  {
    if |effects| > 0 {
      var p := effects[..|effects| - 1];
      assert forall i :: 0 <= i < |p| ==> p[i] == effects[i];
      JsUpdateAllStats(values, p, names);
      var before, e := JsUpdateAll(values, p), effects[|effects| - 1];
      assert e.stat in names;
      var kept := JsUpdateAll(values, effects).effects;
      assert kept == before.effects || kept == before.effects + [Tock(e)];
    }
  }

  /** The properties `new Status(...)` sets, by name; `staminaRegen` is assigned twice, to the same value. */
  function JsStatTable(hp: real, maxHp: real, hpRegen: real, maxMana: real, mana: real, manaRegen: real,
                       stamina: real, maxStamina: real, staminaRegen: real, damage: real, critical: real,
                       defense: real, speed: real, aceleration: real): map<string, real>
  {
    map["maxHp" := maxHp, "hp" := hp, "hpRegen" := hpRegen, "maxMana" := maxMana, "mana" := mana,
        "manaRegen" := manaRegen, "maxStamina" := maxStamina, "stamina" := stamina,
        "staminaRegen" := staminaRegen, "damage" := damage, "critical" := critical,
        "defense" := defense, "speed" := speed, "aceleration" := aceleration]
  }

  /** The server `Status`: its numeric properties by name and the list `active_effects`. */
  class JsStatus {
    var values: map<string, real>
    var activeEffects: seq<JsEffect>

    /** Every listed effect's stat exists, as `add_effect` creates it. */
    ghost predicate Valid()
      reads this
    {
      forall i :: 0 <= i < |activeEffects| ==> activeEffects[i].stat in values
    }

    /** `new Status(hp, maxHp, hpRegen, maxMana, mana, ...)`: the fourteen properties and no effect. */
    constructor (hp: real, maxHp: real, hpRegen: real, maxMana: real, mana: real, manaRegen: real,
                 stamina: real, maxStamina: real, staminaRegen: real, damage: real, critical: real,
                 defense: real, speed: real, aceleration: real)
      ensures Valid()
      ensures values == JsStatTable(hp, maxHp, hpRegen, maxMana, mana, manaRegen, stamina, maxStamina,
                                    staminaRegen, damage, critical, defense, speed, aceleration)
      ensures activeEffects == []
    {
      values := JsStatTable(hp, maxHp, hpRegen, maxMana, mana, manaRegen, stamina, maxStamina,
                            staminaRegen, damage, critical, defense, speed, aceleration);
      activeEffects := [];
    }

    /** `get(stat)`: the property's value, or `null` when it is undefined. */
    function Get(stat: string): (r: Option<real>)
      reads this
      ensures r.Some? <==> stat in values
      ensures r.Some? ==> r.value == values[stat]
    {
      if stat in values then Some(values[stat]) else None
    }

    /** `buff(stat, value)`: adds `value` to a defined property; an undefined one is left undefined. */
    method Buff(stat: string, value: real)
      requires Valid()
      modifies this`values
      ensures Valid()
      ensures stat in old(values) ==> values == old(values)[stat := old(values)[stat] + value]
      ensures stat !in old(values) ==> values == old(values)
    {
      if stat in values {
        values := values[stat := values[stat] + value];
      }
    }

    /** `set(stat, value)` as written: its statement is a comparison `==`, so nothing changes. */
    method Set(stat: string, value: real)
      modifies this
      ensures values == old(values) && activeEffects == old(activeEffects)
    {
    }

    /** `set(stat, value)` with the evidently intended assignment: a defined property takes `value`. */
    method Assign(stat: string, value: real)
      requires Valid()
      modifies this`values
      ensures Valid()
      ensures stat in old(values) ==> Get(stat) == Some(value) && values == old(values)[stat := value]
      ensures stat !in old(values) ==> values == old(values)
    {
      if stat in values {
        values := values[stat := value];
      }
    }

    /**
     * `add_effect(effect)`: `this[stat] = (this[stat] || 0) + value`, so a missing stat is created;
     * the effect is marked applied and appended.
     */
    method AddEffect(e: JsEffect) returns (added: JsEffect)
      requires Valid()
      modifies this
      ensures Valid()
      ensures added == e.(applied := true)
      ensures values == AddTo(old(values), e.stat, e.value)
      ensures activeEffects == old(activeEffects) + [added]
    {
      added := e.(applied := true);
      values := values[e.stat := (if e.stat in values then values[e.stat] else 0.0) + e.value];
      activeEffects := activeEffects + [added];
    }

    /** `update_effects()`: the new stats and list are those of `JsUpdateAll`. */
    method UpdateEffects()
      requires Valid()
      modifies this
      ensures Valid()
      ensures JsTick(values, activeEffects) == JsUpdateAll(old(values), old(activeEffects))
    {
      var t := JsPass(values, activeEffects);
      JsUpdateAllStats(values, activeEffects, values.Keys);
      values, activeEffects := t.values, t.effects;
    }
  }

  /**
   * The loop of `update_effects`: it runs over the list as it was at the start while
   * `active_effects` is reassigned to a filtered copy, so every effect is visited once.
   */
  method JsPass(values: map<string, real>, effects: seq<JsEffect>) returns (t: JsTick)
    ensures t == JsUpdateAll(values, effects)
  {
    var vals := values;
    var kept: seq<JsEffect> := [];
    var i := 0;
    while i < |effects|
      invariant 0 <= i <= |effects|
      invariant JsTick(vals, kept) == JsUpdateAll(values, effects[..i])
    {
      var e := effects[i];
      if e.duration != 0 {
        e := e.(duration := e.duration - 1);
      }
      assert effects[..i + 1][..i] == effects[..i];
      if e.duration <= 0 {
        if e.applied && e.stat in vals {
          vals := vals[e.stat := vals[e.stat] - e.value];
        }
      } else {
        kept := kept + [e];
      }
      i := i + 1;
    }
    assert effects[..i] == effects;
    t := JsTick(vals, kept);
  }
}
