/** What ending a form guarantees, stated on `UntransformSpec`, and the arithmetic
    of the `hp` rescale it performs. */
module ExitProperties {
  import opened TransforTypes
  import opened EquipmentPolicy
  import opened StateMachine

  /** The `hp` divisor each form leaves behind: the multiplier its entry applied
      through `extra_hp`, or 10 where entry left `hp` alone. */
  function HpFactor(f: Form): int {
    match f
    case IceBeast => 12
    case Statue => 15
    case Dragon => 16
    case SerpentOfHell => 17
    case _ => 10
  }

  /** Whatever the form was, the character ends in its rest state: no form, no
      duration, the plain `@` glyph, every display flagged for redraw, `hp_max`
      recomputed for the natural body, and `hp` within [1, hp_max] whenever the
      form had scaled it. Undeath ends only with lichform, and the pack is untouched. */
  lemma UntransformRests(s: State, maxHp: Form -> int)
    requires WellFormed(s)
    ensures var t := UntransformSpec(s, maxHp);
      && t.form == None && t.durTransformation == 0
      && t.symbol == '@' && t.colour == LightGrey
      && t.redrawEvasion && t.redrawArmourClass && t.wieldChange
      && t.hpMax == maxHp(None)
      && (HpFactor(s.form) != 10 && maxHp(None) >= 1 ==> 1 <= t.hp <= t.hpMax)
      && t.undead == (if s.form == Lich then Alive else s.undead)
      && t.inv == s.inv
      && t.species == s.species && t.hunger == s.hunger
  {
  }

  /** With no form in effect (or the unknown one) nothing about the body changes:
      the stats and `hp` stay, and no divisor is applied. */
  lemma UntransformFromRestKeepsStats(s: State, maxHp: Form -> int)
    requires WellFormed(s) && (s.form == None || s.form == NumTransformations)
    ensures var t := UntransformSpec(s, maxHp);
      && t.strength == s.strength && t.dexterity == s.dexterity && t.hp == s.hp
      && t.durStoneskin == s.durStoneskin && t.durStonemail == s.durStonemail
      && t.durIcyArmour == s.durIcyArmour
  {
  }

  /** The stat changes each form undoes when it ends. */
  lemma UntransformStatChanges(s: State, maxHp: Form -> int)
    requires WellFormed(s)
    ensures var t := UntransformSpec(s, maxHp);
      && t.strength == s.strength - (match s.form
                                     case Statue => 2
                                     case Dragon => 10
                                     case Lich => 3
                                     case SerpentOfHell => 13
                                     case _ => 0)
      && t.dexterity == s.dexterity + (match s.form
                                       case Spider => -5
                                       case Statue => 2
                                       case Air => -8
                                       case _ => 0)
  {
  }

  /** Armour enchantments that merged with a form are left with one turn when it
      ends: stonemail and stoneskin after a statue, icy armour after an ice beast.
      No other form touches them, and the other durations the core reads stay. */
  lemma UntransformDurations(s: State, maxHp: Form -> int)
    requires WellFormed(s)
    ensures var t := UntransformSpec(s, maxHp);
      && t.durStonemail == (if s.form == Statue && s.durStonemail != 0 then 1 else s.durStonemail)
      && t.durStoneskin == (if s.form == Statue && s.durStoneskin != 0 then 1 else s.durStoneskin)
      && t.durIcyArmour == (if s.form == IceBeast && s.durIcyArmour != 0 then 1 else s.durIcyArmour)
      && t.durRegeneration == s.durRegeneration && t.durResistPoison == s.durResistPoison
      && t.durDeathsDoor == s.durDeathsDoor
  {
  }

  /** The `hp` left by `untransform`: rescaled by the divisor of the form that ended
      (the multiplier its entry applied) and clamped to [1, hp_max] for the natural
      body, or kept as it was for a form that never scaled it. */
  lemma UntransformHp(s: State, maxHp: Form -> int)
    requires WellFormed(s)
    ensures var t := UntransformSpec(s, maxHp);
      && RevertForm(ClearedForm(s), s.form).1 == HpFactor(s.form)
      && t.hp == if HpFactor(s.form) != 10 then RescaleHp(s.hp, HpFactor(s.form), maxHp(None)) else s.hp
  {
  }

  /** Naga and centaurs lose worn boots on leaving a form unless the boots are naga
      barding: the same barding test serves both species, and no other species
      loses anything. */
  lemma UntransformBootsRule(s: State, maxHp: Form -> int)
    requires WellFormed(s)
    ensures var t := UntransformSpec(s, maxHp);
      && (t.equip[Boots] == Empty <==>
            (s.equip[Boots] == Empty
             || ((s.species == Naga || s.species == Centaur) && !s.inv[s.equip[Boots]].nagaBarding)))
      && forall i :: 0 <= i < NumEquip && i != Boots ==> t.equip[i] == s.equip[i]
  {
    var b := RevertForm(ClearedForm(s), s.form).0;
    assert b.equip == s.equip && b.inv == s.inv && b.species == s.species;
    RemoveEquipmentEffect(b, BootsOnly());
  }

  /** Ending a form twice is ending it once. */
  lemma UntransformIdempotent(s: State, maxHp: Form -> int)
    requires WellFormed(s)
    ensures UntransformSpec(UntransformSpec(s, maxHp), maxHp) == UntransformSpec(s, maxHp)
  {
    var t := UntransformSpec(s, maxHp);
    UntransformBootsRule(s, maxHp);
    UntransformRests(s, maxHp);
    UntransformFromRestKeepsStats(t, maxHp);
    assert !BootsFallOff(t);
    var b := RevertForm(ClearedForm(t), t.form).0;
    assert b == ClearedForm(t);
    assert ClearedForm(t) == t;
  }

  /** Whole-number facts behind the `hp` round trip: when `a * m < b * m` with a
      positive `m`, then `a < b`. */
  lemma LessByFactor(a: int, b: int, m: int)
    requires m > 0 && a * m < b * m
    ensures a < b
  {
  }

  /** Scaling `hp` up by `m` tenths and back down by `m`, both with C division,
      loses at most one point and never gains one. */
  lemma ScaleRoundTrip(hp: int, m: int)
    requires hp >= 1 && m >= 10
    ensures var up := TruncDiv(hp * m, 10);
            hp - 1 <= TruncDiv(up * 10, m) <= hp
  {
    var up := TruncDiv(hp * m, 10);
    assert hp * m >= 10 by {
      assert hp * m - 10 == (hp - 1) * m + (m - 10);
      assert (hp - 1) * m >= 0;
    }
    assert up >= 1;
    var down := TruncDiv(up * 10, m);
    assert down * m <= up * 10 < down * m + m;
    assert up * 10 <= hp * m < up * 10 + 10;
    // Upper bound: down * m <= up * 10 <= hp * m.
    LessByFactor(down, hp + 1, m) by {
      assert (hp + 1) * m == hp * m + m;
    }
    // Lower bound: hp * m < up * 10 + 10 < down * m + m + 10 <= (down + 2) * m.
    LessByFactor(hp, down + 2, m) by {
      assert (down + 2) * m == down * m + m + m;
    }
  }
}
