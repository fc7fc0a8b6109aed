/** What `transform` guarantees, stated on `TransformSpec`: when it refuses, what
    a refusal may still have changed, the duration each form starts with, the
    equipment a new form keeps, and what entering and then leaving a form gives
    back. */
module EntryProperties {
  import opened TransforTypes
  import opened EquipmentPolicy
  import opened FormQueries
  import opened StateMachine
  import opened ExitProperties

  /** A form the entry switch knows. */
  predicate IsForm(f: Form) {
    f != None && f != NumTransformations
  }

  /** Turns a fresh form starts from, before the draws. */
  function EntryBase(f: Form): int {
    match f
    case Spider => 10
    case BladeHands => 10
    case IceBeast => 30
    case Air => 35
    case _ => 20
  }

  /** The cap on a fresh form's duration. */
  function EntryCap(f: Form): int {
    match f
    case Spider => 60
    case Air => 150
    case SerpentOfHell => 120
    case _ => 100
  }

  /** How many `random2(pow)` draws a fresh form adds to its base. */
  function EntryDraws(f: Form): nat {
    if f == BladeHands then 1 else 2
  }

  /** `extra_hp` recomputes the maximum for the form now in effect, never leaves
      `hp` above it, and with a multiplier of at least ten tenths never lowers a
      positive `hp` except down to that maximum. Nothing but `hp` and `hp_max` moves. */
  lemma ExtraHpBounds(s: State, amountExtra: int, maxHp: Form -> int)
    requires WellFormed(s)
    ensures var t := ExtraHpSpec(s, amountExtra, maxHp);
      && t.hpMax == maxHp(s.form) && t.hp <= t.hpMax
      && (amountExtra >= 10 && s.hp >= 0 ==> t.hp >= s.hp || t.hp == t.hpMax)
      && t.(hp := s.hp, hpMax := s.hpMax) == s
  {
    if amountExtra >= 10 && s.hp >= 0 {
      assert s.hp * amountExtra >= s.hp * 10 by {
        assert s.hp * amountExtra - s.hp * 10 == s.hp * (amountExtra - 10);
      }
    }
  }

  /** After `drop_everything` no pack entry holds anything; each entry keeps its
      other properties, and nothing outside the pack changes. */
  lemma DropEverythingEmptiesPack(s: State)
    requires WellFormed(s)
    ensures var t := DropEverythingSpec(s);
      && (forall k :: 0 <= k < EndOfPack ==>
            !IsValidItem(t.inv[k]) && t.inv[k].cursed == s.inv[k].cursed
            && t.inv[k].nagaBarding == s.inv[k].nagaBarding)
      && t.(inv := s.inv) == s
  {
  }

  /** A mer-creature in water can only become a dragon: any other request fails
      and changes nothing. */
  lemma SwimmingMerfolkOnlyDragon(s: State, which: Form, r1: int, r2: int, maxHp: Form -> int)
    requires WellFormed(s) && s.species == Merfolk && s.swimming
    ensures which != Dragon ==> TransformSpec(s, which, r1, r2, maxHp) == (false, s)
  {
  }

  /** Asking for the form already in effect only extends it: by the first draw,
      capped at 100 turns whatever the form's own entry cap, and only while fewer
      than 100 turns remain. Nothing else changes either way. */
  lemma ExtensionOnly(s: State, which: Form, r1: int, r2: int, maxHp: Form -> int)
    requires WellFormed(s) && s.form == which
    requires !(s.species == Merfolk && s.swimming && which != Dragon)
    ensures var res := TransformSpec(s, which, r1, r2, maxHp);
      && (res.0 <==> s.durTransformation < 100)
      && res.1 == s.(durTransformation := if res.0 then Capped(s.durTransformation + r1, 100)
                                          else s.durTransformation)
  {
  }

  /** What the draws add to a fresh form's base. */
  function DrawSum(f: Form, r1: int, r2: int): int {
    if f == BladeHands then r1 else r1 + r2
  }

  /** The draws add nothing negative and at most the largest draws `pow` allows. */
  lemma DrawSumBound(f: Form, pow: int, r1: int, r2: int)
    requires RandomDraw(pow, r1) && RandomDraw(pow, r2)
    ensures 0 <= DrawSum(f, r1, r2) <= EntryDraws(f) * MaxDraw(pow)
  {
  }

  /** The switch arm for `which` either refuses and changes nothing, or puts
      `which` in effect with its base plus draws, capped at its cap. */
  lemma EnterFormFields(s: State, which: Form, r1: int, r2: int, maxHp: Form -> int)
    requires WellFormed(s)
    ensures var res := EnterFormSpec(s, which, r1, r2, maxHp);
      && (res.0 ==> && IsForm(which) && res.1.form == which
                    && res.1.durTransformation == Capped(EntryBase(which) + DrawSum(which, r1, r2), EntryCap(which)))
      && (!res.0 ==> res.1 == s)
  {
  }

  /** A fresh form (not an extension) starts with its base plus its draws, capped
      at its own cap; so it lies in [base, cap] and never above base plus the
      largest draws `pow` allows. */
  lemma EntryDuration(s: State, which: Form, pow: int, r1: int, r2: int, maxHp: Form -> int)
    requires WellFormed(s) && s.form != which
    requires RandomDraw(pow, r1) && RandomDraw(pow, r2)
    ensures var res := TransformSpec(s, which, r1, r2, maxHp);
      res.0 ==>
        && IsForm(which) && res.1.form == which
        && EntryBase(which) <= res.1.durTransformation <= EntryCap(which)
        && res.1.durTransformation <= EntryBase(which) + EntryDraws(which) * MaxDraw(pow)
  {
    var res := TransformSpec(s, which, r1, r2, maxHp);
    var s1 := if s.form != None then UntransformSpec(s, maxHp) else s;
    if res.0 {
      assert res == EnterFormSpec(Preamble(s1), which, r1, r2, maxHp);
      EnterFormFields(Preamble(s1), which, r1, r2, maxHp);
      DrawSumBound(which, pow, r1, r2);
    }
  }

  /** What a refused transformation leaves: the old record untouched when the mer
      or extension guard refused; otherwise the old form has ended, and the switch's
      preamble (stoneskin gone, displays flagged) has also run unless the character
      was undead. */
  lemma RefusalOutcomes(s: State, which: Form, r1: int, r2: int, maxHp: Form -> int)
    requires WellFormed(s)
    ensures var s1 := if s.form != None then UntransformSpec(s, maxHp) else s;
            var res := TransformSpec(s, which, r1, r2, maxHp);
      !res.0 ==>
        res.1 == if (s.species == Merfolk && s.swimming && which != Dragon) || s.form == which then s
                 else if s1.undead != Alive then s1
                 else Preamble(s1)
  {
    var s1 := if s.form != None then UntransformSpec(s, maxHp) else s;
    if !(s.species == Merfolk && s.swimming && which != Dragon) && s.form != which && s1.undead == Alive {
      EnterFormFields(Preamble(s1), which, r1, r2, maxHp);
    }
  }

  /** When the per-form switch succeeds: exactly for a form it knows, except a lich
      at death's door and a spider or blade hands over a cursed requested item. */
  lemma EnterFormOutcome(s: State, which: Form, r1: int, r2: int, maxHp: Form -> int)
    requires WellFormed(s)
    ensures EnterFormSpec(s, which, r1, r2, maxHp).0 <==>
      && IsForm(which)
      && !(which == Lich && s.durDeathsDoor != 0)
      && !(which == Spider && CursedBlocks(s, AllSlots()))
      && !(which == BladeHands && CursedBlocks(s, BladeHandsRequest()))
  {
  }

  /** When `transform` switches to a new form it succeeds exactly when the character,
      after any old form has ended, is alive, the target is a known form, a lich is
      not at death's door and a spider or blade hands finds no cursed requested item;
      so ice beast, statue, dragon, air and serpent never fail a living character. A
      refusal leaves the old form ended, with the preamble run unless undead. */
  lemma TransformOutcome(s: State, which: Form, r1: int, r2: int, maxHp: Form -> int)
    requires WellFormed(s) && s.form != which
    requires !(s.species == Merfolk && s.swimming && which != Dragon)
    ensures var s1 := if s.form != None then UntransformSpec(s, maxHp) else s;
            var req := if which == Spider then AllSlots() else BladeHandsRequest();
            var res := TransformSpec(s, which, r1, r2, maxHp);
      && (res.0 <==> && s1.undead == Alive && IsForm(which)
                     && !(which == Lich && s1.durDeathsDoor != 0)
                     && !((which == Spider || which == BladeHands) && CursedBlocks(s1, req)))
      && (!res.0 ==> res.1 == if s1.undead != Alive then s1 else Preamble(s1))
  {
    var s1 := if s.form != None then UntransformSpec(s, maxHp) else s;
    if s1.undead == Alive {
      EnterFormOutcome(Preamble(s1), which, r1, r2, maxHp);
      EnterFormFields(Preamble(s1), which, r1, r2, maxHp);
    }
  }

  /** Undead characters cannot take a new form, and the refusal comes after the old
      form has ended. */
  lemma UndeadRefused(s: State, which: Form, r1: int, r2: int, maxHp: Form -> int)
    requires WellFormed(s) && s.form == None && s.undead != Alive && which != None
    ensures TransformSpec(s, which, r1, r2, maxHp) == (false, s)
  {
  }

  /** A refused switch out of a form still ends that form: the quirk that the old
      form is gone even though no new one was taken. */
  lemma RefusedSwitchEndsForm(s: State, which: Form, r1: int, r2: int, maxHp: Form -> int)
    requires WellFormed(s) && s.form != which && s.form != None
    requires !(s.species == Merfolk && s.swimming && which != Dragon)
    ensures var res := TransformSpec(s, which, r1, r2, maxHp);
      !res.0 ==> res.1.form == None && res.1.durTransformation == 0
  {
    TransformOutcome(s, which, r1, r2, maxHp);
    UntransformRests(s, maxHp);
  }

  /** Spider and Blade Hands are all or nothing: from the natural form they succeed
      exactly when no slot their request names holds a cursed item, and when they
      refuse, the equipment and stats are as they were. */
  lemma CurseVetoAllOrNothing(s: State, which: Form, r1: int, r2: int, maxHp: Form -> int)
    requires WellFormed(s) && s.form == None && s.undead == Alive
    requires which == Spider || which == BladeHands
    requires !(s.species == Merfolk && s.swimming)
    ensures var req := if which == Spider then AllSlots() else BladeHandsRequest();
            var res := TransformSpec(s, which, r1, r2, maxHp);
      && (res.0 <==> !CursedBlocks(s, req))
      && (!res.0 ==> res.1 == Preamble(s))
  {
  }

  /** The armour half of `NewFormKeepsOnlyPermittedArmour`, for the switch arm alone. */
  lemma EnterFormArmour(p: State, which: Form, r1: int, r2: int, maxHp: Form -> int)
    requires WellFormed(p)
    ensures var res := EnterFormSpec(p, which, r1, r2, maxHp);
      res.0 ==> forall i :: 0 <= i < LeftRing && res.1.equip[i] != Empty ==>
        i in FormPermitted(which) || (which == Statue && i == Boots)
  {
    match which {
      case BladeHands => RemoveEquipmentEffect(p, BladeHandsRequest());
      case Statue => RemoveEquipmentEffect(p, StatueRequest());
      case IceBeast => RemoveEquipmentEffect(p, IceBeastRequest());
      case Lich =>
      case None =>
      case NumTransformations =>
      case _ => RemoveEquipmentEffect(p, AllSlots());
    }
  }

  /** Every slot below the rings that a freshly entered form leaves occupied is one
      `can_equip` allows for that form, except a statue's boots: the statue
      request keeps them although `can_equip` refuses boots to a statue. */
  lemma NewFormKeepsOnlyPermittedArmour(s: State, which: Form, r1: int, r2: int, maxHp: Form -> int)
    requires WellFormed(s) && s.form != which
    ensures var res := TransformSpec(s, which, r1, r2, maxHp);
      res.0 ==> forall i :: 0 <= i < LeftRing && res.1.equip[i] != Empty ==>
        i in FormPermitted(which) || (which == Statue && i == Boots)
  {
    var s1 := if s.form != None then UntransformSpec(s, maxHp) else s;
    EnterFormArmour(Preamble(s1), which, r1, r2, maxHp);
  }

  /** A statue keeps its boots on although `can_equip` would not let it put them on. */
  lemma StatueKeepsUnwearableBoots(s: State, r1: int, r2: int, maxHp: Form -> int)
    requires WellFormed(s) && s.form == None && s.undead == Alive
    requires s.equip[Boots] != Empty
    requires !(s.species == Merfolk && s.swimming)
    ensures var res := TransformSpec(s, Statue, r1, r2, maxHp);
      res.0 && res.1.equip[Boots] == s.equip[Boots] && !CanEquip(res.1, true, Boots)
  {
  }

  /** An ice beast keeps only its cloak, and not even that over body armour: the
      request spares the cloak, but requested body armour takes the cloak along. */
  lemma IceBeastLosesCloakUnderBodyArmour(s: State, r1: int, r2: int, maxHp: Form -> int)
    requires WellFormed(s) && s.form == None && s.undead == Alive
    requires !(s.species == Merfolk && s.swimming)
    ensures var t := TransformSpec(s, IceBeast, r1, r2, maxHp).1;
      t.equip[Cloak] == (if s.equip[BodyArmour] != Empty then Empty else s.equip[Cloak])
  {
    RemoveEquipmentEffect(Preamble(s), IceBeastRequest());
  }

  /** Air drops the whole pack but leaves the ring and amulet slots as they were,
      so a worn ring or amulet names a pack entry whose quantity is now 0. */
  lemma AirStrandsJewellery(s: State, r1: int, r2: int, maxHp: Form -> int)
    requires WellFormed(s) && s.form == None && s.undead == Alive
    requires !(s.species == Merfolk && s.swimming)
    ensures var t := TransformSpec(s, Air, r1, r2, maxHp).1;
      && t.form == Air
      && (forall k :: 0 <= k < EndOfPack ==> !IsValidItem(t.inv[k]))
      && forall i :: LeftRing <= i < NumEquip ==>
           t.equip[i] == s.equip[i]
           && (s.equip[i] != Empty && IsValidItem(s.inv[s.equip[i]]) ==> t.inv[t.equip[i]].quantity == 0)
  {
    RemoveEquipmentEffect(Preamble(s), AllSlots());
  }

  /** Asking for "no form" while in the natural form takes the extension branch:
      it succeeds and leaves a running duration with no form in effect. */
  lemma NoneTargetExtends(s: State, r1: int, r2: int, maxHp: Form -> int)
    requires WellFormed(s) && s.form == None && s.durTransformation == 0
    requires !(s.species == Merfolk && s.swimming) && r1 > 0
    ensures var res := TransformSpec(s, None, r1, r2, maxHp);
      res.0 && res.1.form == None && res.1.durTransformation > 0
  {
  }

  /** A spider, whose fresh form is capped at 60 turns, can be extended past 60. */
  lemma SpiderExtendsPastEntryCap(s: State, r2: int, maxHp: Form -> int)
    requires WellFormed(s) && s.form == Spider && s.durTransformation == 60
    requires !(s.species == Merfolk && s.swimming)
    ensures TransformSpec(s, Spider, 30, r2, maxHp).1.durTransformation == 90 > EntryCap(Spider)
  {
  }

  /** An air form entered at its cap of 150 turns cannot be extended. */
  lemma LongAirCannotExtend(s: State, r1: int, r2: int, maxHp: Form -> int)
    requires WellFormed(s) && s.form == Air && s.durTransformation == 150
    ensures TransformSpec(s, Air, r1, r2, maxHp) == (false, s)
  {
  }

  /** Entering a form from the natural form and then leaving it gives back strength,
      dexterity and the undead state, and ends at rest. */
  lemma EnterLeaveRestoresStats(s: State, which: Form, r1: int, r2: int, maxHp: Form -> int)
    requires WellFormed(s) && s.form == None
    requires TransformSpec(s, which, r1, r2, maxHp).0
    ensures var u := UntransformSpec(TransformSpec(s, which, r1, r2, maxHp).1, maxHp);
      && u.strength == s.strength && u.dexterity == s.dexterity && u.undead == s.undead
      && u.form == None && u.durTransformation == 0
  {
    var t := TransformSpec(s, which, r1, r2, maxHp).1;
    UntransformStatChanges(t, maxHp);
    UntransformRests(t, maxHp);
    if which != None {
      EnterFormFields(Preamble(s), which, r1, r2, maxHp);
    }
  }

  /** Entering a form that scales `hp` and leaving it again costs at most one hit
      point and never adds one, provided the form's maximum left the scaled `hp`
      uncapped and `hp` started within the natural maximum. The bound rests on
      `calc_hp` (the parameter `maxHp`) leaving `hp` itself alone: were it to cap
      `hp` at the new maximum, a scaled `hp` above `maxHp(None)` would not survive. */
  lemma EnterLeaveHpRoundTrip(s: State, which: Form, r1: int, r2: int, maxHp: Form -> int)
    requires WellFormed(s) && s.form == None && s.undead == Alive
    requires !(s.species == Merfolk && s.swimming && which != Dragon)
    requires which == IceBeast || which == Statue || which == Dragon || which == SerpentOfHell
    requires 1 <= s.hp <= maxHp(None)
    requires TruncDiv(s.hp * HpFactor(which), 10) <= maxHp(which)
    ensures var t := TransformSpec(s, which, r1, r2, maxHp).1;
            var u := UntransformSpec(t, maxHp);
      && t.hp == TruncDiv(s.hp * HpFactor(which), 10)
      && s.hp - 1 <= u.hp <= s.hp && 1 <= u.hp
  {
    var t := TransformSpec(s, which, r1, r2, maxHp).1;
    assert t.form == which && t.hp == TruncDiv(s.hp * HpFactor(which), 10);
    UntransformHp(t, maxHp);
    ScaleRoundTrip(s.hp, HpFactor(which));
  }
}
