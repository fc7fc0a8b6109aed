/** The player record `you` and the operations of transfor.cc that update it in
    place. Each method follows the C++ statement by statement and is proved to
    leave the record as the matching function of `StateMachine` or
    `EquipmentPolicy` says. */
module PlayerRecord {
  import opened TransforTypes
  import opened EquipmentPolicy
  import opened StateMachine

  class Player {
    var form: Form
    var durTransformation: int
    var durStoneskin: int
    var durStonemail: int
    var durIcyArmour: int
    var durRegeneration: int
    var durResistPoison: int
    /** Read by the core but never written by it. */
    const durDeathsDoor: int
    var strength: int
    var dexterity: int
    var hp: int
    var hpMax: int
    var undead: UndeadState
    var hunger: HungerState
    var symbol: char
    var colour: Colour
    var wieldChange: bool
    var redrawEvasion: bool
    var redrawArmourClass: bool
    // The body the character was born with and its mutations: read by the core,
    // never written by it.
    const species: Species
    const swimming: bool
    const horns: int
    const hooves: int
    const claws: int
    /** `you.equip`: an index into `inv`, or `Empty`. */
    var equip: seq<int>
    /** `you.inv`. */
    var inv: seq<Item>

    /** The record as a value. */
    function Snap(): State
      reads this
    {
      State(form, durTransformation, durStoneskin, durStonemail, durIcyArmour,
            durRegeneration, durResistPoison, durDeathsDoor, strength, dexterity,
            hp, hpMax, undead, hunger, symbol, colour, wieldChange, redrawEvasion,
            redrawArmourClass, species, swimming, horns, hooves, claws, equip, inv)
    }

    ghost predicate Valid()
      reads this
    {
      WellFormed(Snap())
    }

    /** A record holding the given values. */
    constructor (s: State)
      requires WellFormed(s)
      ensures Valid() && Snap() == s
    {
      form, durTransformation := s.form, s.durTransformation;
      durStoneskin, durStonemail, durIcyArmour := s.durStoneskin, s.durStonemail, s.durIcyArmour;
      durRegeneration, durResistPoison, durDeathsDoor := s.durRegeneration, s.durResistPoison, s.durDeathsDoor;
      strength, dexterity, hp, hpMax := s.strength, s.dexterity, s.hp, s.hpMax;
      undead, hunger, symbol, colour := s.undead, s.hunger, s.symbol, s.colour;
      wieldChange, redrawEvasion, redrawArmourClass := s.wieldChange, s.redrawEvasion, s.redrawArmourClass;
      species, swimming := s.species, s.swimming;
      horns, hooves, claws := s.horns, s.hooves, s.claws;
      equip, inv := s.equip, s.inv;
    }

    /** `remove_equipment`: the request is first expanded by the dependency rules,
        then the requested weapon and armour come off. It never fails. */
    method RemoveEquipment(removeStuff: seq<bool>) returns (ok: bool)
      requires Valid() && |removeStuff| == RequestLength
      modifies this`wieldChange, this`equip
      ensures Valid() && ok
      ensures Snap() == RemoveEquipmentSpec(old(Snap()), removeStuff)
    {
      var req := removeStuff;
      if req[BodyArmour] && equip[BodyArmour] != Empty {
        req := req[Cloak := true];
      }
      if req[Gloves] && equip[Gloves] != Empty {
        req := req[Weapon := true];
      }
      assert req == ExpandRequest(removeStuff, equip);

      ghost var before := equip;
      if req[Weapon] && equip[Weapon] != Empty {
        equip := equip[Weapon := Empty];
        wieldChange := true;
      }

      var i := Cloak;
      while i < LeftRing
        modifies this`equip
        invariant |equip| == NumEquip
        invariant Cloak <= i <= LeftRing
        invariant forall k :: 0 <= k < NumEquip ==>
          equip[k] == if k < i && req[k] then Empty else before[k]
      {
        if req[i] && equip[i] != Empty {
          equip := equip[i := Empty];
        }
        i := i + 1;
      }
      assert equip == Stripped(before, req);
      ok := true;
    }

    /** `check_for_cursed_equipment`: reads the record and changes nothing. */
    method CheckForCursedEquipment(removeStuff: seq<bool>) returns (cursed: bool)
      requires Valid() && |removeStuff| == RequestLength
      ensures cursed == CursedBlocks(Snap(), removeStuff)
    {
      var i := Weapon;
      while i < LeftRing
        invariant Weapon <= i <= LeftRing
        invariant forall k :: Weapon <= k < i ==>
          !(removeStuff[k] && equip[k] != Empty && inv[equip[k]].cursed)
      {
        if removeStuff[i] && equip[i] != Empty && inv[equip[i]].cursed {
          return true;
        }
        i := i + 1;
      }
      return false;
    }

    /** `calc_hp`, as far as this core is concerned: `hp_max` becomes the maximum
        for the current form. */
    method CalcHp(maxHp: Form -> int)
      modifies this`hpMax
      ensures hpMax == maxHp(form)
    {
      hpMax := maxHp(form);
    }

    /** `extra_hp`. */
    method ExtraHp(amountExtra: int, maxHp: Form -> int)
      requires Valid()
      modifies this`hp, this`hpMax
      ensures Valid()
      ensures Snap() == ExtraHpSpec(old(Snap()), amountExtra, maxHp)
    {
      CalcHp(maxHp);
      hp := hp * amountExtra;
      hp := TruncDiv(hp, 10);
      if hp > hpMax {
        hp := hpMax;
      }
    }

    /** `drop_everything`: every valid pack entry goes to the floor, leaving
        quantity 0 behind. */
    method DropEverything()
      requires Valid()
      modifies this`inv
      ensures Valid()
      ensures Snap() == DropEverythingSpec(old(Snap()))
    {
      var i := 0;
      while i < |inv|
        modifies this`inv
        invariant |inv| == EndOfPack && 0 <= i <= |inv|
        invariant forall k :: 0 <= k < |inv| ==>
          inv[k] == if k < i && IsValidItem(old(inv[k])) then old(inv[k]).(quantity := 0) else old(inv[k])
      {
        if IsValidItem(inv[i]) {
          inv := inv[i := inv[i].(quantity := 0)];
        }
        i := i + 1;
      }
      assert inv == Dropped(old(inv));
    }

    /** The per-form switch of `untransform`: undoes the stat changes of the form
        that ended and picks the `hp` divisor. */
    method RevertBody(oldForm: Form) returns (hpDownscale: int)
      modifies this`dexterity, this`strength, this`durStonemail, this`durStoneskin,
               this`durIcyArmour, this`undead, this`wieldChange
      ensures (Snap(), hpDownscale) == RevertForm(old(Snap()), oldForm)
    {
      hpDownscale := 10;
      match oldForm {
        case Spider =>
          dexterity := dexterity - 5;
        case BladeHands =>
          wieldChange := true;
        case Statue =>
          dexterity := dexterity + 2;
          strength := strength - 2;
          if durStonemail != 0 { durStonemail := 1; }
          if durStoneskin != 0 { durStoneskin := 1; }
          hpDownscale := 15;
        case IceBeast =>
          if durIcyArmour != 0 { durIcyArmour := 1; }
          hpDownscale := 12;
        case Dragon =>
          strength := strength - 10;
          hpDownscale := 16;
        case Lich =>
          strength := strength - 3;
          undead := Alive;
        case Air =>
          dexterity := dexterity - 8;
        case SerpentOfHell =>
          strength := strength - 13;
          hpDownscale := 17;
        case _ =>
      }
    }

    /** The naga/centaur cleanup of `untransform`: boots that are not naga barding
        come off. */
    method ShedBoots(remStuff: seq<bool>)
      requires Valid() && remStuff == NoSlots()
      modifies this`wieldChange, this`equip
      ensures Valid()
      ensures Snap() == BootsCleanup(old(Snap()))
    {
      if (species == Naga || species == Centaur)
         && equip[Boots] != Empty && !inv[equip[Boots]].nagaBarding
      {
        var req := remStuff[Boots := true];
        var _ := RemoveEquipment(req);
      }
    }

    /** The end of `untransform`: `calc_hp`, then `hp` is scaled back by
        `hpDownscale` tenths and kept within [1, hp_max]. */
    method RestoreHp(hpDownscale: int, maxHp: Form -> int)
      requires hpDownscale > 0
      modifies this`hp, this`hpMax
      ensures Snap() == HpAfterRevert(old(Snap()), hpDownscale, maxHp)
    {
      CalcHp(maxHp);
      if hpDownscale != 10 {
        hp := TruncDiv(hp * 10, hpDownscale);
        if hp < 1 {
          hp := 1;
        } else if hp > hpMax {
          hp := hpMax;
        }
      }
    }

    /** `untransform`. */
    method Untransform(maxHp: Form -> int)
      requires Valid()
      modifies this
      ensures Valid()
      ensures Snap() == UntransformSpec(old(Snap()), maxHp)
    {
      var remStuff := NewRequest(false);

      redrawEvasion, redrawArmourClass, wieldChange := true, true, true;
      symbol, colour := '@', LightGrey;

      // The form is cleared before the per-form code runs.
      var oldForm := form;
      form := None;
      durTransformation := 0;

      var hpDownscale := RevertBody(oldForm);
      ShedBoots(remStuff);
      RestoreHp(hpDownscale, maxHp);
    }

    /** `transform(pow, which)`; `r1` and `r2` are its `random2(pow)` draws. */
    method Transform(pow: int, which: Form, r1: int, r2: int, maxHp: Form -> int) returns (ok: bool)
      requires Valid() && RandomDraw(pow, r1) && RandomDraw(pow, r2)
      modifies this
      ensures Valid()
      ensures (ok, Snap()) == TransformSpec(old(Snap()), which, r1, r2, maxHp)
    {
      if species == Merfolk && swimming && which != Dragon {
        return false;
      }

      // Extension comes before the old form is ended and before the undead check.
      if form == which {
        ok := Extend(r1);
        return;
      }

      if form != None {
        Untransform(maxHp);
      }
      ok := Start(which, r1, r2, maxHp);
    }

    /** The extension branch of `transform`. */
    method Extend(r1: int) returns (ok: bool)
      modifies this`durTransformation
      ensures (ok, Snap()) == ExtendSpec(old(Snap()), r1)
    {
      if durTransformation < 100 {
        durTransformation := durTransformation + r1;
        if durTransformation > 100 {
          durTransformation := 100;
        }
        return true;
      } else {
        return false;
      }
    }

    /** `transform` after any old form has ended: the undead check and the common
        preamble of the per-form switch. */
    method Start(which: Form, r1: int, r2: int, maxHp: Form -> int) returns (ok: bool)
      requires Valid()
      modifies this
      ensures Valid()
      ensures (ok, Snap()) == StartSpec(old(Snap()), which, r1, r2, maxHp)
    {
      if undead != Alive {
        return false;
      }

      durStoneskin := 0;
      var remStuff := NewRequest(true);
      redrawEvasion, redrawArmourClass, wieldChange := true, true, true;

      ok := EnterForm(which, remStuff, r1, r2, maxHp);
    }

    /** The per-form switch of `transform`; it can still fail for Spider and Blade
        Hands (cursed equipment), Lich (death's door) and a target that is no form. */
    method EnterForm(which: Form, remStuff: seq<bool>, r1: int, r2: int, maxHp: Form -> int)
      returns (ok: bool)
      requires Valid() && remStuff == AllSlots()
      modifies this
      ensures Valid()
      ensures (ok, Snap()) == EnterFormSpec(old(Snap()), which, r1, r2, maxHp)
    {
      match which {
        case Spider => ok := BecomeSpider(remStuff, r1, r2);
        case IceBeast => ok := BecomeIceBeast(remStuff, r1, r2, maxHp);
        case BladeHands => ok := BecomeBladeHands(remStuff, r1);
        case Statue => ok := BecomeStatue(remStuff, r1, r2, maxHp);
        case Dragon => ok := BecomeDragon(remStuff, r1, r2, maxHp);
        case Lich => ok := BecomeLich(r1, r2);
        case Air => ok := BecomeAir(remStuff, r1, r2);
        case SerpentOfHell => ok := BecomeSerpent(remStuff, r1, r2, maxHp);
        case None => ok := false;
        case NumTransformations => ok := false;
      }
    }

    /** `case TRAN_SPIDER`. */
    method BecomeSpider(remStuff: seq<bool>, r1: int, r2: int) returns (ok: bool)
      requires Valid() && remStuff == AllSlots()
      modifies this
      ensures Valid()
      ensures (ok, Snap()) == EnterSpider(old(Snap()), r1, r2)
    {
      var cursed := CheckForCursedEquipment(remStuff);
      if cursed {
        return false;
      }
      var _ := RemoveEquipment(remStuff);
      form := Spider;
      durTransformation := 10 + r1 + r2;
      if durTransformation > 60 { durTransformation := 60; }
      dexterity := dexterity + 5;
      symbol, colour := 's', Brown;
      return true;
    }

    /** `case TRAN_ICE_BEAST`. */
    method BecomeIceBeast(remStuff: seq<bool>, r1: int, r2: int, maxHp: Form -> int) returns (ok: bool)
      requires Valid() && remStuff == AllSlots()
      modifies this
      ensures Valid()
      ensures (ok, Snap()) == EnterIceBeast(old(Snap()), r1, r2, maxHp)
    {
      var req := remStuff[Cloak := false];
      var _ := RemoveEquipment(req);
      form := IceBeast;
      durTransformation := 30 + r1 + r2;
      if durTransformation > 100 { durTransformation := 100; }
      ExtraHp(12, maxHp);
      symbol, colour := 'I', White;
      return true;
    }

    /** `case TRAN_BLADE_HANDS`: only the first draw is used. */
    method BecomeBladeHands(remStuff: seq<bool>, r1: int) returns (ok: bool)
      requires Valid() && remStuff == AllSlots()
      modifies this
      ensures Valid()
      ensures (ok, Snap()) == EnterBladeHands(old(Snap()), r1)
    {
      var req := remStuff[Cloak := false][Helmet := false][Boots := false][BodyArmour := false];
      var cursed := CheckForCursedEquipment(req);
      if cursed {
        return false;
      }
      var _ := RemoveEquipment(req);
      form := BladeHands;
      durTransformation := 10 + r1;
      if durTransformation > 100 { durTransformation := 100; }
      return true;
    }

    /** `case TRAN_STATUE`. */
    method BecomeStatue(remStuff: seq<bool>, r1: int, r2: int, maxHp: Form -> int) returns (ok: bool)
      requires Valid() && remStuff == AllSlots()
      modifies this
      ensures Valid()
      ensures (ok, Snap()) == EnterStatue(old(Snap()), r1, r2, maxHp)
    {
      var req := remStuff[Weapon := false][Cloak := false][Helmet := false][Boots := false];
      var _ := RemoveEquipment(req);
      form := Statue;
      durTransformation := 20 + r1 + r2;
      if durTransformation > 100 { durTransformation := 100; }
      dexterity := dexterity - 2;
      strength := strength + 2;
      ExtraHp(15, maxHp);
      symbol, colour := '8', LightGrey;
      return true;
    }

    /** `case TRAN_DRAGON`. */
    method BecomeDragon(remStuff: seq<bool>, r1: int, r2: int, maxHp: Form -> int) returns (ok: bool)
      requires Valid() && remStuff == AllSlots()
      modifies this
      ensures Valid()
      ensures (ok, Snap()) == EnterDragon(old(Snap()), r1, r2, maxHp)
    {
      var _ := RemoveEquipment(remStuff);
      form := Dragon;
      durTransformation := 20 + r1 + r2;
      if durTransformation > 100 { durTransformation := 100; }
      strength := strength + 10;
      ExtraHp(16, maxHp);
      symbol, colour := 'D', Green;
      return true;
    }

    /** `case TRAN_LICH`: refused at death's door; no equipment comes off. */
    method BecomeLich(r1: int, r2: int) returns (ok: bool)
      requires Valid()
      modifies this
      ensures Valid()
      ensures (ok, Snap()) == EnterLich(old(Snap()), r1, r2)
    {
      if durDeathsDoor != 0 {
        return false;
      }
      if durRegeneration != 0 {
        durRegeneration := 0;
      }
      durResistPoison := 0;
      form := Lich;
      durTransformation := 20 + r1 + r2;
      if durTransformation > 100 { durTransformation := 100; }
      strength := strength + 3;
      symbol, colour := 'L', LightGrey;
      undead := Undead;
      hunger := Satiated;
      return true;
    }

    /** `case TRAN_AIR`: everything comes off and the whole pack is dropped. */
    method BecomeAir(remStuff: seq<bool>, r1: int, r2: int) returns (ok: bool)
      requires Valid() && remStuff == AllSlots()
      modifies this
      ensures Valid()
      ensures (ok, Snap()) == EnterAir(old(Snap()), r1, r2)
    {
      var _ := RemoveEquipment(remStuff);
      DropEverything();
      form := Air;
      durTransformation := 35 + r1 + r2;
      if durTransformation > 150 { durTransformation := 150; }
      dexterity := dexterity + 8;
      symbol, colour := '#', DarkGrey;
      return true;
    }

    /** `case TRAN_SERPENT_OF_HELL`. */
    method BecomeSerpent(remStuff: seq<bool>, r1: int, r2: int, maxHp: Form -> int) returns (ok: bool)
      requires Valid() && remStuff == AllSlots()
      modifies this
      ensures Valid()
      ensures (ok, Snap()) == EnterSerpent(old(Snap()), r1, r2, maxHp)
    {
      var _ := RemoveEquipment(remStuff);
      form := SerpentOfHell;
      durTransformation := 20 + r1 + r2;
      if durTransformation > 120 { durTransformation := 120; }
      strength := strength + 13;
      ExtraHp(17, maxHp);
      symbol, colour := 'S', Red;
      return true;
    }
  }

  /** The loop that fills a fresh removal request with `value`. */
  method NewRequest(value: bool) returns (req: seq<bool>)
    ensures |req| == RequestLength
    ensures forall k :: 0 <= k < RequestLength ==> req[k] == value
  {
    req := [];
    var i := Weapon;
    while i < RightRing
      invariant Weapon <= i <= RightRing && |req| == i
      invariant forall k :: 0 <= k < i ==> req[k] == value
    {
      req := req + [value];
      i := i + 1;
    }
  }
}
