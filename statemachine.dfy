/** The transformation state machine on `State` snapshots: `extra_hp`,
    `drop_everything`, `untransform` and `transform`, each the function that the
    corresponding `Player` method is proved to implement.

    Collaborators this file cannot see are inputs: `calc_hp` recomputes `hp_max`
    as `maxHp(form)` for the form in effect at that moment, and every `random2(pow)`
    draw is a parameter `r` with `RandomDraw(pow, r)`. */
module StateMachine {
  import opened TransforTypes
  import opened EquipmentPolicy

  /** `if (x > cap) x = cap;` */
  function Capped(x: int, cap: int): (y: int)
    ensures y <= cap && y <= x && (y == x || y == cap)
  {
    if x > cap then cap else x
  }

  /** `extra_hp(amountExtra)`: recompute `hp_max`, scale `hp` by `amountExtra`
      tenths (C division), then let `deflate_hp(hp_max, false)` lower `hp` to
      `hp_max` if it is above it. */
  function ExtraHpSpec(s: State, amountExtra: int, maxHp: Form -> int): (t: State)
    requires WellFormed(s)
    ensures WellFormed(t)
  {
    var recalculated := s.(hpMax := maxHp(s.form));
    var scaled := TruncDiv(recalculated.hp * amountExtra, 10);
    recalculated.(hp := if scaled > recalculated.hpMax then recalculated.hpMax else scaled)
  }

  /** The pack after `drop_everything`: every valid entry has quantity 0. */
  function Dropped(inv: seq<Item>): (d: seq<Item>)
  {
    seq(|inv|, i requires 0 <= i < |inv| =>
      if IsValidItem(inv[i]) then inv[i].(quantity := 0) else inv[i])
  }

  function DropEverythingSpec(s: State): (t: State)
    requires WellFormed(s)
    ensures WellFormed(t)
  {
    s.(inv := Dropped(s.inv))
  }

  /** The `hp` rescale at the end of `untransform`: `hp * 10 / hpDownscale` (C
      division), raised to 1 if below it, else lowered to `hpMax` if above it. */
  function RescaleHp(hp: int, hpDownscale: int, hpMax: int): (h: int)
    requires hpDownscale > 0
    ensures hpMax >= 1 ==> 1 <= h <= hpMax
    ensures 1 <= TruncDiv(hp * 10, hpDownscale) <= hpMax ==> h == TruncDiv(hp * 10, hpDownscale)
  {
    var h := TruncDiv(hp * 10, hpDownscale);
    if h < 1 then 1 else if h > hpMax then hpMax else h
  }

  /** `if (d) d = 1;`: an armour enchantment that merged with the form is left
      with one turn. */
  function Downgraded(d: int): int {
    if d != 0 then 1 else d
  }

  /** The per-form switch of `untransform`: the reverted state and `hp_downscale`. */
  function RevertForm(s: State, oldForm: Form): (State, int)
  {
    match oldForm
    case Spider => (s.(dexterity := s.dexterity - 5), 10)
    case BladeHands => (s.(wieldChange := true), 10)
    case Statue =>
      (s.(dexterity := s.dexterity + 2, strength := s.strength - 2,
          durStonemail := Downgraded(s.durStonemail), durStoneskin := Downgraded(s.durStoneskin)), 15)
    case IceBeast => (s.(durIcyArmour := Downgraded(s.durIcyArmour)), 12)
    case Dragon => (s.(strength := s.strength - 10), 16)
    case Lich => (s.(strength := s.strength - 3, undead := Alive), 10)
    case Air => (s.(dexterity := s.dexterity - 8), 10)
    case SerpentOfHell => (s.(strength := s.strength - 13), 17)
    case _ => (s, 10)
  }

  /** The naga/centaur cleanup of `untransform`: boots are worn and are not naga
      barding (the test is the same for both species). */
  predicate BootsFallOff(s: State)
    requires WellFormed(s)
  {
    && (s.species == Naga || s.species == Centaur)
    && s.equip[Boots] != Empty
    && !s.inv[s.equip[Boots]].nagaBarding
  }

  /** A request naming only the boots. */
  function BootsOnly(): (req: seq<bool>)
    ensures |req| == RequestLength
  {
    NoSlots()[Boots := true]
  }

  /** The first steps of `untransform`: the redraw flags are raised, the glyph is
      reset and the form and its duration are cleared. */
  function ClearedForm(s: State): (t: State)
  {
    s.(redrawEvasion := true, redrawArmourClass := true, wieldChange := true,
       symbol := '@', colour := LightGrey, form := None, durTransformation := 0)
  }

  /** The naga/centaur boots cleanup of `untransform`. */
  function BootsCleanup(s: State): (t: State)
    requires WellFormed(s)
    ensures WellFormed(t)
  {
    if BootsFallOff(s) then RemoveEquipmentSpec(s, BootsOnly()) else s
  }

  /** The last steps of `untransform`: `calc_hp`, then the rescale of `hp` when the
      form had changed the divisor. */
  function HpAfterRevert(s: State, hpDownscale: int, maxHp: Form -> int): (t: State)
    requires hpDownscale > 0
  {
    var d := s.(hpMax := maxHp(s.form));
    if hpDownscale != 10 then d.(hp := RescaleHp(d.hp, hpDownscale, d.hpMax)) else d
  }

  /** The player after `untransform()`. */
  function UntransformSpec(s: State, maxHp: Form -> int): (t: State)
    requires WellFormed(s)
    ensures WellFormed(t)
  {
    var (b, hpDownscale) := RevertForm(ClearedForm(s), s.form);
    HpAfterRevert(BootsCleanup(b), hpDownscale, maxHp)
  }

  /** Removal request of Blade Hands: everything but cloak, helmet, boots and body armour. */
  function BladeHandsRequest(): (req: seq<bool>)
    ensures |req| == RequestLength
  {
    AllSlots()[Cloak := false][Helmet := false][Boots := false][BodyArmour := false]
  }

  /** Removal request of Statue: everything but weapon, cloak, helmet and boots. */
  function StatueRequest(): (req: seq<bool>)
    ensures |req| == RequestLength
  {
    AllSlots()[Weapon := false][Cloak := false][Helmet := false][Boots := false]
  }

  /** Removal request of Ice Beast: everything but the cloak. */
  function IceBeastRequest(): (req: seq<bool>)
    ensures |req| == RequestLength
  {
    AllSlots()[Cloak := false]
  }

  /** `case TRAN_SPIDER`: refused when a requested slot holds a cursed item;
      otherwise everything comes off. */
  function EnterSpider(s: State, r1: int, r2: int): (res: (bool, State))
    requires WellFormed(s)
    ensures WellFormed(res.1)
  {
    if CursedBlocks(s, AllSlots()) then (false, s)
    else
      var t := RemoveEquipmentSpec(s, AllSlots());
      (true, t.(form := Spider, durTransformation := Capped(10 + r1 + r2, 60),
                dexterity := t.dexterity + 5, symbol := 's', colour := Brown))
  }

  /** `case TRAN_ICE_BEAST`: everything but the cloak comes off. */
  function EnterIceBeast(s: State, r1: int, r2: int, maxHp: Form -> int): (res: (bool, State))
    requires WellFormed(s)
    ensures WellFormed(res.1)
  {
    var t := RemoveEquipmentSpec(s, IceBeastRequest());
    var u := ExtraHpSpec(t.(form := IceBeast, durTransformation := Capped(30 + r1 + r2, 100)), 12, maxHp);
    (true, u.(symbol := 'I', colour := White))
  }

  /** `case TRAN_BLADE_HANDS`: refused when a requested slot holds a cursed item;
      only the first draw is used. */
  function EnterBladeHands(s: State, r1: int): (res: (bool, State))
    requires WellFormed(s)
    ensures WellFormed(res.1)
  {
    if CursedBlocks(s, BladeHandsRequest()) then (false, s)
    else
      var t := RemoveEquipmentSpec(s, BladeHandsRequest());
      (true, t.(form := BladeHands, durTransformation := Capped(10 + r1, 100)))
  }

  /** `case TRAN_STATUE`. */
  function EnterStatue(s: State, r1: int, r2: int, maxHp: Form -> int): (res: (bool, State))
    requires WellFormed(s)
    ensures WellFormed(res.1)
  {
    var t := RemoveEquipmentSpec(s, StatueRequest());
    var u := t.(form := Statue, durTransformation := Capped(20 + r1 + r2, 100),
                dexterity := t.dexterity - 2, strength := t.strength + 2);
    (true, ExtraHpSpec(u, 15, maxHp).(symbol := '8', colour := LightGrey))
  }

  /** `case TRAN_DRAGON`. */
  function EnterDragon(s: State, r1: int, r2: int, maxHp: Form -> int): (res: (bool, State))
    requires WellFormed(s)
    ensures WellFormed(res.1)
  {
    var t := RemoveEquipmentSpec(s, AllSlots());
    var u := t.(form := Dragon, durTransformation := Capped(20 + r1 + r2, 100),
                strength := t.strength + 10);
    (true, ExtraHpSpec(u, 16, maxHp).(symbol := 'D', colour := Green))
  }

  /** `case TRAN_LICH`: refused at death's door; nothing comes off. */
  function EnterLich(s: State, r1: int, r2: int): (res: (bool, State))
  {
    if s.durDeathsDoor != 0 then (false, s)
    else
      (true, s.(durRegeneration := 0, durResistPoison := 0, form := Lich,
                durTransformation := Capped(20 + r1 + r2, 100), strength := s.strength + 3,
                symbol := 'L', colour := LightGrey, undead := Undead, hunger := Satiated))
  }

  /** `case TRAN_AIR`: everything comes off and the pack is dropped. */
  function EnterAir(s: State, r1: int, r2: int): (res: (bool, State))
    requires WellFormed(s)
    ensures WellFormed(res.1)
  {
    var t := DropEverythingSpec(RemoveEquipmentSpec(s, AllSlots()));
    (true, t.(form := Air, durTransformation := Capped(35 + r1 + r2, 150),
              dexterity := t.dexterity + 8, symbol := '#', colour := DarkGrey))
  }

  /** `case TRAN_SERPENT_OF_HELL`. */
  function EnterSerpent(s: State, r1: int, r2: int, maxHp: Form -> int): (res: (bool, State))
    requires WellFormed(s)
    ensures WellFormed(res.1)
  {
    var t := RemoveEquipmentSpec(s, AllSlots());
    var u := t.(form := SerpentOfHell, durTransformation := Capped(20 + r1 + r2, 120),
                strength := t.strength + 13);
    (true, ExtraHpSpec(u, 17, maxHp).(symbol := 'S', colour := Red))
  }

  /** The per-form switch of `transform`, entered with the old form gone, stoneskin
      cleared and the redraw flags raised. */
  function EnterFormSpec(s: State, which: Form, r1: int, r2: int, maxHp: Form -> int): (res: (bool, State))
    requires WellFormed(s)
    ensures WellFormed(res.1)
  {
    match which
    case Spider => EnterSpider(s, r1, r2)
    case IceBeast => EnterIceBeast(s, r1, r2, maxHp)
    case BladeHands => EnterBladeHands(s, r1)
    case Statue => EnterStatue(s, r1, r2, maxHp)
    case Dragon => EnterDragon(s, r1, r2, maxHp)
    case Lich => EnterLich(s, r1, r2)
    case Air => EnterAir(s, r1, r2)
    case SerpentOfHell => EnterSerpent(s, r1, r2, maxHp)
    case None => (false, s)
    case NumTransformations => (false, s)
  }

  /** Re-entering the current form: below 100 turns the duration grows by a draw,
      capped at 100; otherwise the call fails. */
  function ExtendSpec(s: State, r1: int): (res: (bool, State))
  {
    if s.durTransformation < 100 then
      (true, s.(durTransformation := Capped(s.durTransformation + r1, 100)))
    else
      (false, s)
  }

  /** The common preamble of the per-form switch of `transform`: stoneskin ends
      and the armour class, evasion and weapon displays are flagged for redraw. */
  function Preamble(s: State): (t: State)
  {
    s.(durStoneskin := 0, redrawEvasion := true, redrawArmourClass := true, wieldChange := true)
  }

  /** What `transform` does once any old form has ended: undead characters are
      refused, otherwise stoneskin is cleared, the redraw flags are raised and the
      per-form switch runs. */
  function StartSpec(s: State, which: Form, r1: int, r2: int, maxHp: Form -> int): (res: (bool, State))
    requires WellFormed(s)
    ensures WellFormed(res.1)
  {
    if s.undead != Alive then (false, s)
    else EnterFormSpec(Preamble(s), which, r1, r2, maxHp)
  }

  /** The result and the player after `transform(pow, which)`, where `r1` and `r2`
      are the draws of `random2(pow)` in the order the code makes them. */
  function TransformSpec(s: State, which: Form, r1: int, r2: int, maxHp: Form -> int): (res: (bool, State))
    requires WellFormed(s)
    ensures WellFormed(res.1)
  {
    if s.species == Merfolk && s.swimming && which != Dragon then (false, s)
    else if s.form == which then ExtendSpec(s, r1)
    else
      var s1 := if s.form != None then UntransformSpec(s, maxHp) else s;
      StartSpec(s1, which, r1, r2, maxHp)
  }
}
