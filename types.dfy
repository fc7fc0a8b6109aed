/** Value types of the player-transformation core: the forms, the small enums the
    transformation code reads and writes, the equipment slot numbering, an
    inventory item, and a snapshot `State` of every player field the core touches. */
module TransforTypes {

  /** `transformation_type`; `NumTransformations` is the sentinel that the entry
      switch handles explicitly and that the exit switch treats as an unknown form. */
  datatype Form =
    | None | Spider | BladeHands | Statue | IceBeast | Dragon | Lich
    | SerpentOfHell | Air | NumTransformations

  /** The species the transformation code distinguishes; every other species
      behaves alike here. */
  datatype Species = Merfolk | Naga | Centaur | Kenku | OtherSpecies

  /** `is_undead`: only "alive" versus "anything else" matters to this core. */
  datatype UndeadState = Alive | HungryDead | Undead | SemiUndead

  datatype HungerState =
    | Starving | NearStarving | VeryHungry | Hungry | Satiated | Full | VeryFull | Engorged

  /** The colours the transformation code assigns to the player glyph. */
  datatype Colour = LightGrey | Brown | White | Green | DarkGrey | Red

  /** Body-size categories; `Character` means "the character's own size". */
  datatype Size = Tiny | Medium | Large | Huge | Character

  /** `equipment_type`: slot indices of `you.equip`. */
  const Weapon := 0
  const Cloak := 1
  const Helmet := 2
  const Gloves := 3
  const Boots := 4
  const Shield := 5
  const BodyArmour := 6
  const LeftRing := 7
  const RightRing := 8
  const Amulet := 9
  const NumEquip := 10

  type Slot = i: int | 0 <= i < NumEquip

  /** Length of the removal-request vector (`FixedVector<char, 8>`). */
  const RequestLength := 8

  /** Number of inventory entries (`ENDOFPACK`). */
  const EndOfPack := 52

  /** Value of an empty equipment slot. */
  const Empty := -1

  /** The parts of an inventory item this core reads or writes: its quantity
      (`drop_everything` zeroes it), whether it is cursed (`item_cursed`) and
      whether it is naga barding (the boots check in `untransform`). */
  datatype Item = Item(quantity: int, cursed: bool, nagaBarding: bool)

  /** `is_valid_item`, as far as this core can see: an entry holding something. */
  predicate IsValidItem(it: Item) {
    it.quantity > 0
  }

  /** Every field of `you` that the transformation core reads or writes. */
  datatype State = State(
    form: Form,
    durTransformation: int,
    durStoneskin: int,
    durStonemail: int,
    durIcyArmour: int,
    durRegeneration: int,
    durResistPoison: int,
    durDeathsDoor: int,
    strength: int,
    dexterity: int,
    hp: int,
    hpMax: int,
    undead: UndeadState,
    hunger: HungerState,
    symbol: char,
    colour: Colour,
    wieldChange: bool,
    redrawEvasion: bool,
    redrawArmourClass: bool,
    species: Species,
    swimming: bool,
    horns: int,
    hooves: int,
    claws: int,
    equip: seq<int>,
    inv: seq<Item>)

  /** The shape every player record has: ten equipment slots, a 52-entry pack,
      and each slot either empty or naming a pack entry. */
  ghost predicate WellFormed(s: State) {
    && |s.equip| == NumEquip
    && |s.inv| == EndOfPack
    && forall i :: 0 <= i < NumEquip ==> s.equip[i] == Empty || 0 <= s.equip[i] < EndOfPack
  }

  /** A value `random2(pow)` can return: 0 when `pow <= 1`, otherwise in [0, pow). */
  predicate RandomDraw(pow: int, r: int) {
    if pow <= 1 then r == 0 else 0 <= r < pow
  }

  /** The largest value `random2(pow)` can return. */
  function MaxDraw(pow: int): (m: nat)
    ensures forall r :: RandomDraw(pow, r) ==> 0 <= r <= m
    ensures RandomDraw(pow, m)
  {
    if pow <= 1 then 0 else pow - 1
  }

  /** C integer division, which truncates toward zero (Dafny's `/` is Euclidean). */
  function TruncDiv(a: int, b: int): (q: int)
    requires b > 0
    ensures a >= 0 ==> 0 <= q && q * b <= a < q * b + b
    ensures a < 0 ==> q <= 0 && q * b - b < a <= q * b
  {
    var m := if a >= 0 then a else -a;
    assert m == (m / b) * b + m % b && 0 <= m % b < b;
    if a >= 0 then m / b else -(m / b)
  }
}
