/** The side-effect-free queries of the transformation core: which slots may be
    used (`can_equip`), the body size of a form, bare-handed butchering, and whether
    a form overrides the species' physiology. */
module FormQueries {
  import opened TransforTypes

  /** Every equipment slot. */
  function AllSlotSet(): set<int> {
    {Weapon, Cloak, Helmet, Gloves, Boots, Shield, BodyArmour, LeftRing, RightRing, Amulet}
  }

  /** Slots a species cannot use in its own body shape. */
  function SpeciesForbidden(sp: Species): set<int> {
    match sp
    case Naga => {Boots}
    case Centaur => {Boots}
    case Kenku => {Boots, Helmet}
    case _ => {}
  }

  /** Slots the player's mutations rule out, whatever the form. */
  function MutationForbidden(s: State): set<int> {
    (if s.horns != 0 then {Helmet} else {})
    + (if s.hooves != 0 then {Boots} else {})
    + (if s.claws >= 3 then {Gloves} else {})
  }

  /** Slots each form leaves usable. */
  function FormPermitted(f: Form): set<int> {
    match f
    case None => AllSlotSet()
    case Lich => AllSlotSet()
    case BladeHands => AllSlotSet() - {Weapon, Gloves, Shield}
    case Statue => {Weapon, Cloak, Helmet}
    case IceBeast => {Cloak}
    case _ => {}
  }

  /** `can_equip`: the species rule applies only while the body keeps its shape,
      the mutation rules always, and the form table last. */
  function CanEquip(s: State, shapechanged: bool, useWhich: Slot): (r: bool)
    ensures r <==> && (shapechanged || useWhich !in SpeciesForbidden(s.species))
                   && useWhich !in MutationForbidden(s)
                   && useWhich in FormPermitted(s.form)
  {
    if !shapechanged && useWhich == Boots && s.species in {Naga, Centaur, Kenku} then false
    else if !shapechanged && useWhich == Helmet && s.species == Kenku then false
    else if useWhich == Helmet && s.horns != 0 then false
    else if useWhich == Boots && s.hooves != 0 then false
    else if useWhich == Gloves && s.claws >= 3 then false
    else
      match s.form
      case None => true
      case Lich => true
      case BladeHands => useWhich != Weapon && useWhich != Gloves && useWhich != Shield
      case Statue => useWhich == Weapon || useWhich == Cloak || useWhich == Helmet
      case IceBeast => useWhich == Cloak
      case _ => false
  }

  /** `player::transform_size`. */
  function TransformSize(f: Form): (z: Size)
    ensures z == Character <==> f !in {Spider, IceBeast, Dragon, SerpentOfHell, Air}
  {
    match f
    case Spider => Tiny
    case IceBeast => Large
    case Dragon => Huge
    case SerpentOfHell => Huge
    case Air => Medium
    case _ => Character
  }

  /** `transform_can_butcher_barehanded`. */
  function TransformCanButcherBarehanded(f: Form): (b: bool)
    ensures b <==> f in {BladeHands, Dragon}
  {
    f == BladeHands || f == Dragon
  }

  /** Forms that keep the species' physiology; with `physScales`, also those that
      keep only the armour and evasion of scales. */
  function KeptPhysiology(physScales: bool): set<Form> {
    if physScales then {None, BladeHands, Lich, Statue} else {None, BladeHands}
  }

  /** `transform_changed_physiology`, for the current form `f`. */
  function TransformChangedPhysiology(f: Form, physScales: bool): (c: bool)
    ensures c <==> f !in KeptPhysiology(physScales)
  {
    f != None && f != BladeHands && (!physScales || (f != Lich && f != Statue))
  }

  /** Asking only about scale-like armour and evasion never reports a change that
      the full question would not. */
  lemma PhysScalesIsNarrower(f: Form)
    ensures TransformChangedPhysiology(f, true) ==> TransformChangedPhysiology(f, false)
  {
  }

  /** A form that changes the body size also changes the physiology. */
  lemma ResizingFormsChangePhysiology(f: Form)
    ensures TransformSize(f) != Character ==> TransformChangedPhysiology(f, true)
  {
  }

  /** The forms that butcher bare-handed are forms that cannot wield a weapon. */
  lemma ButcheringFormsCannotWield(s: State, shapechanged: bool)
    ensures TransformCanButcherBarehanded(s.form) ==> !CanEquip(s, shapechanged, Weapon)
  {
  }

  /** An Ice Beast can wear a cloak and never boots, whatever its species and
      mutations. */
  lemma IceBeastWearsOnlyCloak(s: State, shapechanged: bool, useWhich: Slot)
    requires s.form == IceBeast
    ensures CanEquip(s, shapechanged, useWhich) <==> useWhich == Cloak
  {
  }

  /** Being unchanged in shape can only take slots away. */
  lemma ShapeRuleOnlyRestricts(s: State, useWhich: Slot)
    ensures CanEquip(s, false, useWhich) ==> CanEquip(s, true, useWhich)
  {
  }
}
