/** The equipment-removal policy (`remove_equipment`) and the curse guard
    (`check_for_cursed_equipment`), stated on `State` snapshots. */
module EquipmentPolicy {
  import opened TransforTypes

  /** A request naming every slot (`rem_stuff[i] = 1` for weapon up to the right ring). */
  function AllSlots(): (req: seq<bool>)
    ensures |req| == RequestLength && forall i :: 0 <= i < RequestLength ==> req[i]
  {
    seq(RequestLength, _ => true)
  }

  /** A request naming no slot (`rem_stuff[i] = 0`). */
  function NoSlots(): (req: seq<bool>)
    ensures |req| == RequestLength && forall i :: 0 <= i < RequestLength ==> !req[i]
  {
    seq(RequestLength, _ => false)
  }

  /** The dependency rules of `remove_equipment`, applied before anything comes off:
      worn body armour that is requested takes the cloak with it, and worn gloves
      that are requested take the weapon with them. */
  function ExpandRequest(req: seq<bool>, equip: seq<int>): (r: seq<bool>)
    requires |req| == RequestLength && |equip| == NumEquip
    ensures |r| == RequestLength
    ensures forall i :: 0 <= i < RequestLength ==>
      (r[i] <==> req[i]
                 || (i == Cloak && req[BodyArmour] && equip[BodyArmour] != Empty)
                 || (i == Weapon && req[Gloves] && equip[Gloves] != Empty))
  {
    var a := if req[BodyArmour] && equip[BodyArmour] != Empty then req[Cloak := true] else req;
    if a[Gloves] && equip[Gloves] != Empty then a[Weapon := true] else a
  }

  /** The slot vector after clearing every requested slot below the left ring. */
  function Stripped(equip: seq<int>, req: seq<bool>): (e: seq<int>)
    requires |req| == RequestLength && |equip| == NumEquip
  {
    seq(NumEquip, i requires 0 <= i < NumEquip =>
      if i < LeftRing && req[i] then Empty else equip[i])
  }

  /** The player after `remove_equipment(req)`: the expanded request's slots below
      the left ring are emptied, and `wield_change` is raised when a weapon came off. */
  function RemoveEquipmentSpec(s: State, req: seq<bool>): (t: State)
    requires WellFormed(s) && |req| == RequestLength
    ensures WellFormed(t)
  {
    var full := ExpandRequest(req, s.equip);
    var weaponOff := full[Weapon] && s.equip[Weapon] != Empty;
    s.(equip := Stripped(s.equip, full), wieldChange := s.wieldChange || weaponOff)
  }

  /** `check_for_cursed_equipment`: some requested, occupied slot below the left
      ring holds a cursed item. */
  predicate CursedBlocks(s: State, req: seq<bool>)
    requires WellFormed(s) && |req| == RequestLength
  {
    exists i :: 0 <= i < LeftRing && req[i] && s.equip[i] != Empty && s.inv[s.equip[i]].cursed
  }

  /** Every slot the expanded request names is empty afterwards; every other slot,
      the rings and the amulet among them, and every other field, are as before. */
  lemma RemoveEquipmentEffect(s: State, req: seq<bool>)
    requires WellFormed(s) && |req| == RequestLength
    ensures var t := RemoveEquipmentSpec(s, req);
      && t.(equip := s.equip, wieldChange := s.wieldChange) == s
      && (forall i :: 0 <= i < NumEquip ==>
            t.equip[i] == if i < LeftRing && ExpandRequest(req, s.equip)[i] then Empty else s.equip[i])
      && (t.wieldChange <==>
            (s.wieldChange
             || (s.equip[Weapon] != Empty && (req[Weapon] || (req[Gloves] && s.equip[Gloves] != Empty)))))
  {
  }

  /** Removal is monotone: a slot that was empty stays empty, and no slot ever
      gains an item. */
  lemma RemoveEquipmentOnlyEmpties(s: State, req: seq<bool>)
    requires WellFormed(s) && |req| == RequestLength
    ensures forall i :: 0 <= i < NumEquip ==>
      RemoveEquipmentSpec(s, req).equip[i] in {Empty, s.equip[i]}
  {
  }

  /** Removing with the same request twice is the same as removing once. */
  lemma RemoveEquipmentIdempotent(s: State, req: seq<bool>)
    requires WellFormed(s) && |req| == RequestLength
    ensures RemoveEquipmentSpec(RemoveEquipmentSpec(s, req), req).equip
            == RemoveEquipmentSpec(s, req).equip
  {
  }
}
