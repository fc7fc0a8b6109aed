# Player transformations (transfor.cc)

A Dafny model of the transformation state machine of Dungeon Crawl Stone Soup
(`crawl-ref/source/transfor.cc`). A character can take one form at a time
(spider, ice beast, blade hands, statue, dragon, lich, air or serpent of hell).
`transform` enters a form or extends the one in effect. `untransform` ends a form
and undoes its stat and hit-point changes. `remove_equipment` and
`check_for_cursed_equipment` strip the equipment a form cannot keep. `can_equip`,
`transform_size`, `transform_can_butcher_barehanded` and
`transform_changed_physiology` are queries on the form in effect. `extra_hp` and
`drop_everything` are the hit-point and inventory helpers the form entries use.

The model has two layers:

- `StateMachine` and `EquipmentPolicy` define each operation as a function on
  `State`, a value holding every player field the core reads or writes.
- `PlayerRecord.Player` is the player record `you` as a class. Its methods follow
  the C++ statement by statement and update the record in place. Each one is proved
  to leave the record equal to the matching function applied to the old record.

The lemmas in `ExitProperties`, `EntryProperties`, `FormQueries`,
`EquipmentPolicy` and `FormSequences` state what the source promises about those
functions.

Two conventions apply throughout:

- The draws `random2(pow)` are parameters `r1` and `r2`. `RandomDraw(pow, r)` says
  which values the game can produce.
- `calc_hp` is a parameter `maxHp` that gives the maximum hit points for a form.

Modules:

| file | module | contents |
|---|---|---|
| types.dfy | `TransforTypes` | forms, species, equipment slots, items, `State`, C division |
| equipment.dfy | `EquipmentPolicy` | `remove_equipment` and `check_for_cursed_equipment` as functions |
| queries.dfy | `FormQueries` | `can_equip`, `transform_size`, `transform_can_butcher_barehanded`, `transform_changed_physiology` |
| statemachine.dfy | `StateMachine` | `extra_hp`, `drop_everything`, `untransform` and `transform` as functions |
| player.dfy | `PlayerRecord` | the player record and the in-place operations |
| exit_properties.dfy | `ExitProperties` | what ending a form guarantees |
| entry_properties.dfy | `EntryProperties` | what entering or extending a form guarantees |
| sequences.dfy | `FormSequences` | runs of calls and the duration invariant they keep |

Two details of the code that the model keeps as written:

- **The boots rule.** On leaving a form, naga and centaurs lose worn boots unless
  they are naga barding: transfor.cc:478-480 tests for `ARM_NAGA_BARDING` for both
  species.
- **Equipment slots.** `you.equip` has ten slots. A removal request covers the
  first eight, weapon to left ring, and `remove_equipment` clears only the slots
  below the left ring.

## Model

| member | source | states |
|---|---|---|
| TransforTypes.MaxDraw | crawl-ref/source/transfor.cc:135 | every value `random2(pow)` can return lies in [0, m], and m is one of them |
| TransforTypes.TruncDiv | crawl-ref/source/transfor.cc:489 | C division: the quotient truncates toward zero for either sign of the dividend |
| EquipmentPolicy.AllSlots | crawl-ref/source/transfor.cc:161-164 | the request built before the form switch sets all eight entries, weapon to left ring |
| EquipmentPolicy.NoSlots | crawl-ref/source/transfor.cc:378-381 | the request built by `untransform` names no slot |
| EquipmentPolicy.ExpandRequest | crawl-ref/source/transfor.cc:37-43 | a slot is requested after expansion iff it was requested, or it is the cloak and occupied body armour is requested, or it is the weapon and occupied gloves are requested |
| EquipmentPolicy.RemoveEquipmentEffect | crawl-ref/source/transfor.cc:35-66 | after removal every slot below the rings that the expanded request names is empty, every other slot is unchanged, the wield flag is raised iff it was raised or an occupied weapon is requested directly or through occupied gloves, and nothing else changes |
| EquipmentPolicy.RemoveEquipmentOnlyEmpties | crawl-ref/source/transfor.cc:45-63 | removal only empties slots: an empty slot stays empty, and an occupied one either stays or is emptied |
| EquipmentPolicy.RemoveEquipmentIdempotent | crawl-ref/source/transfor.cc:35-66 | removing with the same request twice leaves the same slots as removing once |
| FormQueries.CanEquip | crawl-ref/source/transfor.cc:499-564 | a slot is usable iff the species rule allows it (or the body is shapechanged), no horns/hooves/claws mutation forbids it, and the current form permits it |
| FormQueries.TransformSize | crawl-ref/source/transfor.cc:95-112 | the size is the character's own size iff the form is none of spider, ice beast, dragon, serpent of hell and air |
| FormQueries.TransformCanButcherBarehanded | crawl-ref/source/transfor.cc:371-374 | true iff the form is blade hands or dragon |
| FormQueries.TransformChangedPhysiology | crawl-ref/source/transfor.cc:611-618 | true iff the form is not in the set that keeps the species' physiology (none, blade hands, and with `phys_scales` also lich and statue) |
| FormQueries.PhysScalesIsNarrower | crawl-ref/source/transfor.cc:611-618 | a change reported with `phys_scales` is also reported without it |
| FormQueries.ResizingFormsChangePhysiology | crawl-ref/source/transfor.cc:95-112 | every form that changes the body size also changes the physiology |
| FormQueries.ButcheringFormsCannotWield | crawl-ref/source/transfor.cc:371-374 | the forms that butcher bare-handed cannot use the weapon slot |
| FormQueries.IceBeastWearsOnlyCloak | crawl-ref/source/transfor.cc:556-560 | an ice beast can use a slot iff it is the cloak |
| FormQueries.ShapeRuleOnlyRestricts | crawl-ref/source/transfor.cc:503-527 | a slot usable with the body unchanged in shape is usable with it changed |
| StateMachine.Capped | crawl-ref/source/transfor.cc:137-138 | the capped value is at most the cap and at most the value, and equals one of them |
| StateMachine.RescaleHp | crawl-ref/source/transfor.cc:487-494 | the rescaled `hp` lies in [1, hp_max] whenever hp_max is at least 1, and is exactly `hp * 10 / divisor` when that already lies in range |
| PlayerRecord.NewRequest | crawl-ref/source/transfor.cc:161-164 | the request has eight entries, each equal to the given value |
| PlayerRecord.Player.RemoveEquipment | crawl-ref/source/transfor.cc:35-66 | the record after the call is `RemoveEquipmentSpec` of the old record, and the call returns true |
| PlayerRecord.Player.CheckForCursedEquipment | crawl-ref/source/transfor.cc:70-87 | the result is true iff a requested, occupied slot below the rings holds a cursed item; nothing changes |
| PlayerRecord.Player.ExtraHp | crawl-ref/source/transfor.cc:576-584 | the record after the call is `ExtraHpSpec` of the old record |
| PlayerRecord.Player.DropEverything | crawl-ref/source/transfor.cc:586-605 | the record after the call is `DropEverythingSpec` of the old record: every valid pack entry has quantity 0 |
| PlayerRecord.Player.Untransform | crawl-ref/source/transfor.cc:376-495 | the record after the call is `UntransformSpec` of the old record; the `ExitProperties` lemmas state its rest state, stat changes, armour-enchantment downgrade, exact `hp` and boots rule |
| PlayerRecord.Player.RevertBody | crawl-ref/source/transfor.cc:397-470 | the per-form reversal of stats, durations, undead state and the `hp` divisor equals `RevertForm`; `UntransformStatChanges`, `UntransformDurations` and `UntransformHp` state what that reversal is |
| PlayerRecord.Player.ShedBoots | crawl-ref/source/transfor.cc:476-484 | the record after the call is `BootsCleanup` of the old record |
| PlayerRecord.Player.RestoreHp | crawl-ref/source/transfor.cc:486-494 | the record after the call is `HpAfterRevert` of the old record |
| PlayerRecord.Player.Transform | crawl-ref/source/transfor.cc:114-369 | the result and the record after the call are `TransformSpec` of the old record; `TransformOutcome`, `RefusalOutcomes` and `ExtensionOnly` state when it succeeds and what a refusal leaves |
| PlayerRecord.Player.Extend | crawl-ref/source/transfor.cc:129-146 | the result and the record after the call are `ExtendSpec` of the old record |
| PlayerRecord.Player.Start | crawl-ref/source/transfor.cc:152-170 | the result and the record after the call are `StartSpec` of the old record; undead characters are refused before the preamble (`UndeadRefused`, `TransformOutcome`) |
| PlayerRecord.Player.EnterForm | crawl-ref/source/transfor.cc:171-368 | the result and the record after the call are `EnterFormSpec` of the old record; `EnterFormOutcome` states when the switch refuses |
| PlayerRecord.Player.BecomeSpider | crawl-ref/source/transfor.cc:173-190 | the result and the new record are `EnterSpider` of the old record |
| PlayerRecord.Player.BecomeIceBeast | crawl-ref/source/transfor.cc:192-212 | the result and the new record are `EnterIceBeast` of the old record |
| PlayerRecord.Player.BecomeBladeHands | crawl-ref/source/transfor.cc:214-231 | the result and the new record are `EnterBladeHands` of the old record |
| PlayerRecord.Player.BecomeStatue | crawl-ref/source/transfor.cc:233-264 | the result and the new record are `EnterStatue` of the old record |
| PlayerRecord.Player.BecomeDragon | crawl-ref/source/transfor.cc:266-285 | the result and the new record are `EnterDragon` of the old record |
| PlayerRecord.Player.BecomeLich | crawl-ref/source/transfor.cc:287-323 | the result and the new record are `EnterLich` of the old record; it is refused exactly at death's door (`EnterFormOutcome`) |
| PlayerRecord.Player.BecomeAir | crawl-ref/source/transfor.cc:325-343 | the result and the new record are `EnterAir` of the old record |
| PlayerRecord.Player.BecomeSerpent | crawl-ref/source/transfor.cc:345-362 | the result and the new record are `EnterSerpent` of the old record |
| ExitProperties.UntransformRests | crawl-ref/source/transfor.cc:376-495 | after `untransform`: no form, no duration, `@` in light grey, every display flagged, hp_max recomputed for the natural body, `hp` in [1, hp_max] when the form had scaled it, undeath ended only for a lich, pack, species and hunger unchanged |
| ExitProperties.UntransformFromRestKeepsStats | crawl-ref/source/transfor.cc:397-470 | with no form in effect, strength, dexterity, `hp` and the armour enchantments stay as they were |
| ExitProperties.UntransformStatChanges | crawl-ref/source/transfor.cc:397-470 | the strength and dexterity change undone for each form (statue, dragon, lich, serpent, spider, air) |
| ExitProperties.UntransformDurations | crawl-ref/source/transfor.cc:411-438 | a running stonemail or stoneskin is left at 1 after a statue, a running icy armour at 1 after an ice beast; no other form touches them |
| ExitProperties.UntransformHp | crawl-ref/source/transfor.cc:397-494 | the divisor each form leaves is its entry multiplier, and `hp` becomes the clamped rescale by it for the natural maximum, or stays when the divisor is 10 |
| ExitProperties.UntransformBootsRule | crawl-ref/source/transfor.cc:476-484 | the boots slot is empty afterwards iff it was empty, or the species is naga or centaur and the boots are not naga barding; no other slot changes |
| ExitProperties.UntransformIdempotent | crawl-ref/source/transfor.cc:376-495 | ending a form twice gives the same record as ending it once |
| ExitProperties.ScaleRoundTrip | crawl-ref/source/transfor.cc:489 | scaling `hp` up by m tenths and back down by m with C division loses at most one point and never gains one |
| EntryProperties.ExtraHpBounds | crawl-ref/source/transfor.cc:576-584 | `extra_hp` sets hp_max for the form in effect, leaves `hp` at most hp_max, never lowers a non-negative `hp` with a multiplier of 10 or more except to hp_max, and changes nothing else |
| EntryProperties.DropEverythingEmptiesPack | crawl-ref/source/transfor.cc:586-605 | afterwards no pack entry is a valid item, each keeps its other properties, and nothing outside the pack changes |
| EntryProperties.SwimmingMerfolkOnlyDragon | crawl-ref/source/transfor.cc:116-127 | a swimming mer-creature asking for any form but dragon is refused and nothing changes |
| EntryProperties.ExtensionOnly | crawl-ref/source/transfor.cc:129-146 | asking for the form in effect succeeds iff under 100 turns remain, adds the first draw capped at 100, and changes nothing else |
| EntryProperties.DrawSumBound | crawl-ref/source/transfor.cc:181-352 | the draws a fresh form adds are non-negative and at most its draw count times the largest draw |
| EntryProperties.EnterFormFields | crawl-ref/source/transfor.cc:171-368 | the form switch either refuses and changes nothing, or puts the form in effect with its base plus draws, capped at its cap |
| EntryProperties.EntryDuration | crawl-ref/source/transfor.cc:171-368 | a fresh form starts with a duration in [base, cap] and at most base plus the largest draws |
| EntryProperties.RefusalOutcomes | crawl-ref/source/transfor.cc:114-369 | a refusal by the mer or extension guard leaves the old record; any later refusal leaves the old form ended, with the switch's preamble applied unless the character was undead |
| EntryProperties.EnterFormOutcome | crawl-ref/source/transfor.cc:171-368 | the switch succeeds iff the form is one it knows, a lich is not at death's door, and a spider or blade hands finds no cursed requested item |
| EntryProperties.TransformOutcome | crawl-ref/source/transfor.cc:148-368 | switching to a new form succeeds iff the character is alive after the old form ended and the switch accepts (so ice beast, statue, dragon, air and serpent always succeed for the living); a refusal leaves the old form ended, with the preamble applied unless undead |
| EntryProperties.UndeadRefused | crawl-ref/source/transfor.cc:152-156 | an undead character in no form is refused any form and nothing changes |
| EntryProperties.RefusedSwitchEndsForm | crawl-ref/source/transfor.cc:148-156 | a refused switch out of a form leaves no form and no duration |
| EntryProperties.CurseVetoAllOrNothing | crawl-ref/source/transfor.cc:173-231 | from the natural form, spider and blade hands succeed iff no requested slot holds a cursed item, and a refusal leaves only the preamble's changes |
| EntryProperties.EnterFormArmour | crawl-ref/source/transfor.cc:171-368 | every slot below the rings that the form switch leaves occupied is permitted to the new form, except a statue's boots |
| EntryProperties.NewFormKeepsOnlyPermittedArmour | crawl-ref/source/transfor.cc:114-369 | after a fresh form every occupied slot below the rings is permitted by the new form's table in `can_equip`, except a statue's boots |
| EntryProperties.StatueKeepsUnwearableBoots | crawl-ref/source/transfor.cc:241-247 | a statue keeps worn boots although `can_equip` refuses boots to a statue |
| EntryProperties.IceBeastLosesCloakUnderBodyArmour | crawl-ref/source/transfor.cc:192-197 | an ice beast keeps its cloak iff no body armour was worn |
| EntryProperties.AirStrandsJewellery | crawl-ref/source/transfor.cc:325-343 | air drops the whole pack but leaves rings and amulet worn, so they name pack entries of quantity 0 |
| EntryProperties.NoneTargetExtends | crawl-ref/source/transfor.cc:129-146 | asking for no form while in the natural form succeeds and leaves a running duration with no form |
| EntryProperties.SpiderExtendsPastEntryCap | crawl-ref/source/transfor.cc:129-146 | an extension caps at 100, so a spider reaches 90 turns, past its entry cap of 60 |
| EntryProperties.LongAirCannotExtend | crawl-ref/source/transfor.cc:131-146 | an air form at 150 turns cannot be extended and nothing changes |
| EntryProperties.EnterLeaveRestoresStats | crawl-ref/source/transfor.cc:114-495 | entering a form from the natural form and leaving it gives back strength, dexterity and the undead state |
| EntryProperties.EnterLeaveHpRoundTrip | crawl-ref/source/transfor.cc:114-495 | entering a form that scales `hp` and leaving it costs at most one hit point and adds none, when the form's maximum did not cap the scaled `hp` |
| FormSequences.StepKeepsConsistent | crawl-ref/source/transfor.cc:114-495 | one admissible `transform` or `untransform` keeps "form in effect iff duration running, duration in [0, 150]" |
| FormSequences.RunKeepsConsistent | crawl-ref/source/transfor.cc:114-495 | every run of admissible calls keeps that invariant |
| FormSequences.NoneRequestBreaksConsistency | crawl-ref/source/transfor.cc:129-146 | a request for no form breaks that invariant |

## Left out

- Messages (`mpr`, `mprf`) are not modelled. They have no effect on the state.
- Random numbers are not generated in the model. The draws `random2(pow)` are parameters constrained by `RandomDraw`.
- `calc_hp` is the parameter `maxHp`. The model only sets hp_max from it, and assumes it does not change `hp`.
- `deflate_hp` is modelled as capping `hp` at hp_max. Its other effects are not modelled.
- `modify_stat` is modelled as plain addition. Its messages and stat floors are not modelled.
- The internals of these collaborators are not modelled: `unwield_item`, `unwear_armour`, `item_cursed`, `copy_item_to_grid`, `move_player_to_grid`, `stop_butcher_delay`, `set_redraw_status`, `player_is_swimming`, `player_is_shapechanged` and `is_valid_item`.
- `is_valid_item` is modelled as "quantity above 0". Cursedness is a field of the item.
- The Lich's death's-door test and the swimming flag are fields of the record.
- `player_is_shapechanged()` is the parameter `shapechanged` of `CanEquip`.
- `transform_size` ignores its size argument, so the model has no such parameter. `TransformSize` returns the size as a `Size` value: `Character` means "the character's own size".
- `transform_can_equip_type` (lines 567-574) is a stub that always returns false, so it is not modelled.
- The early return of `drop_everything` when the pack is empty is not modelled. It only skips a message, and the loop would change nothing in that case.
- The `stop_butcher_delay` call on leaving blade hands or dragon is not modelled. The delay queue is not part of this model.
- PlayerRecord.Player.Untransform: the request vector is a value (`seq<bool>`), not a buffer shared by reference. No caller reads it after `remove_equipment` has expanded it.
- PlayerRecord.Player.RemoveEquipment: `you.equip` and `you.inv` are `seq` fields that the methods reassign. Aliasing of those buffers is not modelled.
- The body the character was born with and its mutations (species, swimming, horns, hooves, claws, death's door) are read-only fields, because the core never writes them.
- Integer overflow of C `int` is not modelled. Hit points, stats and durations stay far below 2^31 in the game.
- Runs of calls: `FormSequences.RunKeepsConsistent` excludes requests for no form, because `NoneRequestBreaksConsistency` shows that such a request breaks the invariant.
