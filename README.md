# FiveTwentyNineTiles, modelled in Dafny

A model of the three pieces of logic in the FiveTwentyNineTiles game mod that have behaviour of their own. Each one comes with proofs about that behaviour.

* **Settings** (`settings.dfy`, module `Settings`): the mod's settings object.
  * There are three mutually exclusive unlock modes (`UnlockAll`, `ExtraTilesAtStart`, `AssignToMilestones`) and the hidden `Contra` flag.
  * The class `ModSettings` has the source's four stored fields. One method models each of the `UnlockAll`, `ExtraTilesAtStart`, `AssignToMilestones` and `ResetModSettings` setters, `SetDefaults` and `EnsureState`, and each updates the fields in place.
  * `Contra` is a public auto-property with no logic of its own, so writing it is a plain field assignment. The settings loader can restore it directly, and `SettingsWrite.ContraTo` models that write.
  * `EnsureState` re-enters the `SetUnlockAll` setter, and that mutual recursion is kept exactly. Termination is proved by a measure: the re-entry happens at most once.
  * Each method is proved equal to a function over a `Modes` snapshot (`UnlockAllSet`, `EnsuredState`, …). Those functions carry the properties.
* **Tile-unlock system** (`five_twenty_nine.dfy`, module `FiveTwentyNine`): `UpdateMilestone`'s lookup table and `PostDeserialize`.
  * The host's entity store is abstracted to three sequences, in the order its queries return them:
    * map tiles, each with its `Native` tag;
    * feature entities, each with its prefab name and its `Locked` and `UnlockRequirement` tags;
    * milestones, each with its `m_MapTiles` count.
  * The class `FiveTwentyNineSystem` holds these sequences. Its `PostDeserialize` method does what the source does: a loop per branch, the early returns, and the search for the first locked "Map Tiles" feature.
  * The method is proved equal to the branch-by-branch specification `PostDeserialized`.
* **Purchase-cost patch** (`purchase_patches.dfy`, module `MapTilePurchaseSystemPatches`): `CheckFreeTiles` and the Harmony transpiler `UpdateStatusTranspiler`.
  * `CheckFreeTiles` does C#'s unchecked 32-bit `int` addition, with wrap-around.
  * The transpiler works on an abstract instruction datatype. It is the source's enumerator loop: the extra `MoveNext` after `ldloc.s 5`, the `continue`, and the `firstCost` flag.
  * It is proved equal to the window-by-window function `Transpile`. That function has these properties:
    * exact output length;
    * insertion only (the input is a subsequence of the output);
    * the rewrite rule for each kind of instruction in any context;
    * identity when neither pattern occurs.

Behaviour worth noting:

* The extra-tiles and milestone modes act only on a new game. The unlock-all mode acts whatever the purpose.
* Extra-tiles-at-start appends a plain 88-tile milestone and never removes one.
* Every examined `m_Cost` store after the first gets the `CheckFreeTiles` call.
* Only a `ldloc.s 5; add` pair that the scan reaches is clamped.
  * An `ldloc.s 5` that is itself taken as the successor of an earlier `ldloc.s 5` is not examined. So an `add` right after it is emitted unchanged.
  * `ShadowedPairNotClamped` shows this on `ldloc.s 5; ldloc.s 5; add`.
* The transpiler catches no pattern mismatch. If the scan meets `ldloc.s 5` as the last instruction, it reads past the end, so `NoDanglingLoad` is a precondition. `LastNotLoad5Suffices` shows that it is enough for the last instruction not to be `ldloc.s 5`.
* Every setter preserves "exactly one mode", but not every setter establishes it from an arbitrary state.
  * For example, clearing the milestones mode in a state with unlock-all and extra-tiles both on keeps both on.
  * "Exactly one mode" holds in every state reachable from the field initialisers (`ReachableExactlyOne`). That includes loader writes of any of the four properties.
* The doc comment on `Contra` calls it the inverse of `UnlockAll`, but the setter stores the same value. Storing the same value is what achieves the comment's stated goal:
  * `UnlockAllSet` proves that the stored values are then never all at their defaults.
  * `ResetSettings` proves that the reset always leaves `Contra` true.
* `Contra` is also changed by the `ExtraTilesAtStart` and `AssignToMilestones` setters. Clearing the only mode that is on makes `EnsureState` call the `UnlockAll` setter, which sets `Contra` to true.

## Model

| member | source | states |
|---|---|---|
| Settings.EnsuredState | Code/ModSettings.cs:154-160 | at least one mode is on afterwards. A state with a mode on is returned unchanged. With no mode on, the result is unlock-all only with `Contra` true |
| Settings.UnlockAllSet | Code/ModSettings.cs:41-57 | true gives unlock-all only, with `Contra` true. False with another mode on clears `UnlockAll` and `Contra` and nothing else. False as the only mode falls back to unlock-all with `Contra` true. `Contra == UnlockAll` afterwards. Exactly-one is preserved. The values are never all at their defaults afterwards |
| Settings.ExtraTilesAtStartSet | Code/ModSettings.cs:68-81 | true gives that mode only, with `Contra` kept. False with another mode on clears only this mode. False as the only mode falls back to unlock-all with `Contra` true. Exactly-one is preserved |
| Settings.AssignToMilestonesSet | Code/ModSettings.cs:92-105 | the same three cases for the milestones mode. Exactly-one is preserved |
| Settings.Defaults | Code/ModSettings.cs:144-149 | unlock-all is the only mode on; `Contra` is unchanged |
| Settings.ResetSettings | Code/ModSettings.cs:128-138 | from any state, the result is unlock-all only with `Contra` true |
| Settings.RunKeepsExactlyOne | Code/ModSettings.cs:41-160 | any sequence of setter calls, defaults, resets and direct `Contra` writes keeps exactly one mode on |
| Settings.ReachableExactlyOne | Code/ModSettings.cs:20-22 | every state reachable from the field initialisers has exactly one mode on |
| Settings.ModSettings.constructor | Code/ModSettings.cs:20-22 | the initialisers: unlock-all only, `Contra` false |
| Settings.ModSettings.SetUnlockAll | Code/ModSettings.cs:41-57 | the new fields are `UnlockAllSet` of the old ones |
| Settings.ModSettings.SetExtraTilesAtStart | Code/ModSettings.cs:68-81 | the new fields are `ExtraTilesAtStartSet` of the old ones |
| Settings.ModSettings.SetAssignToMilestones | Code/ModSettings.cs:92-105 | the new fields are `AssignToMilestonesSet` of the old ones |
| Settings.ModSettings.SetResetModSettings | Code/ModSettings.cs:128-138 | the new fields are `ResetSettings` of the old ones, whatever value is written |
| Settings.ModSettings.SetDefaults | Code/ModSettings.cs:144-149 | the new fields are `Defaults` of the old ones |
| Settings.ModSettings.EnsureState | Code/ModSettings.cs:154-160 | the new fields are `EnsuredState` of the old ones; the re-entry into the setter terminates |
| FiveTwentyNine.UpdateMilestone | Code/FiveTwentyNineSystem.cs:134-198 | a count in the 20-entry table becomes its table value; any other milestone is unchanged. The count never decreases, and grows exactly when it is in the table |
| FiveTwentyNine.UpdateMilestoneNotIdempotent | Code/FiveTwentyNineSystem.cs:138-143 | applying the table twice differs from applying it once (3 becomes 4, then 5) |
| FiveTwentyNine.FirstMapTilesFeature | Code/FiveTwentyNineSystem.cs:65-83 | the index of the first feature in the query (still `Locked`) whose prefab is named "Map Tiles". None exactly when there is none |
| FiveTwentyNine.PostDeserialized | Code/FiveTwentyNineSystem.cs:40-103 | with unlock-all, every tile loses `Native` and nothing else changes. If the purpose is not a new game, nothing changes. With extra-at-start, the first locked "Map Tiles" feature loses `Locked` and `UnlockRequirement`, one 88-tile milestone is appended and all else is kept; without such a feature, nothing changes. Otherwise, with assign-to-milestones, every milestone goes through the table. With no mode on, nothing changes |
| FiveTwentyNine.PostDeserializeOnlyGrants | Code/FiveTwentyNineSystem.cs:40-103 | in every mode: no tile gains `Native`, no feature gains `Locked`, and entities keep their identities. At most one milestone is added and no count goes down |
| FiveTwentyNine.UnlockAllIdempotent | Code/FiveTwentyNineSystem.cs:43-49 | with unlock-all, a second run changes nothing |
| FiveTwentyNine.ExtraAtStartSecondRunIsNoOp | Code/FiveTwentyNineSystem.cs:59-87 | with one locked "Map Tiles" feature at most, a second new-game run changes nothing (no second 88-tile milestone) |
| FiveTwentyNine.AssignToMilestonesNotIdempotent | Code/FiveTwentyNineSystem.cs:90-102 | some store changes again on a second milestone run |
| FiveTwentyNine.FiveTwentyNineSystem.PostDeserialize | Code/FiveTwentyNineSystem.cs:40-103 | the loops leave the store equal to `PostDeserialized` of the old store, the settings and the purpose |
| MapTilePurchaseSystemPatches.AddWrapped | Code/Patches/MapTilePurchaseSystemPatches.cs:98 | the exact sum when it fits in 32 bits, otherwise the sum shifted by 2^32 |
| MapTilePurchaseSystemPatches.CheckFreeTiles | Code/Patches/MapTilePurchaseSystemPatches.cs:95-106 | the result is 0 or the cost. Without overflow, 0 when the tile counts sum to at most 9 and the cost when they sum to more |
| MapTilePurchaseSystemPatches.CheckFreeTilesWrapsAround | Code/Patches/MapTilePurchaseSystemPatches.cs:98 | int.MaxValue + 1 wraps negative, so such a tile is free |
| MapTilePurchaseSystemPatches.LastNotLoad5Suffices | Code/Patches/MapTilePurchaseSystemPatches.cs:46-53 | the scan never reads past the end when the last instruction is not `ldloc.s 5` |
| MapTilePurchaseSystemPatches.UpdateStatusTranspiler | Code/Patches/MapTilePurchaseSystemPatches.cs:31-86 | the loop's output is `Transpile(instructions, false)` |
| MapTilePurchaseSystemPatches.TranspileLength | Code/Patches/MapTilePurchaseSystemPatches.cs:41-85 | output length = input length + 2 × load/add pairs + 3 × examined `m_Cost` stores after the first |
| MapTilePurchaseSystemPatches.TranspileAppend | Code/Patches/MapTilePurchaseSystemPatches.cs:37-85 | the output of p + q is p's output, then q's output with the flag p leaves behind |
| MapTilePurchaseSystemPatches.Around | Code/Patches/MapTilePurchaseSystemPatches.cs:41-85 | one loop iteration in any context: p's output, that iteration's emission, then q's |
| MapTilePurchaseSystemPatches.LoadAddIsClamped | Code/Patches/MapTilePurchaseSystemPatches.cs:46-63 | in any context, scanned `ldloc.s 5; add` becomes `ldloc.s 5; add; ldc.i4 441; call math.min` |
| MapTilePurchaseSystemPatches.LoadWithoutAddPassesThrough | Code/Patches/MapTilePurchaseSystemPatches.cs:46-54 | `ldloc.s 5` followed by anything but `add` is emitted unchanged with its successor, and the successor is not examined |
| MapTilePurchaseSystemPatches.CostStoreRule | Code/Patches/MapTilePurchaseSystemPatches.cs:68-84 | the first examined `m_Cost` store passes unchanged. Every later one is preceded by `ldloc.s 5; ldloc.s 6; call CheckFreeTiles` |
| MapTilePurchaseSystemPatches.OtherPassesThrough | Code/Patches/MapTilePurchaseSystemPatches.cs:84 | any other scanned instruction is emitted unchanged |
| MapTilePurchaseSystemPatches.ShadowedPairNotClamped | Code/Patches/MapTilePurchaseSystemPatches.cs:46-54 | `ldloc.s 5; ldloc.s 5; add` is emitted unchanged: the second `ldloc.s 5` is consumed as a successor, so its `add` is not clamped |
| MapTilePurchaseSystemPatches.TranspileIdentity | Code/Patches/MapTilePurchaseSystemPatches.cs:41-85 | with no load/add pair and no late `m_Cost` store, the output is the input |
| MapTilePurchaseSystemPatches.CostStoresAtMostAll | Code/Patches/MapTilePurchaseSystemPatches.cs:52-53 | the scan examines no more `m_Cost` stores than the sequence holds |
| MapTilePurchaseSystemPatches.NoAdjacentPairNoPairs | Code/Patches/MapTilePurchaseSystemPatches.cs:46-54 | without an adjacent `ldloc.s 5; add`, the scan finds no pair |
| MapTilePurchaseSystemPatches.NoPatternNoChange | Code/Patches/MapTilePurchaseSystemPatches.cs:41-85 | with no adjacent `ldloc.s 5; add` and at most one `m_Cost` store, the output equals the input |
| MapTilePurchaseSystemPatches.StepEmbedsWindow | Code/Patches/MapTilePurchaseSystemPatches.cs:46-84 | each iteration emits the instructions it read, in order |
| MapTilePurchaseSystemPatches.TranspileOnlyInserts | Code/Patches/MapTilePurchaseSystemPatches.cs:41-85 | the input is a subsequence of the output: the transpiler only inserts |

## Left out

- Logging (`_log`, `Mod.Instance.Log`): it has no effect on state.
- The global `Mod.Instance.ActiveSettings`: `PostDeserialize` takes the settings object as a parameter instead.
- The host's entity-component store (queries, `RemoveComponent`, `AddComponentData`, `CreateEntity`, `SetComponentData`, `PrefabSystem.GetPrefab`):
  - It is modelled as sequences of records in query order, and entity creation as an append.
  - A prefab lookup that fails is a feature whose name is `None`.
  - Which entities the map-tile and milestone queries return is not modelled.
- `MilestoneData` fields other than `m_MapTiles`: only `m_MapTiles` is modelled. Existing milestones keep their other fields. The milestone created for extra-tiles-at-start has them at their default (zero) values.
- `Purpose` values other than new game and load game: they are collapsed into one case, since the code only compares against `NewGame`.
- `ApplyAndSave` in the reset setter: it persists settings to host storage.
- The reset button's dummy getter (always false) and the settings UI attributes.
- Loading the settings file through the host: the model covers only the setter writes it performs.
- `OnCreate` and `OnUpdate`: query construction and an empty update.
- `Code/Localization.cs`, `Code/Mod.cs` and `BepInEx/Plugin.cs`: they are I/O and host wiring and are not part of this model.
- IL evaluation of `math.min` and of the patched `UpdateStatus` method: instructions are abstract tokens, and the patch's effect on the running game is not modelled.
- The `CodeInstruction` objects' identity and labels: `LoadWithoutAddPassesThrough` and the other rules speak of instruction values, not of object identity.
- `CheckFreeTiles`: `float` is modelled as `real`, because the method only passes the cost through or returns zero.
- UpdateStatusTranspiler: a dangling final `ldloc.s 5` is excluded by the precondition `NoDanglingLoad`. In the source, reading past the end fails at run time, and that path is not modelled.
