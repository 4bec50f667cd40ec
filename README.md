# Punching-patient game: a Dafny model of its gameplay core

This project models the gameplay core of a small Unity game in which the
player punches a randomly generated UMA character (the "patient"). It covers
seven components, one Dafny module each:

- `PunchGame` (`punch_game.dfy`) models the game controller. It picks which
  weighted hit effects fire for a punch. Each effect plays a sound, sets
  animator parameters, spawns pooled effect objects and may slow time. The
  controller also keeps the slow-motion stack and the per-prefab object pools,
  and tracks the patient's health, knock-out and healing.
- `UmaDamage` (`uma_damage.dfy`) models the damageable avatar. A hit on a
  named area raises a shared shader parameter, shifts DNA parameters inside a
  band around their baselines and pushes facial-expression values. A hard
  enough hit punches off head accessories. Heal puts everything back. The
  bindings from areas to materials are read when the character is created and
  rebound when it is rebuilt.
- `Ragdoll` (`ragdoll.dfy`) models the physics extension of the avatar. It
  has two passes over the physics elements: rigidbodies and colliders, then
  character joints. It also covers cloth collider lists, switching
  kinematic/trigger/layer/animator modes, and caching and restoring bone
  poses around a rebuild when the animator is off.
- `RendererSlots` (`renderer_slots.dfy`) models the renderer manager. It adds
  one copy of each matching recipe slot per extra renderer, then rebuilds the
  character when the renderer flag flips.
- `RandomPatient` (`random_patient.dfy`) models the random patient generator:
  the choice of a randomizer, the weighted choice of a wardrobe entry per slot
  group, and random colours from colour tables.
- `SoundScheduler` (`head_birds.dfy`) models the "birds around the head" sound
  loop. It is a timer that plays a random clip on the first idle audio source
  once a random delay has passed.
- `RandomizerBookkeeping` (`randomizer_editor.dfy`) models the randomizer
  inspector's `UpdateObject`, `FindAvatar` and `RecipeCompatible`. Dropped
  wardrobe recipes are filed under the current race. Entries flagged for
  deletion are removed, pending additions are applied, and the asset is
  re-imported when anything changed.

`Common` (`common.dfy`) holds shared values: `Option`, `Vec3`, `Mathf.Clamp`,
`Mathf.Clamp01`, `List.RemoveAll`, and the map written pair by pair.

The modelling follows one convention throughout:

- Each operation that changes state is a method of a class whose fields are
  the component's state. Its `ensures` ties the new state to a specification
  function of the old state.
- The properties are proved about those functions.
- Engine calls become entries in an event log or writes into a map:
  `SetFloat`, `SetValue`, `ClearSlot`, `BuildCharacter`, `PlayOneShot`,
  animator calls, object pools and asset import.
- Floats are `real`. `Mathf.Clamp` is written out with the engine's branch
  order.
- Every random draw is an explicit input, either a draw sequence or a
  `nat -> nat` stream with a cursor.

Behaviour of the code the model keeps:

- A character joint whose parent bone is missing is not skipped. The code
  dereferences the lookup and throws. `Ragdoll.PhysicsAvatar.SecondPass`
  therefore requires every parent bone to resolve.
- `GetRandomClip` returns null only for a null clip array. An empty array is
  indexed at 0 and throws, so it is a precondition.
- `IsHatToPutOff` decides on the first punch-off entry of a slot group only,
  because the loop breaks there. A later entry for the same group is never
  consulted.
- Health is a reactive property. Its subscriber runs only when the value
  changes, so a punch of force 0 does not re-trigger the knock-out.

## Model

| member | source | states |
|---|---|---|
| Common.Clamp | Assets/_code/UMA/UmaDamageableAvatar.cs:143 | Mathf.Clamp: below min gives min, otherwise above max gives max, otherwise the value. The result is in [min, max] whenever min <= max. |
| Common.Clamp01 | Assets/_code/UMA/UmaDamageableAvatar.cs:125 | Mathf.Clamp01: the result is always in [0, 1], and it is the value itself when that already lies in [0, 1]. |
| Common.Keep | Assets/UMA/Core/Editor/Extensions/DynamicCharacterSystem/UMARandomizerEditor.cs:329 | After List.RemoveAll, an element remains exactly when it was in the list and is not flagged. The list never grows. |
| Common.Dropped | Assets/UMA/Core/Editor/Extensions/DynamicCharacterSystem/UMARandomizerEditor.cs:329 | The count RemoveAll returns is the number of elements taken out. It is 0 exactly when no element is flagged. |
| Common.OverwriteIdempotent | Assets/_code/UMA/UmaDamageableAvatar.cs:225-250 | Applying the same key/value writes twice leaves what applying them once leaves. |
| Common.OverwriteUntouched | Assets/_code/UMA/UmaDamageableAvatar.cs:244-247 | A key that no write touches keeps its value. |
| Common.OverwriteLast | Assets/_code/UMA/UmaDamageableAvatar.cs:244-247 | A key ends with the value of the last write to it. |
| Common.Zeros | Assets/_code/UMA/UmaDamageableAvatar.cs:400-407 | The delta list of a freshly recorded DNA type has one 0 per parameter name. |
| UmaDamage.FirstMatch | Assets/_code/UMA/UmaDamageableAvatar.cs:364-371 | The shared "loop until the first hit" search: the first element satisfying the predicate, with no earlier one satisfying it, or none exactly when no element does. FindRenderer, FindShaderMaterial, FirstArea and FirstPunchOff are its instances. |
| UmaDamage.FindRenderer | Assets/_code/UMA/UmaDamageableAvatar.cs:364-371 | Returns the first renderer with the name, or none exactly when no renderer has it. |
| UmaDamage.FindShaderMaterial | Assets/_code/UMA/UmaDamageableAvatar.cs:337-344 | Returns the first material whose shader has the name, or none exactly when none has it. |
| UmaDamage.GetMaterial | Assets/_code/UMA/UmaDamageableAvatar.cs:329-347 | Returns the first material with the area's shader on the first renderer named like the area, with its index. It returns none exactly when there is no such renderer or no such material. |
| UmaDamage.FindDnaInd | Assets/_code/UMA/UmaDamageableAvatar.cs:159-166 | Returns -1 exactly when the parameter is not among the names, otherwise the index of its first occurrence. |
| UmaDamage.FirstArea | Assets/_code/UMA/UmaDamageableAvatar.cs:134-135 | Returns the first area with the id, or none exactly when no area has it. This is the area the loops stop at. |
| UmaDamage.FirstPunchOff | Assets/_code/UMA/UmaDamageableAvatar.cs:353-359 | Returns the first punch-off entry for the slot group, or none exactly when there is none. |
| UmaDamage.IsHatToPutOff | Assets/_code/UMA/UmaDamageableAvatar.cs:349-362 | True exactly when the first entry for the slot group has MinForce <= force. |
| UmaDamage.MaterialHit | Assets/_code/UMA/UmaDamageableAvatar.cs:125-126 | The new running value is in [0, 1]. It equals current + force * ForceFactor when that sum is in [0, 1]. Index and factor are kept. |
| UmaDamage.MaterialsAfterHit | Assets/_code/UMA/UmaDamageableAvatar.cs:122-130 | Only the key the area maps to changes, by one MaterialHit. An unknown area or key changes nothing, and the key set is kept. |
| UmaDamage.MaterialHitMonotone | Assets/_code/UMA/UmaDamageableAvatar.cs:125 | With non-negative force and factor, a hit never lowers a running value, and the value stays at most 1. |
| UmaDamage.SharedKeyAccumulates | Assets/_code/UMA/UmaDamageableAvatar.cs:317-325 | Two areas that share a material key accumulate into one running value. |
| UmaDamage.SharedKeySaturates | Assets/_code/UMA/UmaDamageableAvatar.cs:317-325 | Two hits with non-negative forces on areas sharing a key equal one hit with the summed force. The shared value reaches 1 exactly when the summed increment reaches 1 - current. |
| UmaDamage.ReadAreasSucceeds | Assets/_code/UMA/UmaDamageableAvatar.cs:309-327 | The read completes without a Dictionary.Add exception exactly when no two resolvable areas share an AreaId and none is already bound. |
| UmaDamage.ReadAreasKeeps | Assets/_code/UMA/UmaDamageableAvatar.cs:312-326 | A completed read keeps every existing binding and running value, and every area maps to a key with a running value and a material. |
| UmaDamage.ReadAreasBindsHead | Assets/_code/UMA/UmaDamageableAvatar.cs:317-325 | After a completed read, the first area (if it resolves) is bound to its key. A new key starts at 0 with the area's parameter and factor. |
| UmaDamage.ReadAreasBinds | Assets/_code/UMA/UmaDamageableAvatar.cs:317-325 | After a completed read, every resolvable area is bound to its own key. The running value of a new key comes from the first area that resolves to it. |
| UmaDamage.ReadUntilFailAgrees | Assets/_code/UMA/UmaDamageableAvatar.cs:309-327 | The partial tables an interrupted read leaves are well formed. When the read completes they equal its result. |
| UmaDamage.ReadAreasSkipsUnresolved | Assets/_code/UMA/UmaDamageableAvatar.cs:313-316 | An AreaId none of whose areas resolves to a material is never bound. |
| UmaDamage.ReadAreasStartAtZero | Assets/_code/UMA/UmaDamageableAvatar.cs:320-324 | After a read from empty tables, every running value starts at 0. |
| UmaDamage.DnaStep | Assets/_code/UMA/UmaDamageableAvatar.cs:142-143 | The new delta lies in [MinDelta, MaxDelta]. It is the old delta + force * ForceFactor when that is already in the band. |
| UmaDamage.ApplyDnaConfigKeeps | Assets/_code/UMA/UmaDamageableAvatar.cs:137-150 | One DNA config keeps value == baseline + delta for every driven parameter, and keeps channel names and lengths. It reports a change exactly when the parameter exists on the channel. |
| UmaDamage.ApplyDnaConfigsKeeps | Assets/_code/UMA/UmaDamageableAvatar.cs:134-156 | An area's configs in order keep value == baseline + delta and channel shapes. `changed` holds exactly when some config names an existing parameter. |
| UmaDamage.ApplyDnaConfigsInBand | Assets/_code/UMA/UmaDamageableAvatar.cs:142-146 | If every config's band lies within [lo, hi], a delta that starts in [lo, hi] stays there. |
| UmaDamage.ExprStep | Assets/_code/UMA/UmaDamageableAvatar.cs:176-177 | The new expression value lies in [min, max]. It equals value + force * ForceFactor when that is already inside. |
| UmaDamage.ApplyExprConfigs | Assets/_code/UMA/UmaDamageableAvatar.cs:174-178 | Applying an area's expression configs never changes the length of the value array. |
| UmaDamage.ApplyExprConfigsFrame | Assets/_code/UMA/UmaDamageableAvatar.cs:174-178 | Only indices named by a config change. |
| UmaDamage.ApplyExprConfigsLastInBand | Assets/_code/UMA/UmaDamageableAvatar.cs:176-177 | An index ends within the band of the last config that writes it. |
| UmaDamage.RebindWrite | Assets/_code/UMA/UmaDamageableAvatar.cs:226-248 | An area rebinds only a key that has a running value. |
| UmaDamage.RebindWrites | Assets/_code/UMA/UmaDamageableAvatar.cs:226-249 | Every write of a rebinding pass targets a key that has a running value. |
| UmaDamage.BoundWrites | Assets/_code/UMA/UmaDamageableAvatar.cs:246 | Each rebinding attaches its key to the found material, one entry per write, in order. |
| UmaDamage.ShaderWrites | Assets/_code/UMA/UmaDamageableAvatar.cs:247 | Each rebinding writes the key's current value into (material, parameter index), one entry per write, in order. |
| UmaDamage.RebindPassesCollapse | Assets/_code/UMA/UmaDamageableAvatar.cs:225-250 | Repeating the same rebinding pass any positive number of times (once per entry of _materialData) has the effect of one pass. |
| UmaDamage.RebindRestoresValue | Assets/_code/UMA/UmaDamageableAvatar.cs:244-248 | After rebinding, the shader parameter of a rebound key holds that key's running value, unless a later write targets the same slot. |
| UmaDamage.InitReadyStep | Assets/_code/UMA/UmaDamageableAvatar.cs:395-409 | Recording one DNA config keeps the remaining configs recordable. |
| UmaDamage.InitDnaConfigTables | Assets/_code/UMA/UmaDamageableAvatar.cs:397-408 | Recording one DNA config keeps baseline + delta equal to the channel's current values. |
| UmaDamage.InitDnaConfigsTables | Assets/_code/UMA/UmaDamageableAvatar.cs:394-410 | Recording all DNA configs keeps baseline + delta equal to the current values, with matching key sets and lengths. |
| UmaDamage.InitDnaConfigsKeys | Assets/_code/UMA/UmaDamageableAvatar.cs:397-401 | The recorded DNA types are the old ones plus the type of every config. Existing baselines are untouched. |
| UmaDamage.InitDnaConfigsFirstDecides | Assets/_code/UMA/UmaDamageableAvatar.cs:397-407 | The first config of a DNA type decides that type's baseline (its first \|Names\| values) and its zero deltas. |
| UmaDamage.InitDnaConfigsKept | Assets/_code/UMA/UmaDamageableAvatar.cs:397 | A DNA type that is already recorded keeps its baseline and deltas. |
| UmaDamage.InitDnaConfigsAppend | Assets/_code/UMA/UmaDamageableAvatar.cs:394-410 | Recording a + b equals recording a and then b. This is the area-by-area loop. |
| UmaDamage.HatEvents | Assets/_code/UMA/UmaDamageableAvatar.cs:197-200 | For each selected slot, in order, a SpawnHat and then a ClearSlot. |
| UmaDamage.MaterialsHealed | Assets/_code/UMA/UmaDamageableAvatar.cs:111-117 | After resetMaterials, every running value is 0, with the same keys, indices and factors. |
| UmaDamage.ShaderZeroed | Assets/_code/UMA/UmaDamageableAvatar.cs:115 | The given parameter slots are 0 and every other slot is unchanged. |
| UmaDamage.HealRestoresDna | Assets/_code/UMA/UmaDamageableAvatar.cs:86-97 | After resetDna, every recorded parameter is back at its baseline with delta 0. Other values and all key sets are unchanged, and value == baseline + delta still holds. |
| UmaDamage.HealIdempotent | Assets/_code/UMA/UmaDamageableAvatar.cs:81-120 | Healing twice leaves the running values, DNA and deltas as healing once. |
| UmaDamage.HitAfterHeal | Assets/_code/UMA/UmaDamageableAvatar.cs:111-128 | The first hit after a heal sets the shared value to Clamp01(force * ForceFactor). |
| UmaDamage.HatStep | Assets/_code/UMA/UmaDamageableAvatar.cs:197-200 | Putting off one more hat appends its SpawnHat and ClearSlot events. |
| UmaDamage.CopyInto | Assets/_code/UMA/UmaDamageableAvatar.cs:386 | Array.Copy writes the first n values of the source and leaves the rest of the destination. |
| UmaDamage.DamageableAvatar.constructor | Assets/_code/UMA/UmaDamageableAvatar.cs:35-46 | All tables start empty, the expression arrays start null, and the configuration is stored. |
| UmaDamage.DamageableAvatar.UpdateMaterials | Assets/_code/UMA/UmaDamageableAvatar.cs:122-130 | The running values become MaterialsAfterHit of the old ones. The bound material's parameter slot gets the new value, and the bindings stay well formed. |
| UmaDamage.DamageableAvatar.ApplyDnaConfigInPlace | Assets/_code/UMA/UmaDamageableAvatar.cs:138-150 | One DNA config applied to the live channel and the deltas equals ApplyDnaConfig. |
| UmaDamage.DamageableAvatar.ApplyAreaDna | Assets/_code/UMA/UmaDamageableAvatar.cs:137-151 | The area's configs applied in place equal ApplyDnaConfigs, and value == baseline + delta is kept. |
| UmaDamage.DamageableAvatar.UpdateDna | Assets/_code/UMA/UmaDamageableAvatar.cs:132-167 | Only the first area with the id is applied, and the channels, deltas and returned flag equal DnaAfterHit. The tables stay consistent. |
| UmaDamage.DamageableAvatar.UpdateExpressions | Assets/_code/UMA/UmaDamageableAvatar.cs:169-185 | The values become ExprAfterHit for the first area with the id. The player receives them only when there is a player and that area has configs. |
| UmaDamage.DamageableAvatar.SelectHatSlots | Assets/_code/UMA/UmaDamageableAvatar.cs:188-196 | The selected slots are exactly the worn slots that IsHatToPutOff accepts, each once. |
| UmaDamage.DamageableAvatar.PutOffHats | Assets/_code/UMA/UmaDamageableAvatar.cs:197-200 | The selected slots leave the wardrobe, and their HatEvents are logged. |
| UmaDamage.DamageableAvatar.UpdateHats | Assets/_code/UMA/UmaDamageableAvatar.cs:187-204 | Exactly the slots IsHatToPutOff accepts are spawned and cleared. One rebuild follows when any was. |
| UmaDamage.DamageableAvatar.HitBody | Assets/_code/UMA/UmaDamageableAvatar.cs:55-57 | The material step and then the DNA step of Damage. |
| UmaDamage.DamageableAvatar.HitFace | Assets/_code/UMA/UmaDamageableAvatar.cs:59-64 | The expression and hat steps of Damage, then a mesh-dirty event if the DNA changed. |
| UmaDamage.DamageableAvatar.Damage | Assets/_code/UMA/UmaDamageableAvatar.cs:54-65 | Materials, DNA, expressions and hats are updated in that order, then Dirty is called iff some DNA parameter was set. The bindings and DNA tables stay consistent. |
| UmaDamage.DamageableAvatar.ResetMaterials | Assets/_code/UMA/UmaDamageableAvatar.cs:111-117 | Every running value and its bound parameter slot become 0. |
| UmaDamage.DamageableAvatar.ResetDnaChannel | Assets/_code/UMA/UmaDamageableAvatar.cs:88-95 | One DNA type is set back to its baseline and its deltas to 0. |
| UmaDamage.DamageableAvatar.ResetDna | Assets/_code/UMA/UmaDamageableAvatar.cs:86-97 | The DNA becomes DnaHealed and the deltas DeltasHealed over all recorded types. |
| UmaDamage.DamageableAvatar.ResetExpressions | Assets/_code/UMA/UmaDamageableAvatar.cs:99-109 | When initial values exist and the player has values, the player gets the initial values. The working array (reused if long enough, otherwise new) starts with them. Otherwise nothing changes. |
| UmaDamage.DamageableAvatar.ResetBody | Assets/_code/UMA/UmaDamageableAvatar.cs:82-83 | resetMaterials then resetDna. |
| UmaDamage.DamageableAvatar.Heal | Assets/_code/UMA/UmaDamageableAvatar.cs:81-120 | Materials and DNA are put back as the reset members state. The expressions are reset as ResetExpressions states: the player gets the initial values, and the working array is reused with its tail kept or made fresh. With no initial values or no player values, the working array and its contents are kept. One Dirty call is logged. |
| UmaDamage.DamageableAvatar.ReadMaterialDataFromAvatar | Assets/_code/UMA/UmaDamageableAvatar.cs:309-327 | Succeeds exactly when ReadAreas from empty tables does. The tables are what the read built up to the failing area. |
| UmaDamage.DamageableAvatar.RebindPass | Assets/_code/UMA/UmaDamageableAvatar.cs:226-249 | One pass over the areas writes RebindWrites into the bound materials and the shader slots. |
| UmaDamage.DamageableAvatar.HandleCharacterUpdate | Assets/_code/UMA/UmaDamageableAvatar.cs:220-252 | With areas and running values, the outcome is one rebinding pass, however many entries drive the outer loop. Otherwise nothing changes. |
| UmaDamage.DamageableAvatar.CopyPlayerValues | Assets/_code/UMA/UmaDamageableAvatar.cs:381-388 | The array returned starts with the player's values. It is the given array when that is long enough, otherwise a fresh one of exactly that length. |
| UmaDamage.DamageableAvatar.InitUmaExpressionPlayer | Assets/_code/UMA/UmaDamageableAvatar.cs:373-389 | With a player, both arrays start with its values and are distinct. Each array is the old one, with its tail kept, when that was long enough, and a fresh one of exactly that length otherwise. Without a player, both arrays and their contents and the player values are kept. The player reference is always replaced. |
| UmaDamage.DamageableAvatar.RecordDnaConfig | Assets/_code/UMA/UmaDamageableAvatar.cs:396-408 | One config is recorded as InitDnaConfig states. |
| UmaDamage.DamageableAvatar.RecordDnaConfigs | Assets/_code/UMA/UmaDamageableAvatar.cs:395-409 | An area's configs are recorded as InitDnaConfigs states, and the later configs stay recordable. |
| UmaDamage.DamageableAvatar.InitUmaDnaValues | Assets/_code/UMA/UmaDamageableAvatar.cs:391-411 | The tables are cleared, then hold InitDnaConfigs over every area's configs in order. |
| UmaDamage.DamageableAvatar.BindMaterials | Assets/_code/UMA/UmaDamageableAvatar.cs:211-215 | With running values present, the materials are rebound. Otherwise the tables are read afresh, and success means no duplicate AreaId was met. |
| UmaDamage.DamageableAvatar.Initialise | Assets/_code/UMA/UmaDamageableAvatar.cs:216-217 | The expression player is initialised as InitUmaExpressionPlayer states, in both the found and the not-found case. The DNA baselines are those InitDnaConfigs records over every area. |
| UmaDamage.DamageableAvatar.HandleCharacterCreation | Assets/_code/UMA/UmaDamageableAvatar.cs:207-218 | Without areas nothing changes, array contents included. With running values, the tables are kept, the materials are rebound as RebindWrites states, and ok holds. Otherwise the tables are what ReadUntilFail reads, and ok holds exactly when ReadAreas succeeds. When ok, the expression player and DNA baselines are initialised as Initialise states. A failed read (exception) keeps the expression and DNA state. |
| PunchGame.InBandCountAppend | Assets/_code/PunchGame/GameController.cs:197-198 | The number of Random.value draws taken by two rule lists in a row is the sum of their draws. |
| PunchGame.FiredAppend | Assets/_code/PunchGame/GameController.cs:190-216 | The effects fired by two rule lists in a row are those of the first, then those of the second drawing from where the first stopped. |
| PunchGame.FiredIsPerRule | Assets/_code/PunchGame/GameController.cs:194-214 | The fired effects are, in order, exactly those of the rules with MinForce <= force < MaxForce whose own draw is below Probability. |
| PunchGame.BlankIsAllWhiteSpace | Assets/_code/PunchGame/GameController.cs:220-229 | string.IsNullOrWhiteSpace of a non-null string holds exactly when every character is Unicode white space. |
| PunchGame.SoundEvents | Assets/_code/PunchGame/GameController.cs:288-292 | A clip is played exactly when there is a hits audio source and the effect has a clip. |
| PunchGame.BoolEvents | Assets/_code/PunchGame/GameController.cs:223-228 | One SetBool per parameter, in order, with its name and value. |
| PunchGame.BoolEventsSnoc | Assets/_code/PunchGame/GameController.cs:224-227 | One more bool parameter appends its SetBool. |
| PunchGame.Place | Assets/_code/PunchGame/GameController.cs:254-282 | The placement table. The object is parented to the bone iff LinkToBone. It faces along the normal iff SetNormalDirection and a normal exists, else it takes the local or world Euler rotation. It is positioned relative to the hit iff IsRelativeToHitPoint and a hit point exists, local iff IsLocalOffset, and from the bone otherwise. It is released after a delay iff DestroyAfterTime. |
| PunchGame.PoolFor | Assets/_code/PunchGame/GameController.cs:296-308 | The returned pool is the one stored for the prefab. A known prefab changes nothing. An unknown one gets the next new pool. |
| PunchGame.SlowStep | Assets/_code/PunchGame/GameController.cs:236-244 | A non-positive scale changes nothing. Otherwise the time scale is multiplied and a timer to divide it back is queued. |
| PunchGame.ApplyEffectsAppend | Assets/_code/PunchGame/GameController.cs:190-216 | Applying two effect lists in a row equals applying the first and then the second. |
| PunchGame.Expire | Assets/_code/PunchGame/GameController.cs:242-243 | A fired slow-motion timer leaves one pending timer fewer. What it does to the scale is stated by ExpireKeepsStack and SlowThenExpire. |
| PunchGame.SlowStepKeepsStack | Assets/_code/PunchGame/GameController.cs:236-244 | SlowTime keeps the time scale equal to the product of the pending factors, all positive, whatever it is asked. |
| PunchGame.ExpireKeepsStack | Assets/_code/PunchGame/GameController.cs:242-243 | A timer firing, in any order, keeps the time scale equal to the product of the remaining factors. |
| PunchGame.SlowThenExpire | Assets/_code/PunchGame/GameController.cs:236-244 | A slow-down followed by its own timer restores the time scale and the pending timers exactly. |
| PunchGame.PoolForStable | Assets/_code/PunchGame/GameController.cs:296-308 | Pool ids stay distinct and existing entries are kept. Asking again for the same prefab returns the same pool and changes nothing. |
| PunchGame.SpawnEachKeeps | Assets/_code/PunchGame/GameController.cs:246-286 | Spawning keeps pool ids distinct, never rebinds a known prefab, and leaves the slow-motion stack alone. |
| PunchGame.EffectsKeepWorld | Assets/_code/PunchGame/GameController.cs:190-216 | Applying any fired effects keeps the pools distinct and the time scale equal to the product of the pending factors. |
| PunchGame.EffectsOnlySignal | Assets/_code/PunchGame/GameController.cs:186-234 | Applying fired effects only appends sound, animator and spawn events. Nothing before is changed and nothing reaches the patient. |
| PunchGame.PunchDamagesOnce | Assets/_code/PunchGame/GameController.cs:170-180 | A punch on an area logs its effects and then exactly one Damage call to the patient, as the last event. |
| PunchGame.HealthFraction | Assets/_code/PunchGame/GameController.cs:47 | The reported health h / MaxHealth is in [0, 1] for h in [0, MaxHealth], and is <= 0 iff h <= 0. |
| PunchGame.HealthAnim | Assets/_code/PunchGame/GameController.cs:160-162 | The health event is AnimFloat(parameter, h / MaxHealth), raised exactly when there is an animator and a parameter name. |
| PunchGame.MonitorKnocksOut | Assets/_code/PunchGame/GameController.cs:159-168 | Watching the health keeps the pools and the slow-motion stack and only appends events. Punches stay enabled iff they were and h > 0. A knock-out is added iff h <= 0, and then the time scale is multiplied by 0.2 and the knock-out timer's expiry restores it. |
| PunchGame.KnockOutImpulse | Assets/_code/PunchGame/GameController.cs:165 | The knock-out impulse is (0, KnockOutForce, KnockOutForce). |
| PunchGame.GameController.constructor | Assets/_code/PunchGame/GameController.cs:42-61 | Punches start disabled, force 0, health MaxHealth, time scale 1, and no pools, timers or events. |
| PunchGame.GameController.SetPunchForce | Assets/_code/PunchGame/GameController.cs:98-100 | The slider force is stored. |
| PunchGame.GameController.HandleNewCharacterGeneration | Assets/_code/PunchGame/GameController.cs:151-157 | The animator is always replaced. The patient is replaced only when the new character is damageable. |
| PunchGame.GameController.GetGameObjectPool | Assets/_code/PunchGame/GameController.cs:296-308 | Returns and stores what PoolFor states. |
| PunchGame.GameController.SlowTime | Assets/_code/PunchGame/GameController.cs:236-244 | The time scale and pending timers become what SlowStep states. |
| PunchGame.GameController.ExpireTimer | Assets/_code/PunchGame/GameController.cs:243 | A due timer divides its factor back out as Expire states. |
| PunchGame.GameController.SpawnAdditionalObjects | Assets/_code/PunchGame/GameController.cs:246-286 | Nothing happens without an animator. Otherwise every object with a prefab is taken from its pool and placed as Place states, in order. |
| PunchGame.GameController.PlayHitSound | Assets/_code/PunchGame/GameController.cs:288-292 | Appends SoundEvents. |
| PunchGame.GameController.ProcessAnimator | Assets/_code/PunchGame/GameController.cs:218-233 | With an animator: the force float unless its name is blank, each bool in order, then the trigger unless blank. Without one: nothing. |
| PunchGame.GameController.ApplyEffect | Assets/_code/PunchGame/GameController.cs:202-213 | Sound, animator, spawning, then slow motion if SetSlowMotion, as EffectStep states. |
| PunchGame.GameController.ProcessRules | Assets/_code/PunchGame/GameController.cs:194-215 | Applies exactly the Fired effects of one area's rules, and uses one draw per in-band rule. |
| PunchGame.GameController.ProcessArea | Assets/_code/PunchGame/GameController.cs:190-216 | An area with another id or no effects fires nothing. Otherwise its rules are processed. |
| PunchGame.GameController.ProcessAreaEffects | Assets/_code/PunchGame/GameController.cs:186-234 | Applies the Fired effects of the rules of every area with the id, area by area, drawing in sequence. |
| PunchGame.GameController.Punch | Assets/_code/PunchGame/GameController.cs:170-180 | The new state is PunchOutcome: without an area id nothing changes. Otherwise the area's fired effects are applied, then Damage is sent to the patient with the current force. Only a punch on an area needs a patient. |
| PunchGame.GameController.MonitorPatientHealth | Assets/_code/PunchGame/GameController.cs:159-168 | The new state is Monitor of the old state: the health fraction goes to the animator parameter when there is one. At h <= 0, punches are disabled, the patient is knocked out with the impulse, and time slows by 0.2 for 3 s. |
| PunchGame.GameController.SetHealth | Assets/_code/PunchGame/GameController.cs:92 | The health takes the new value. Only a value different from the old one reaches MonitorPatientHealth, and then the new state is exactly Monitor's. An equal value changes nothing else. |
| PunchGame.GameController.OnClick | Assets/_code/PunchGame/GameController.cs:112-120 | Without a started click, enabled punches and a hit, nothing changes. Otherwise the state is PunchOutcome of the hit, then health falls by ForceFactor * force and, if it changed, Monitor runs on the punched state. A fall to <= 0 with non-zero force disables punches. Only a punch needs a patient. |
| PunchGame.GameController.HealPatient | Assets/_code/PunchGame/GameController.cs:122-126 | Health becomes MaxHealth, the patient is healed, and punches are enabled. The time scale is untouched. |
| Ragdoll.AddCollidersKeepsBodies | Assets/_code/UMA/Extensions/Physics/UmaPhysicsExtAvatar.cs:140-150 | Adding colliders leaves bodies, the rigidbody list and the root alone. |
| Ragdoll.AddElementBodies | Assets/_code/UMA/Extensions/Physics/UmaPhysicsExtAvatar.cs:117-138 | An element without a bone changes nothing. Otherwise its bone gets a body with the start flags and its mass, is appended to the rigidbody list, and becomes the root if isRoot. |
| Ragdoll.RigidbodiesListed | Assets/_code/UMA/Extensions/Physics/UmaPhysicsExtAvatar.cs:117-132 | The first pass appends exactly the bones of the resolved elements, in element order. |
| Ragdoll.BodiesFlagged | Assets/_code/UMA/Extensions/Physics/UmaPhysicsExtAvatar.cs:129-138 | Bodies exist exactly on the old and resolved bones. Resolved ones carry the start flags, and other bodies are unchanged. |
| Ragdoll.RootIsLastRoot | Assets/_code/UMA/Extensions/Physics/UmaPhysicsExtAvatar.cs:133-135 | The root is the last resolved element marked isRoot, or the old root if there is none. |
| Ragdoll.AddCollidersSorts | Assets/_code/UMA/Extensions/Physics/UmaPhysicsExtAvatar.cs:140-150 | Each definition creates one new collider, appended to the list of its kind. Existing colliders are unchanged. |
| Ragdoll.CollidersSorted | Assets/_code/UMA/Extensions/Physics/UmaPhysicsExtAvatar.cs:117-152 | After the first pass, each kind's list is the old list plus one new collider of that kind per definition of that kind. |
| Ragdoll.TypeCountTotal | Assets/_code/UMA/Extensions/Physics/UmaPhysicsExtAvatar.cs:143-149 | Every definition is a box, a sphere or a capsule. |
| Ragdoll.CollidersAccounted | Assets/_code/UMA/Extensions/Physics/UmaPhysicsExtAvatar.cs:140-150 | The number of colliders created is the total over the three kinds. |
| Ragdoll.BuildKeepsListed | Assets/_code/UMA/Extensions/Physics/UmaPhysicsExtAvatar.cs:117-152 | Every listed collider still exists after the first pass. |
| Ragdoll.JointsShape | Assets/_code/UMA/Extensions/Physics/UmaPhysicsExtAvatar.cs:154-179 | One joint per resolved non-root element, on its bone. It is connected to the parent bone's body, or to none when that bone has no body. |
| Ragdoll.JointsConnectParents | Assets/_code/UMA/Extensions/Physics/UmaPhysicsExtAvatar.cs:166-177 | After the first pass, a joint whose parent is a resolved element's bone is connected to that body. |
| Ragdoll.TuneBodiesSets | Assets/_code/UMA/Extensions/Physics/UmaPhysicsExtAvatar.cs:303-310 | Listed bodies get the new kinematic and gravity flags and keep their mass. The others are unchanged. |
| Ragdoll.TuneTriggers | Assets/_code/UMA/Extensions/Physics/UmaPhysicsExtAvatar.cs:312-324 | Switching triggers never adds or removes a collider or moves it to another bone. |
| Ragdoll.TuneTriggersSets | Assets/_code/UMA/Extensions/Physics/UmaPhysicsExtAvatar.cs:312-324 | Listed colliders get the trigger flag and the others are unchanged. |
| Ragdoll.SetLayersMoves | Assets/_code/UMA/Extensions/Physics/UmaPhysicsExtAvatar.cs:326-330 | Every listed collider's object gets the layer. Other objects keep theirs, and no other object gains one. |
| Ragdoll.ClothGetsLists | Assets/_code/UMA/Extensions/Physics/UmaPhysicsExtAvatar.cs:288-293 | Every renderer with a Cloth gets the current sphere and capsule lists. Other cloths are unchanged. |
| Ragdoll.ClothWarnsIffHigh | Assets/_code/UMA/Extensions/Physics/UmaPhysicsExtAvatar.cs:294-299 | A warning is logged iff the build is a debug one with more than 10 cloth colliders and some renderer has a Cloth. |
| Ragdoll.CaptureRecords | Assets/_code/UMA/Extensions/Physics/UmaPhysicsExtAvatar.cs:222-233 | The cache records each existing bone transform with its current pose. |
| Ragdoll.RestoreUndoes | Assets/_code/UMA/Extensions/Physics/UmaPhysicsExtAvatar.cs:235-244 | Restoring a cache puts each cached transform back to its recorded pose and leaves the others. |
| Ragdoll.CaptureThenRestore | Assets/_code/UMA/Extensions/Physics/UmaPhysicsExtAvatar.cs:222-244 | Across a rebuild, every skeleton bone with a transform ends with the pose it had before. |
| Ragdoll.PhysicsAvatar.AddBoneCollider | Assets/_code/UMA/Extensions/Physics/UmaPhysicsExtAvatar.cs:143-149 | One collider is added as AddCollider states. |
| Ragdoll.PhysicsAvatar.AddBoneColliders | Assets/_code/UMA/Extensions/Physics/UmaPhysicsExtAvatar.cs:140-150 | An element's definitions are added in order. |
| Ragdoll.PhysicsAvatar.FirstPass | Assets/_code/UMA/Extensions/Physics/UmaPhysicsExtAvatar.cs:117-152 | The rig becomes BuildBodies of the old rig. |
| Ragdoll.PhysicsAvatar.SecondPass | Assets/_code/UMA/Extensions/Physics/UmaPhysicsExtAvatar.cs:154-179 | Appends BuildJoints. |
| Ragdoll.PhysicsAvatar.UpdateClothColliders | Assets/_code/UMA/Extensions/Physics/UmaPhysicsExtAvatar.cs:283-301 | Without UMAData nothing happens. Otherwise cloths get the lists and the high-count warnings are logged. |
| Ragdoll.PhysicsAvatar.TuneRigidbodies | Assets/_code/UMA/Extensions/Physics/UmaPhysicsExtAvatar.cs:303-310 | The bodies become TuneBodies. |
| Ragdoll.PhysicsAvatar.TuneColliders | Assets/_code/UMA/Extensions/Physics/UmaPhysicsExtAvatar.cs:312-331 | Triggers are set over box, sphere and capsule lists. Layers are set only when asked. |
| Ragdoll.PhysicsAvatar.SetUpdateWhenOffscreen | Assets/_code/UMA/Extensions/Physics/UmaPhysicsExtAvatar.cs:333-343 | Every renderer gets the flag when there is UMAData. |
| Ragdoll.PhysicsAvatar.SetProperties | Assets/_code/UMA/Extensions/Physics/UmaPhysicsExtAvatar.cs:246-274 | Bodies and colliders are tuned, the animator is switched when present, renderers get the offscreen flag, and the avatar moves to the root bone only when asked. |
| Ragdoll.PhysicsAvatar.BuildRig | Assets/_code/UMA/Extensions/Physics/UmaPhysicsExtAvatar.cs:117-181 | The first pass, the second pass, then the cloth lists of the new rig. |
| Ragdoll.PhysicsAvatar.Setup | Assets/_code/UMA/Extensions/Physics/UmaPhysicsExtAvatar.cs:117-193 | The two passes, the cloth update, then SetProperties with the start settings and no move. |
| Ragdoll.PhysicsAvatar.Init | Assets/_code/UMA/Extensions/Physics/UmaPhysicsExtAvatar.cs:105-220 | Without UMAData, only an error is logged in debug builds. Otherwise the full setup runs. |
| Ragdoll.PhysicsAvatar.AddForce | Assets/_code/UMA/Extensions/Physics/UmaPhysicsExtAvatar.cs:276-280 | Only the root body is pushed, and only if there is one. |
| Ragdoll.PhysicsAvatar.OnCharacterBegun | Assets/_code/UMA/Extensions/Physics/UmaPhysicsExtAvatar.cs:222-233 | When the argument's animator is missing or off, the cache is refilled from the skeleton. Otherwise it is kept. |
| Ragdoll.PhysicsAvatar.OnCharacterUpdated | Assets/_code/UMA/Extensions/Physics/UmaPhysicsExtAvatar.cs:235-244 | When the argument is null or its animator is missing or off, the cached poses are written back and the cache cleared. Otherwise nothing changes. |
| RendererSlots.HasSlot | Assets/_code/UMA/DcaRendererManager.cs:147-157 | True exactly when the list is not null and some non-null entry has the slot name. |
| RendererSlots.LoadedAssetsKeepsUsable | Assets/_code/UMA/DcaRendererManager.cs:127-141 | The assets collected from a recipe are non-null. They are exactly the assets of its non-null, non-blend-shape slots. |
| RendererSlots.CopiesCarryAssets | Assets/_code/UMA/DcaRendererManager.cs:103-107 | One copy of the slot per renderer asset, in order, each carrying that asset. |
| RendererSlots.ElementCopiesCount | Assets/_code/UMA/DcaRendererManager.cs:88-109 | An element adds \|rendererAssets\| copies per matching recipe slot. |
| RendererSlots.ElementCopiesFromMatches | Assets/_code/UMA/DcaRendererManager.cs:88-109 | Every copy is a matching recipe slot carrying one of the element's renderer assets. |
| RendererSlots.WardrobeAssetsNonNull | Assets/_code/UMA/DcaRendererManager.cs:122-144 | The wardrobe-slot asset list never holds a null. |
| RendererSlots.WardrobeAssetsOffered | Assets/_code/UMA/DcaRendererManager.cs:82-85 | An asset is in the wardrobe-slot list iff one of the element's wardrobe slots offers it. |
| RendererSlots.AllCopiesFromActive | Assets/_code/UMA/DcaRendererManager.cs:74-110 | Every added slot comes from an element with a non-empty renderer list, a matching recipe slot, and one of its renderer assets. |
| RendererSlots.RendererManager.constructor | Assets/_code/UMA/DcaRendererManager.cs:38-43 | The last flag starts equal to the current one, so there is no rebuild until it changes. |
| RendererSlots.RendererManager.Update | Assets/_code/UMA/DcaRendererManager.cs:45-59 | A rebuild is requested, and the flag remembered, iff the flag changed and the race is valid, no update is pending and the avatar is not hidden. |
| RendererSlots.RendererManager.AddWardrobeSlotAssets | Assets/_code/UMA/DcaRendererManager.cs:122-144 | Appends the usable assets of the wardrobe slot's recipe. |
| RendererSlots.RendererManager.CollectWardrobeAssets | Assets/_code/UMA/DcaRendererManager.cs:82-85 | The list is cleared and refilled over the element's wardrobe slots. |
| RendererSlots.RendererManager.AddCopies | Assets/_code/UMA/DcaRendererManager.cs:103-107 | Appends Copies. |
| RendererSlots.RendererManager.AddElementCopies | Assets/_code/UMA/DcaRendererManager.cs:88-109 | Appends the copies for every recipe slot named by the element's slot assets or wardrobe assets. |
| RendererSlots.RendererManager.AddSlotsForRenderers | Assets/_code/UMA/DcaRendererManager.cs:70-120 | When any copies were made, the recipe becomes the copies followed by the old slots. Otherwise it is unchanged. Both work lists end empty. |
| RendererSlots.RendererManager.CharacterBegun | Assets/_code/UMA/DcaRendererManager.cs:61-68 | The recipe gets the renderer copies only when they were not added yet, renderers are enabled and the mesh is dirty; the work lists are then cleared and the added flag never falls back. Otherwise nothing changes. |
| RandomPatient.Range | Assets/_code/UMA/UmaRandomPatient.cs:45 | Random.Range(min, max) for ints lies in [min, max) when min < max; the model takes min otherwise (see "## Left out"). |
| RandomPatient.PickFrom | Assets/_code/UMA/UmaRandomPatient.cs:43-49 | The search stops at the first entry whose draw falls under its chance. It falls back to the last entry. |
| RandomPatient.CertainSlotStopsSearch | Assets/_code/UMA/UmaRandomPatient.cs:43-49 | An entry whose chance is at least the total is never passed over. |
| RandomPatient.ZeroChanceOnlyAsFallback | Assets/_code/UMA/UmaRandomPatient.cs:43-49 | An entry with chance <= 0 is chosen only as the final fallback. |
| RandomPatient.ColorIndex | Assets/_code/UMA/UmaRandomPatient.cs:53 | The colour index is inside the table. |
| RandomPatient.ChooseRandomizer | Assets/_code/UMA/UmaRandomPatient.cs:83-94 | No list or an empty list gives no randomizer and uses no draw. One entry is taken without a draw. Otherwise one listed entry is drawn. |
| RandomPatient.SetColors | Assets/_code/UMA/UmaRandomPatient.cs:59-67 | The colour loop takes exactly one draw per entry that has a colour table. |
| RandomPatient.SetColorsFromTables | Assets/_code/UMA/UmaRandomPatient.cs:59-67 | Every entry with a table gets a colour, and every changed colour comes from that entry's table. Race, DNA and recipes are untouched. |
| RandomPatient.DressGroupFromEntries | Assets/_code/UMA/UmaRandomPatient.cs:112-116 | A slot group puts on at most recipes drawn from its own entries, each under its own wardrobe slot. The draws advance. It needs only a non-empty group and indexable tables on the entry the draws choose. |
| RandomPatient.DressGroup | Assets/_code/UMA/UmaRandomPatient.cs:112-116 | One group consumes the choice's draws, then one draw per colour table of the chosen entry if its recipe is put on. |
| RandomPatient.FilledGroupsDrawable | Assets/_code/UMA/UmaRandomPatient.cs:111-117 | Non-empty groups whose every entry has indexable tables are drawable for any draws. |
| RandomPatient.SetGroupsFromEntries | Assets/_code/UMA/UmaRandomPatient.cs:111-117 | Every recipe put on comes from an entry of some group, under its own wardrobe slot. Each group needs to be drawable only at the cursor where the loop reaches it. |
| RandomPatient.RandomizeDressesFromGroups | Assets/_code/UMA/UmaRandomPatient.cs:79-119 | The wardrobe is cleared. Without a randomizer nothing else changes. Otherwise race and DNA come from the random avatar, and every recipe worn comes from one of its groups. Only the chosen randomizer's avatar needs to be drawable. |
| RandomPatient.RandomPatientGenerator.constructor | Assets/_code/UMA/UmaRandomPatient.cs:12 | The randomizer list is stored. |
| RandomPatient.RandomPatientGenerator.GetRandomWardrobe | Assets/_code/UMA/UmaRandomPatient.cs:35-50 | Returns the entry Pick chooses, using one draw per entry examined. |
| RandomPatient.RandomPatientGenerator.GetRandomColor | Assets/_code/UMA/UmaRandomPatient.cs:52-55 | Returns an entry of the table. |
| RandomPatient.RandomPatientGenerator.SetRandomColors | Assets/_code/UMA/UmaRandomPatient.cs:103-109 | Sets the colours as SetColors states. |
| RandomPatient.RandomPatientGenerator.AddRandomSlot | Assets/_code/UMA/UmaRandomPatient.cs:57-68 | Puts on the recipe, then its colours. |
| RandomPatient.RandomPatientGenerator.DressOneGroup | Assets/_code/UMA/UmaRandomPatient.cs:112-116 | One group as DressGroup states. Only the chosen entry's tables need to be indexable. |
| RandomPatient.RandomPatientGenerator.DressGroups | Assets/_code/UMA/UmaRandomPatient.cs:111-117 | All groups in order, as SetGroups states. Each group needs to be drawable only at the cursor where the loop reaches it. |
| RandomPatient.RandomPatientGenerator.Randomize | Assets/_code/UMA/UmaRandomPatient.cs:79-119 | The avatar ends as RandomizeOutcome states. Only the randomizer the draws choose needs a drawable random avatar. |
| SoundScheduler.Between | Assets/_code/PunchGame/HeadBirds.cs:45 | A float Random.Range lies between its two bounds, in either order. |
| SoundScheduler.RandomClip | Assets/_code/PunchGame/HeadBirds.cs:64-69 | Null iff there is no clip array, otherwise one of its clips. |
| SoundScheduler.TickKeepsValid | Assets/_code/PunchGame/HeadBirds.cs:40-48 | An Update keeps the elapsed time non-negative and the delay 0 or within the range. |
| SoundScheduler.QuietUntilDelay | Assets/_code/PunchGame/HeadBirds.cs:40-48 | While the elapsed time stays within the delay, frames only add time and no sound is attempted. |
| SoundScheduler.BusyPoolKeepsCounting | Assets/_code/PunchGame/HeadBirds.cs:40-62 | While no source is idle, the timer keeps growing and the delay is never redrawn. |
| SoundScheduler.HeadBirds.constructor | Assets/_code/PunchGame/HeadBirds.cs:7-18 | The default delay range is (0.3, 0.5). The component starts disabled with timer and delay 0. |
| SoundScheduler.HeadBirds.Awake | Assets/_code/PunchGame/HeadBirds.cs:20-28 | Every pooled source gets playOnAwake false, no clip and no loop. |
| SoundScheduler.HeadBirds.OnEnable | Assets/_code/PunchGame/HeadBirds.cs:30-32 | Sets the enabled flag. |
| SoundScheduler.HeadBirds.OnDisable | Assets/_code/PunchGame/HeadBirds.cs:34-38 | Clears the flag and zeroes the timer and delay. |
| SoundScheduler.HeadBirds.GetRandomClip | Assets/_code/PunchGame/HeadBirds.cs:64-69 | Returns RandomClip. |
| SoundScheduler.HeadBirds.PlaySfx | Assets/_code/PunchGame/HeadBirds.cs:50-62 | Plays on the first idle source and reports success. With no pool it reports success without playing. When all sources are busy it reports failure and plays nothing. |
| SoundScheduler.HeadBirds.Update | Assets/_code/PunchGame/HeadBirds.cs:40-48 | The timer advances as Tick states: only a played sound past the delay restarts it with a drawn delay. Past the delay, with an idle source, a random clip is played on the first idle source and no other source. In every other case nothing is played. No source's playing state, clip, loop or play-on-awake flag changes. |
| RandomizerBookkeeping.CompatibleFrom | Assets/UMA/Core/Editor/Extensions/DynamicCharacterSystem/UMARandomizerEditor.cs:365-374 | True iff some listed race from position i on is the race or cross-compatible with it. |
| RandomizerBookkeeping.Compatible | Assets/UMA/Core/Editor/Extensions/DynamicCharacterSystem/UMARandomizerEditor.cs:363-375 | A recipe is compatible iff one of its races is the race itself or cross-compatible with it. |
| RandomizerBookkeeping.NameLeTotal | Assets/UMA/Core/Editor/Extensions/DynamicCharacterSystem/UMARandomizerEditor.cs:325 | Any two sort names compare one way or the other. |
| RandomizerBookkeeping.NameLeTrans | Assets/UMA/Core/Editor/Extensions/DynamicCharacterSystem/UMARandomizerEditor.cs:325 | The sort-name order is transitive. |
| RandomizerBookkeeping.Insert | Assets/UMA/Core/Editor/Extensions/DynamicCharacterSystem/UMARandomizerEditor.cs:325 | Inserting adds exactly the one entry. |
| RandomizerBookkeeping.InsertSorted | Assets/UMA/Core/Editor/Extensions/DynamicCharacterSystem/UMARandomizerEditor.cs:325 | Inserting into a sorted list keeps it sorted. |
| RandomizerBookkeeping.SortByName | Assets/UMA/Core/Editor/Extensions/DynamicCharacterSystem/UMARandomizerEditor.cs:325 | The slot list sorted by SortName is sorted and a permutation of the input. |
| RandomizerBookkeeping.RaceIndex | Assets/UMA/Core/Editor/Extensions/DynamicCharacterSystem/UMARandomizerEditor.cs:380-385 | Returns the first avatar of the race, or none exactly when no avatar has it. |
| RandomizerBookkeeping.RaceIndexByNames | Assets/UMA/Core/Editor/Extensions/DynamicCharacterSystem/UMARandomizerEditor.cs:382 | The search looks at race names only. |
| RandomizerBookkeeping.SweepPointwise | Assets/UMA/Core/Editor/Extensions/DynamicCharacterSystem/UMARandomizerEditor.cs:330-354 | The clean-up loop updates each element on its own. |
| RandomizerBookkeeping.SweepZero | Assets/UMA/Core/Editor/Extensions/DynamicCharacterSystem/UMARandomizerEditor.cs:330-354 | The loop counts no change iff no element's update counts one. |
| RandomizerBookkeeping.FoundIsFirstOrNew | Assets/UMA/Core/Editor/Extensions/DynamicCharacterSystem/UMARandomizerEditor.cs:378-389 | FindAvatar returns the first avatar of the race, leaving the list alone. Only when there is none is a new avatar for the race appended and returned. |
| RandomizerBookkeeping.CollapseSlotsShape | Assets/UMA/Core/Editor/Extensions/DynamicCharacterSystem/UMARandomizerEditor.cs:307-310 | Every slot's foldout is closed and nothing else changes. |
| RandomizerBookkeeping.CollapseAllShape | Assets/UMA/Core/Editor/Extensions/DynamicCharacterSystem/UMARandomizerEditor.cs:304-311 | Every avatar and every slot foldout is closed, and the list keeps its length. |
| RandomizerBookkeeping.AddedSlotsAreCompatible | Assets/UMA/Core/Editor/Extensions/DynamicCharacterSystem/UMARandomizerEditor.cs:316-323 | The entries added are exactly those of the compatible dropped recipes. |
| RandomizerBookkeeping.DropItemsEffect | Assets/UMA/Core/Editor/Extensions/DynamicCharacterSystem/UMARandomizerEditor.cs:303-327 | The race's avatar gets the compatible drops. Its slots are sorted and a permutation of its collapsed slots plus the drops, and its foldout is open iff something was added. Other avatars are only collapsed, and no delete flag changes. |
| RandomizerBookkeeping.FoundAfterCollapse | Assets/UMA/Core/Editor/Extensions/DynamicCharacterSystem/UMARandomizerEditor.cs:304-313 | Closing the foldouts does not change which avatar FindAvatar picks. |
| RandomizerBookkeeping.CleanSlotSettles | Assets/UMA/Core/Editor/Extensions/DynamicCharacterSystem/UMARandomizerEditor.cs:346-352 | A slot ends with no flagged colour and no pending table. Surviving colours are kept, a requested table is added empty, and nothing else changes. It counts 0 iff nothing was pending, and is then unchanged. |
| RandomizerBookkeeping.KeepAll | Assets/UMA/Core/Editor/Extensions/DynamicCharacterSystem/UMARandomizerEditor.cs:329 | RemoveAll with nothing flagged leaves the list as it is. |
| RandomizerBookkeeping.CleanSlotsSettles | Assets/UMA/Core/Editor/Extensions/DynamicCharacterSystem/UMARandomizerEditor.cs:345-353 | Every slot is settled with its delete flag kept. Settled slots are untouched, and the count is 0 iff all were settled. |
| RandomizerBookkeeping.CleanDnaSettles | Assets/UMA/Core/Editor/Extensions/DynamicCharacterSystem/UMARandomizerEditor.cs:331-342 | A pending DNA name is added and the field cleared, flagged DNA is removed, and DnaChanged is set iff something happened. The count is 0 iff nothing was pending, and the avatar is then unchanged. |
| RandomizerBookkeeping.CleanAvatarSettles | Assets/UMA/Core/Editor/Extensions/DynamicCharacterSystem/UMARandomizerEditor.cs:331-353 | An avatar ends settled with its race, foldout and delete flag kept. Surviving colours and settled slots are kept. |
| RandomizerBookkeeping.CleanAvatarCount | Assets/UMA/Core/Editor/Extensions/DynamicCharacterSystem/UMARandomizerEditor.cs:331-353 | An avatar counts no change iff it was settled, and is then unchanged. |
| RandomizerBookkeeping.SlotRemovalSettles | Assets/UMA/Core/Editor/Extensions/DynamicCharacterSystem/UMARandomizerEditor.cs:344-353 | After removal and clean-up, no slot is flagged or pending, and every settled survivor is kept. |
| RandomizerBookkeeping.SlotRemovalCount | Assets/UMA/Core/Editor/Extensions/DynamicCharacterSystem/UMARandomizerEditor.cs:344-353 | Slot removal and clean-up count nothing iff every slot was unflagged and settled, and then the list is unchanged. |
| RandomizerBookkeeping.CleanAvatarsSettles | Assets/UMA/Core/Editor/Extensions/DynamicCharacterSystem/UMARandomizerEditor.cs:330-354 | Every avatar is settled, keeping its race and delete flag. Settled ones are untouched. |
| RandomizerBookkeeping.CleanAvatarsCount | Assets/UMA/Core/Editor/Extensions/DynamicCharacterSystem/UMARandomizerEditor.cs:330-354 | The avatar loop counts nothing iff every avatar was settled. |
| RandomizerBookkeeping.CleanAllSettles | Assets/UMA/Core/Editor/Extensions/DynamicCharacterSystem/UMARandomizerEditor.cs:329-354 | Flagged avatars are removed, and the survivors keep their order and races and end settled. |
| RandomizerBookkeeping.CleanAllCount | Assets/UMA/Core/Editor/Extensions/DynamicCharacterSystem/UMARandomizerEditor.cs:329-354 | The clean-up counts nothing iff no avatar was flagged or pending, and then the list is unchanged. |
| RandomizerBookkeeping.UpdateOutcomeSettles | Assets/UMA/Core/Editor/Extensions/DynamicCharacterSystem/UMARandomizerEditor.cs:299-361 | After UpdateObject nothing is flagged or pending. ChangeCount is 0 iff there were no drops and nothing flagged or pending, and then the list is unchanged. |
| RandomizerBookkeeping.DropItemsFlagNothing | Assets/UMA/Core/Editor/Extensions/DynamicCharacterSystem/UMARandomizerEditor.cs:303-327 | Filing dropped items flags nothing for deletion. |
| RandomizerBookkeeping.DropItemsAddRecipe | Assets/UMA/Core/Editor/Extensions/DynamicCharacterSystem/UMARandomizerEditor.cs:316-323 | A compatible dropped recipe becomes an entry of the race's avatar. |
| RandomizerBookkeeping.DroppedRecipesArrive | Assets/UMA/Core/Editor/Extensions/DynamicCharacterSystem/UMARandomizerEditor.cs:299-361 | With no avatar flagged, every compatible dropped recipe ends as an entry of the race's avatar after the whole update. |
| RandomizerBookkeeping.Randomizer.constructor | Assets/UMA/Core/Editor/Extensions/DynamicCharacterSystem/UMARandomizerEditor.cs:301 | No drops pending and no imports yet. |
| RandomizerBookkeeping.RandomizerEditor.RecipeCompatible | Assets/UMA/Core/Editor/Extensions/DynamicCharacterSystem/UMARandomizerEditor.cs:363-375 | The loop returns true iff some listed race is the race or cross-compatible with it. |
| RandomizerBookkeeping.RandomizerEditor.FindAvatar | Assets/UMA/Core/Editor/Extensions/DynamicCharacterSystem/UMARandomizerEditor.cs:378-389 | The list and the returned position are what Found states. |
| RandomizerBookkeeping.RandomizerEditor.CollapseSlotList | Assets/UMA/Core/Editor/Extensions/DynamicCharacterSystem/UMARandomizerEditor.cs:307-310 | Closes every slot foldout. |
| RandomizerBookkeeping.RandomizerEditor.CollapseFoldouts | Assets/UMA/Core/Editor/Extensions/DynamicCharacterSystem/UMARandomizerEditor.cs:304-311 | Closes every avatar and slot foldout. |
| RandomizerBookkeeping.RandomizerEditor.AddDroppedItems | Assets/UMA/Core/Editor/Extensions/DynamicCharacterSystem/UMARandomizerEditor.cs:316-326 | The compatible drops are added to the found avatar and sorted, and the drop list is cleared. |
| RandomizerBookkeeping.RandomizerEditor.AddCompatible | Assets/UMA/Core/Editor/Extensions/DynamicCharacterSystem/UMARandomizerEditor.cs:316-323 | Appends exactly the compatible drops and opens the foldout iff one was added. Nothing else changes. |
| RandomizerBookkeeping.RandomizerEditor.CleanOneSlot | Assets/UMA/Core/Editor/Extensions/DynamicCharacterSystem/UMARandomizerEditor.cs:346-352 | Cleans one slot as CleanSlot states. |
| RandomizerBookkeeping.RandomizerEditor.CleanSlotList | Assets/UMA/Core/Editor/Extensions/DynamicCharacterSystem/UMARandomizerEditor.cs:345-353 | Cleans every slot, summing the counts. |
| RandomizerBookkeeping.RandomizerEditor.CleanDnaSteps | Assets/UMA/Core/Editor/Extensions/DynamicCharacterSystem/UMARandomizerEditor.cs:331-342 | Adds the pending DNA and removes the flagged DNA as CleanDna states. |
| RandomizerBookkeeping.RandomizerEditor.CleanOneAvatar | Assets/UMA/Core/Editor/Extensions/DynamicCharacterSystem/UMARandomizerEditor.cs:331-353 | Cleans one avatar as CleanAvatar states. |
| RandomizerBookkeeping.RandomizerEditor.CleanAvatarList | Assets/UMA/Core/Editor/Extensions/DynamicCharacterSystem/UMARandomizerEditor.cs:329-354 | Removes flagged avatars, cleans the rest, and returns the count. |
| RandomizerBookkeeping.RandomizerEditor.UpdateObject | Assets/UMA/Core/Editor/Extensions/DynamicCharacterSystem/UMARandomizerEditor.cs:299-361 | The avatars become UpdateOutcome, the drop list is empty, and the asset is imported once iff ChangeCount > 0. |

## Left out

- Engine side effects are modelled as events or map writes and are not
  simulated. This covers materials, DNA components, animators, audio
  playback, transforms, physics forces, object instantiation, SpawnHat's mesh
  building and asset import. SpawnHat appears only as an event.
- Input handling and start-up are left out: GameController's
  Awake/OnEnable/OnDisable/Start/OnDestroy, the input-system callbacks,
  GeneratePatient, SpawnPatient and Exit. The Update slider formula
  (1 + sin(t * speed - start)) / 2 is not modelled; SetPunchForce takes its
  value, in [0, 1], as given.
- GameController: the UniRx/R3 timer is a pending timer that fires when
  ExpireTimer is called; its scheduling and the time-scale subscription are
  not modelled. PunchGame.GameController.AdvanceClock stands in for time
  passing: it moves the clock forward, and a timer becomes due to ExpireTimer
  once its deadline is reached. GetHitArea (a collider name) is an input.
- GameController.KnockOut on the avatar is engine-only (physics calls) and is
  an event. UmaDamageableAvatar.KnockOut is not part of this model.
- UmaRandomPatient.GenerateRandomCharacter (instantiation and build) is left
  out. GetRandomAvatar, GetRandomDNA and GetRandomSlots of the randomizer
  asset are given inputs. A null avatar passed to Randomize is not modelled.
- RandomPatient.Range: the model takes min whenever max <= min. The engine's
  int Random.Range swaps reversed bounds, and only equal bounds give min. The
  case is reached only by a non-positive weight total, and the editor's Chance
  slider (IntSlider from 1 to 100, UMARandomizerEditor.cs:121 and :158) keeps
  every chance positive.
- RandomPatient.PickFrom: the int sum of chances is unbounded; 32-bit
  overflow of `total` is not modelled.
- RandomPatient: SetSlot and SetColor are keyed writes; UMA's own wardrobe
  and colour logic is not part of this model.
- SoundScheduler: isPlaying is an input bit per source; playback ending over
  time is not modelled.
- SoundScheduler.HeadBirds.GetRandomClip: an empty clip array throws in the
  source, so a non-empty array is required. PlaySfx and Update require it
  only when they reach the draw: past the delay, with an idle source.
- Ragdoll.PhysicsAvatar.SecondPass: a missing parent bone throws in the
  source, so every parent bone is required to resolve.
- Ragdoll.PhysicsAvatar.SetProperties: moving to the root bone with no root
  throws in the source, so a root is required when moving.
- Ragdoll.PhysicsAvatar.Init: the lists are not cleared between calls in the
  source either; the model appends as the source does.
- Ragdoll: collider geometry (centres, sizes, radii, axes) and joint limits
  are not modelled; colliders carry their bone, kind and trigger flag.
- The UMA_ADDRESSABLES branch of DcaRendererManager.Update is not modelled.
- UmaDamage: Dictionary<,> enumeration order is not modelled. Reset loops
  run over sets, and their result does not depend on order.
- UmaDamage: MaterialParam's live Material reference is kept in a separate
  map from key to material id, so there is no aliasing between materials.
- UmaDamage.DamageableAvatar.Heal: it requires the expression player whenever
  initial expression values exist, because the source dereferences it then.
- UmaDamage.DamageableAvatar.InitUmaDnaValues: a null DnaEffectConfigs array
  throws in the source, so every area is required to have one.
- UmaDamage.DamageableAvatar.InitUmaDnaValues: InitReady is required, and
  Initialise, HandleCharacterCreation, RecordDnaConfig and RecordDnaConfigs
  carry the same requirement. For each DNA type recorded for the first time,
  GetDna must return a channel with at least as many values as the asset has
  names. Otherwise the source throws at UmaDamageableAvatar.cs:403-404
  (NullReferenceException for a missing channel, an out-of-range GetValue for
  a short one) after the type's empty lists were already stored. The
  partially filled tables left by that throw are not modelled.
- UmaDamage.DamageableAvatar.UpdateDna: DnaReady is required. The source
  throws when GetDna returns null (a NullReferenceException) and when a
  parameter lookup misses its table (KeyNotFoundException or
  IndexOutOfRangeException). Those paths are not modelled.
- UmaDamage.DamageableAvatar.HitBody: it requires DnaReady for the same
  exceptions, which it reaches through UpdateDna.
- UmaDamage.DamageableAvatar.UpdateExpressions: ExprReady is required. An
  expression index past the player's value array throws
  IndexOutOfRangeException in the source, and that path is not modelled.
- UmaDamage.DamageableAvatar.HitFace: it requires ExprReady for the same
  exception, which it reaches through UpdateExpressions.
- UmaDamage.DamageableAvatar.Damage: areasConfigured is required. Iterating
  a null area array throws NullReferenceException in the source, and that
  path is not modelled. DnaReady and ExprReady are required for the
  exceptions of UpdateDna and UpdateExpressions.
- PunchGame.GameController.Punch: a patient is required for a punch on an
  area. Without one, the Damage call throws NullReferenceException.
- PunchGame.GameController.MonitorPatientHealth: a patient is required at
  health <= 0. Without one, the knock-out throws NullReferenceException.
- PunchGame.GameController.SetHealth: a patient is required when the health
  changes to <= 0, for the same NullReferenceException in
  MonitorPatientHealth.
- PunchGame.GameController.OnClick: a patient is required when the click
  punches, for the NullReferenceExceptions of Punch and MonitorPatientHealth.
- PunchGame.GameController.HealPatient: a patient is required. Without one,
  the Heal call throws NullReferenceException.
- RandomPatient.RandomPatientGenerator.GetRandomWardrobe: a non-empty list
  is required. An empty one throws ArgumentOutOfRangeException at the
  fallback entry.
- RandomPatient.RandomPatientGenerator.GetRandomColor: a non-empty table is
  required. An empty one is indexed at 0 and throws IndexOutOfRangeException.
- RandomPatient.GroupDrawable: the same two exceptions, for the group and for
  the entry the draws choose. The predicates that build on it (GroupsDrawable,
  Drawable, ListedDrawable) require nothing of groups, entries or randomizers
  the draws do not reach.
- Ragdoll.PhysicsAvatar.SetProperties: UMAData is required. Without it, the
  source throws NullReferenceException on the component's UMAData.
- Ragdoll.PhysicsAvatar.OnCharacterBegun: the callback's argument is a
  present UMAData. A null argument dereferences its skeleton and throws
  NullReferenceException; that path is not modelled.
- RendererSlots.RendererManager: a null entry in a recipe's slot data list
  throws NullReferenceException on its slot name in the source. Slots are
  values in the model, so that entry cannot occur.
- RandomizerBookkeeping: the editor GUI (OnInspectorGUI, the drop area,
  asset scans) is not part of this model. SetDirty/ImportAsset is a counter.
- RandomizerBookkeeping.SortByName: List.Sort is not stable, while the model
  fixes one order (insertion sort) among entries with equal SortName.
- RandomizerBookkeeping.NameLe: string.CompareTo uses culture rules, while the
  model compares ordinally.
- RandomizerBookkeeping: avatars are values, not references. The avatar
  FindAvatar returns is a position in the list, so it is an index, not an
  alias. A new avatar's foldout starts closed.
- RandomizerBookkeeping.RandomizerEditor.UpdateObject: it requires a valid
  current race only when items were dropped, as the source indexes raceDatas
  only then. Null lists (colours, DNA) are not modelled.
