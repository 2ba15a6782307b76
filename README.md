# D9 Framework: a Dafny model of its sequential core

D9 Framework is a plugin for a colony-simulation game. This project models the parts of it that
have sequential logic. The host engine is replaced by abstract inputs.

- **ForceAllowPlaceOverFix**: two IL transpilers rewrite an instruction list. Before each
  instruction that precedes a `ldsfld ThingDefOf.SteamGeyser`, they splice in the block
  `ldarg.0; ldarg.1; callvirt ForceAllowPlaceOver; brtrue returnTrue`. They label the first usable
  `ldc.i4.1; ret` pair with the fresh label `returnTrue`, and log an error when no pair is labelled.
  The CanPlaceBlueprintOver transpiler looks one instruction ahead. The BlocksConstruction transpiler
  looks two ahead, so its loop stops one instruction earlier. Both share one specification,
  parameterised by that lookahead (`ahead`).
- **PatchOperationAddSafe**: a permissive XML merge. Each child of `value.node` acts as a "parent".
  Only a selected target with no children receives anything. With the Append parent order it gets
  deep copies of the grandchildren of the first parent that has any (great-grandchildren of
  `value.node`), and later parents add nothing. The "identical node" test is a stub that always answers true,
  so copies land only in targets that have no children. The Prepend parent order loops over the
  target's child count instead of the fragment's. It therefore never adds anything: the loop does
  not run on an empty target, and on a non-empty one every parent finds an "identical" node. The class's doc comment
  promises to create a missing parent node. The code never creates a node, and the model follows
  the code.
- **PatchOperationFindPackage**: finds whether any listed package id is active, then applies at most
  one child operation. The result defaults to true.
- **CompValidator**: the tick stops at the first rejecting place-worker and minifies or destroys the
  parent. The properties class can only turn `ShouldUse` off. Its doc comment calls it "true by
  default", but the code starts it false, so the validator never acts. The model follows the code,
  and `ShouldUseNeverSet` proves the consequence.
- **CompSelfRepair**: the tick increments a local copy of the hit points, so the parent is never repaired.
- **D9FModSettings**: derived switches are boolean formulas over `DEBUG` and the per-patch flags.
  Loading falls back to each key's default.
- **ULog**: message, warning and error lines are the prefix `"[" + modid + "] "` plus the message.
  Debug lines appear only when the settings store's `DEBUG` is set. They carry the prefix unless the
  caller passes `addPrefix = false`; the C# default is true.

Static state is modelled as one object: the settings store is a `D9FModSettings` object. The log's
`modid` is passed as a parameter, and its initial value is `ULog.DefaultModId`. Host calls become
parameters:
- `PlaceWorker.AllowsPlacing` is the function `allowsPlacing`;
- `IsCheapIntervalTick` is the boolean `intervalTick`;
- `Prefs.DevMode` is the boolean `devMode`;
- the base class's inspect string is `baseString`;
- `ModLister` lookups are the functions `activeMod` and `expansion`;
- a child patch operation is represented by the result its `Apply` returns.

## Model

| member | source | states |
|---|---|---|
| ForceAllowPlaceOverFix.Block | Source/D9Framework/Harmony/ForceAllowPlaceOverFix.cs:37-43 | the spliced block has exactly four instructions |
| ForceAllowPlaceOverFix.FirstReturnTrue | Source/D9Framework/Harmony/ForceAllowPlaceOverFix.cs:44-49 | the step that sets `foundFirstReturnTrue` is the first scanned index whose instruction is `ldc.i4.1`, whose successor is `ret`, and where no splice happens; None exactly when no scanned index qualifies |
| ForceAllowPlaceOverFix.AddLabelOnly | Source/D9Framework/Harmony/ForceAllowPlaceOverFix.cs:48 | `labels.Add` appends the label to one instruction; every other instruction, and every opcode and operand, is unchanged |
| ForceAllowPlaceOverFix.EmittedLength | Source/D9Framework/Harmony/ForceAllowPlaceOverFix.cs:31-51 | output length is (n - ahead) + 4·k, where k counts the splices; a list of at most `ahead` instructions yields nothing |
| ForceAllowPlaceOverFix.EmittedLayout | Source/D9Framework/Harmony/ForceAllowPlaceOverFix.cs:34-51 | each scanned instruction i appears once, at position Start(i+1)-1, and the four-instruction block sits immediately before it exactly when the instruction `ahead` places later loads SteamGeyser |
| ForceAllowPlaceOverFix.EmittedInOrder | Source/D9Framework/Harmony/ForceAllowPlaceOverFix.cs:31-51 | the output of step i ends before the output of any later step begins, so input order is kept |
| ForceAllowPlaceOverFix.LabelledOnce | Source/D9Framework/Harmony/ForceAllowPlaceOverFix.cs:44-49 | with a fresh label, exactly the instruction at the first return-true step carries it, and no other instruction changes |
| ForceAllowPlaceOverFix.CanPlaceMissesOnlyWithoutPair | Source/D9Framework/Harmony/ForceAllowPlaceOverFix.cs:31-53 | looking one ahead, the error case happens exactly when no `ldc.i4.1; ret` pair occurs before the last instruction |
| ForceAllowPlaceOverFix.BlocksMissesOnlyWithoutUsablePair | Source/D9Framework/Harmony/ForceAllowPlaceOverFix.cs:69-92 | looking two ahead, the error case happens exactly when every pair in range is absent or followed two places later by the SteamGeyser load |
| ForceAllowPlaceOverFix.Transpile | Source/D9Framework/Harmony/ForceAllowPlaceOverFix.cs:28-51 | the loop labels the instruction list in place as LabelledList, yields Emitted, and ends with `foundFirstReturnTrue` iff a pair was labelled |
| ForceAllowPlaceOverFix.CanPlaceBlueprintOverTranspiler | Source/D9Framework/Harmony/ForceAllowPlaceOverFix.cs:26-54 | lookahead 1; the CanPlaceBlueprintOver error line is logged iff no pair was labelled |
| ForceAllowPlaceOverFix.BlocksConstrutionTranspiler | Source/D9Framework/Harmony/ForceAllowPlaceOverFix.cs:64-93 | lookahead 2; the BlocksConstruction error line is logged iff no pair was labelled |
| PatchOperationAddSafe.XmlDocument.AppendChild | Source/D9Framework/PatchOperations/PatchOperationAddSafe.cs:72 | an imported copy goes to the end of the target's children; nothing else changes |
| PatchOperationAddSafe.XmlDocument.PrependChild | Source/D9Framework/PatchOperations/PatchOperationAddSafe.cs:78 | an imported copy goes to the front of the target's children; nothing else changes |
| PatchOperationAddSafe.XmlNodesEqual | Source/D9Framework/PatchOperations/PatchOperationAddSafe.cs:63-66 | the equality test holds for every pair of nodes |
| PatchOperationAddSafe.IdenticalIffNonEmpty | Source/D9Framework/PatchOperations/PatchOperationAddSafe.cs:45-55 | an "identical" node exists exactly when the target has at least one child |
| PatchOperationAddSafe.ItemOrNull | Source/D9Framework/PatchOperations/PatchOperationAddSafe.cs:37 | indexing the fragment's children gives exactly the i-th node in range and null past the end |
| PatchOperationAddSafe.GrowAppend | Source/D9Framework/PatchOperations/PatchOperationAddSafe.cs:59-73 | with Append child order, copies of all grandchildren follow the existing children, in document order |
| PatchOperationAddSafe.GrowPrepend | Source/D9Framework/PatchOperations/PatchOperationAddSafe.cs:59-79 | with Prepend child order, the copies come before the existing children; each group keeps source order and later groups come first |
| PatchOperationAddSafe.GrowLength | Source/D9Framework/PatchOperations/PatchOperationAddSafe.cs:59-79 | either child order adds exactly one copy per grandchild |
| PatchOperationAddSafe.ApplyParentsKeepsNonEmpty | Source/D9Framework/PatchOperations/PatchOperationAddSafe.cs:43-60 | a target that has children is left unchanged by any sequence of parents |
| PatchOperationAddSafe.MergeOnlyFillsEmpty | Source/D9Framework/PatchOperations/PatchOperationAddSafe.cs:31-37 | under either parent order, a target that already has children is unchanged |
| PatchOperationAddSafe.PrependParentOrderNeverAdds | Source/D9Framework/PatchOperations/PatchOperationAddSafe.cs:35-37 | with Prepend parent order the target is never modified |
| PatchOperationAddSafe.FirstWithGrandchildren | Source/D9Framework/PatchOperations/PatchOperationAddSafe.cs:33 | the first fragment child with at least one grandchild; None exactly when none has any |
| PatchOperationAddSafe.AppendParentOrderOnEmpty | Source/D9Framework/PatchOperations/PatchOperationAddSafe.cs:31-33 | with Append parent order an empty target receives only what the first fragment child with grandchildren contributes; later fragment children add nothing |
| PatchOperationAddSafe.AddedToEmptyCopies | Source/D9Framework/PatchOperations/PatchOperationAddSafe.cs:59-79 | those additions are exactly copies of that child's grandchildren, in Append or Prepend arrangement, and there is at least one |
| PatchOperationAddSafe.ApplyAllOnlyFillsEmptyTargets | Source/D9Framework/PatchOperations/PatchOperationAddSafe.cs:26-39 | unselected nodes keep their children, non-empty targets keep theirs, and nothing changes under Prepend parent order |
| PatchOperationAddSafe.PatchOperationAddSafeOp.constructor | Source/D9Framework/PatchOperations/PatchOperationAddSafe.cs:18-19 | the operation holds the given fragment and orders |
| PatchOperationAddSafe.PatchOperationAddSafeOp.Default | Source/D9Framework/PatchOperations/PatchOperationAddSafe.cs:19 | both orders default to Append |
| PatchOperationAddSafe.PatchOperationAddSafeOp.AppendOrPrependNode | Source/D9Framework/PatchOperations/PatchOperationAddSafe.cs:68-81 | only the target's child list changes: copies of the node's children are appended in order, or prepended by a last-to-first loop so they stay in order |
| PatchOperationAddSafe.PatchOperationAddSafeOp.ConditionallyApplyParent | Source/D9Framework/PatchOperations/PatchOperationAddSafe.cs:43-61 | only the target's child list changes, as ParentStep says: unchanged when an identical node exists, otherwise grown by the parent's grandchildren |
| PatchOperationAddSafe.PatchOperationAddSafeOp.ApplyToTarget | Source/D9Framework/PatchOperations/PatchOperationAddSafe.cs:29-38 | one selected target is merged as MergeTarget says; every other node is unchanged |
| PatchOperationAddSafe.PatchOperationAddSafeOp.ApplyWorker | Source/D9Framework/PatchOperations/PatchOperationAddSafe.cs:21-41 | returns true exactly when at least one node was selected; the document becomes ApplyAll of the selection |
| Search.FirstIndex | Source/D9Framework/PatchOperations/PatchOperationFindPackage.cs:22-28 | the first element that passes the test; None exactly when none passes |
| Search.Examined | Source/D9Framework/PatchOperations/PatchOperationFindPackage.cs:22-28 | a loop that breaks on the first hit examines the elements up to and including that hit, and all of them when nothing passes |
| PatchOperationFindPackage.ApplyWorker | Source/D9Framework/PatchOperations/PatchOperationFindPackage.cs:19-39 | found iff some id is an active mod or expansion; when found it returns `match`'s result (or true when `match` is null), otherwise `nomatch`'s (or true); at most one child is applied; ids after the first hit are not looked up |
| PatchOperationFindPackage.EmptyListNeverMatches | Source/D9Framework/PatchOperations/PatchOperationFindPackage.cs:21-29 | an empty id list is never found |
| CompValidator.CompPropertiesValidator.constructor | Source/D9Framework/Comps/CompValidator.cs:64-74 | tickInterval is 250, ShouldUse starts false, and compClass is CompValidator |
| CompValidator.CompPropertiesValidator.ConfigErrors | Source/D9Framework/Comps/CompValidator.cs:75-82 | null or empty place-workers: exactly one message and ShouldUse off; otherwise no message and ShouldUse unchanged; never turns ShouldUse on |
| CompValidator.MinifyOrDestroyFate | Source/D9Framework/Comps/CompValidator.cs:46-56 | exactly one outcome: minified and placed near the position iff the def is minifiable, otherwise destroyed with KillFinalize |
| CompValidator.CompValidator.MinifyOrDestroy | Source/D9Framework/Comps/CompValidator.cs:44-57 | the parent's fate becomes MinifyOrDestroyFate; position and hit points are unchanged |
| CompValidator.CompValidator.CompTick | Source/D9Framework/Comps/CompValidator.cs:17-31 | no worker is consulted unless ShouldUse and the interval tick hold; workers are consulted up to the first rejecting one; MinifyOrDestroy runs once iff one rejects (it requires a spawned parent, and its result is no longer spawned, so a second call is ruled out); otherwise the parent is unchanged; position, hit points and max hit points are always kept |
| CompValidator.ShouldUseNeverSet | Source/D9Framework/Comps/CompValidator.cs:69-82 | properties built by the constructor and passed through ConfigErrors never let the tick act |
| CompValidator.CompValidator.CompInspectStringExtra | Source/D9Framework/Comps/CompValidator.cs:33-42 | outside dev mode the base string; in dev mode the base, the count header and the first min(3, count) worker lines |
| CompValidator.HeaderHasNoBreak | Source/D9Framework/Comps/CompValidator.cs:38 | the count header contains no line break |
| CompValidator.WorkerLineBreak | Source/D9Framework/Comps/CompValidator.cs:39 | a worker line whose name has no line break holds exactly one |
| CompValidator.WorkerLinesBreaks | Source/D9Framework/Comps/CompValidator.cs:39 | each listed worker contributes exactly one line break |
| CompValidator.InspectLineCount | Source/D9Framework/Comps/CompValidator.cs:35-41 | in dev mode the base string is kept as a prefix and exactly min(3, count) lines are added |
| CompSelfRepair.CompPropertiesSelfRepair.constructor | Source/D9Framework/Comps/CompSelfRepair.cs:35-41 | tickInterval is 250 and compClass is CompSelfRepair |
| CompSelfRepair.CompSelfRepair.CompTick | Source/D9Framework/Comps/CompSelfRepair.cs:16-21 | the local hp goes up by exactly one iff it is an interval tick, the def uses hit points, and hp < MaxHitPoints; it stays at or below MaxHitPoints if it started there; the heap is untouched |
| CompSelfRepair.TickLeavesHitPoints | Source/D9Framework/Comps/CompSelfRepair.cs:19-20 | the parent's hit points are the same after a tick |
| CompSelfRepair.CompSelfRepair.CompInspectStringExtra | Source/D9Framework/Comps/CompSelfRepair.cs:22-27 | the base string is kept as a prefix; "CompSelfRepair with TicksPerRepair " plus the interval is added only in dev mode |
| Text.NatToString | Source/D9Framework/Comps/CompSelfRepair.cs:25 | a number's decimal text: at least one digit, no leading zero, and the digits denote n under the independent reading DecimalValue |
| Text.IntToString | Source/D9Framework/Comps/CompSelfRepair.cs:25 | an integer's text: for i >= 0 digits denoting i; for i < 0 a minus sign followed by digits denoting -i; never a leading zero |
| ModSettings.D9FModSettings.constructor | Source/D9Framework/ModSettings.cs:13-24 | DEBUG, applyFAF and printPatchedMethods start false; all other flags start true |
| ModSettings.D9FModSettings.ApplyCompFromStuff | Source/D9Framework/ModSettings.cs:15 | always true outside debug mode; in debug mode equal to applyCFS |
| ModSettings.D9FModSettings.ApplyOrbitalTradeHook | Source/D9Framework/ModSettings.cs:16 | always true outside debug mode; in debug mode equal to applyOTH |
| ModSettings.D9FModSettings.ApplyDeconstructReturnFix | Source/D9Framework/ModSettings.cs:17 | always true outside debug mode; in debug mode equal to applyDRF |
| ModSettings.D9FModSettings.ApplyForceAllowPlaceOverFix | Source/D9Framework/ModSettings.cs:18 | equal to applyFAF whatever DEBUG is |
| ModSettings.D9FModSettings.ApplyCarryMassFramework | Source/D9Framework/ModSettings.cs:19 | always true outside debug mode; in debug mode equal to applyCMF |
| ModSettings.D9FModSettings.PrintPatchedMethods | Source/D9Framework/ModSettings.cs:20 | true only in debug mode, and then iff printPatchedMethods |
| ModSettings.D9FModSettings.SuppressDebugWarnings | Source/D9Framework/ModSettings.cs:21 | equal to applySDW whatever DEBUG is |
| ModSettings.LookValue | Source/D9Framework/ModSettings.cs:29-35 | a saved key gives its saved value; a missing key gives the listed default |
| ModSettings.D9FModSettings.Persisted | Source/D9Framework/ModSettings.cs:29-35 | exactly the seven listed keys are persisted, each with its field's value; printPatchedMethods is not among them (writing all seven is this model's simplification of the host's save) |
| ModSettings.D9FModSettings.ExposeData | Source/D9Framework/ModSettings.cs:26-36 | loading sets each persisted field from its key or default and keeps printPatchedMethods; saving writes Persisted and changes nothing |
| ModSettings.SaveThenLoad | Source/D9Framework/ModSettings.cs:26-36 | saving one store and loading the result into another copies every persisted field |
| ModSettings.LoadEmpty | Source/D9Framework/ModSettings.cs:29-35 | loading an empty save restores the constructor's defaults |
| ULog.Prefix | Source/D9Framework/Ulog.cs:16 | the prefix is "[", the mod id, then "] " |
| ULog.Unprefix | Source/D9Framework/Ulog.cs:16 | strips the prefix, and succeeds exactly when the text starts with it |
| ULog.DefaultPrefix | Source/D9Framework/Ulog.cs:15-16 | with the default mod id the prefix is "[D9 Framework] " |
| ULog.Message | Source/D9Framework/Ulog.cs:18-21 | a message-level line that is the prefix followed by exactly the message |
| ULog.Warning | Source/D9Framework/Ulog.cs:23-26 | a warning-level line that is the prefix followed by exactly the message |
| ULog.Error | Source/D9Framework/Ulog.cs:28-31 | an error-level line that is the prefix followed by exactly the message |
| ULog.Debug | Source/D9Framework/Ulog.cs:14 | the logger's DEBUG switch is the settings store's DEBUG field, read on every call |
| ULog.DebugMessage | Source/D9Framework/Ulog.cs:33-36 | emits iff the settings store's DEBUG is set; then a message-level line, prefixed iff addPrefix |

## Left out

- IL execution semantics, `ILGenerator.DefineLabel` and `AccessTools` reflection. The new label is the parameter `returnTrue`, and field and method identities are constructors of small datatypes.
- Lazy enumeration: each transpiler and `ConfigErrors` is modelled as enumerated to the end.
- CodeInstruction objects are the elements of an array that the walk updates in place. Aliasing between list elements and other holders of the same object is not modelled.
- XPath evaluation and XmlDocument internals: the selected targets are a given list of node ids, and `ImportNode(n, true)` is a value copy. Node text, attributes and names of the copies are not distinguished beyond the fragment value.
- A null `value` or a null item in the selection: these throw in the original and are not modelled.
- PatchOperationFindPackage.ApplyWorker: `packageIds` is always a list. When the XML omits it, the original throws a NullReferenceException in its `foreach`; that outcome is not modelled.
- The side effects of a child patch operation's `Apply` on the document: only its boolean result is modelled. `PatchOperationFindPackage.ToString` (the `ToCommaList` formatting) is not modelled.
- Host game objects: placement checks, the interval tick, dev mode and the base inspect string are parameters.
- CompValidator.CompValidator.CompTick: when active it requires a spawned parent, and so does MinifyOrDestroy, because the host only ticks spawned things. Ticking a despawned or destroyed thing is not modelled.
- Minifying and placing are modelled as the parent's `Fate`; `TryPlaceThing` is taken to succeed. The "ThingUninstalled" sound, `Map` and rotation are not modelled.
- A null place-worker list in `CompValidator.CompTick` (when active) and in `CompInspectStringExtra` (in dev mode) throws in the original. These methods therefore require a non-null list.
- ModSettings.D9FModSettings.ExposeData: `Scribe_Values` is host-owned and not part of this model. Only the key/default table is modelled. Writing every key on save is a simplification of this model, not the host's documented behaviour; the host may omit values equal to their defaults, which gives the same values on reload. Loading takes the saved value or the default.
- The settings window (`DoSettingsWindowContents`), `SettingsCategory` and the `D9FrameworkMod` constructor's Harmony bootstrapping are UI and load-time plumbing.
- The host log sinks: each logging helper yields the line it would hand to the sink.
- The ranged shield belt and its gizmo are not part of this model.
