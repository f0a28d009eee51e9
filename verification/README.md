# TempleMod core, modelled in Dafny

TempleMod is a Celeste mod that lets a map maker make a temple eye follow
Madeline instead of Theo's crystal. It does so at run time with two hooks:

- a hook on the `TempleEye` constructor that runs the original constructor
  and then tags the eye when the entity's `followMadeline` option is set;
- an IL manipulator on `TempleEye.Update` that finds the instruction
  sequence `ldarg.0; call get_Scene; callvirt get_Tracker; <any callvirt>;
  stloc.0|stloc.1` (in the vanilla body the fourth instruction is
  `GetEntity<TheoCrystal>`, but the fourth slot is not checked, so any
  `callvirt` there matches), keeps the `ldarg.0`, and replaces
  the three instructions after it by an invocation of `ReturnTrackedActor`,
  which returns the tracker's Player for a tagged eye and its TheoCrystal
  otherwise.

`Load` subscribes both handlers and `Unload` unsubscribes them.

The model has four modules:

- `Cil` (`cil.dfy`) holds the abstract instruction type and ordinal `String.Contains`.
  It also holds the forward window search that `ILCursor.TryGotoNext` performs from a fresh cursor,
  and the remove-then-emit splice.
- `TempleEyeUpdate` (`temple_eye_update.dfy`) holds the five predicates, the manipulator
  `PatchUpdate`, and what a rewrite leaves behind.
- `TempleEyeTracking` (`temple_eye_tracking.dfy`) holds tags, the constructor hook and the
  selector `ReturnTrackedActor`.
- `ModuleLifecycle` (`module_lifecycle.dfy`) holds the two invocation lists and `Load`/`Unload`.

`Wrappers` (`wrappers.dfy`) only holds `Option`.

Two safeguards a reader might expect are absent from the code, and the model follows the code:

- The code has no idempotency guard around the IL rewrite.
- Installing a hook twice raises no "already installed" error. `Load` simply subscribes again.

So nothing of the kind is modelled. Instead the model proves when repeating the
rewrite is harmless: if the body has at most one target window, and the emitted
invocation calls no `get_Scene`, then running the manipulator again changes
nothing (`PatchIdempotent`, `RepeatedPatchEditsOnce`).

Inputs standing for code outside this file are parameters:

- the original constructor (`orig`);
- the tracker lookup (`lookup: ActorKind -> Option<Actor>`);
- the instructions `EmitDelegate` emits (`emitted`, an arbitrary sequence).

## Model

| member | source | states |
|---|---|---|
| Cil.ContainsFrom | TempleMod/TempleModModule.cs:64-65 | the ordinal substring search from a position succeeds exactly when the name occurs at or after that position |
| Cil.Contains | TempleMod/TempleModModule.cs:64-65 | `Name.Contains(s)` holds exactly when `s` occurs somewhere in the method name |
| Cil.FindFrom | TempleMod/TempleModModule.cs:62-68 | the cursor search returns a position at or after the start where every predicate holds on a window that fits the body, with no matching window between the start and it; none means no window from the start on matches |
| Cil.FindFirst | TempleMod/TempleModModule.cs:62-68 | from a fresh cursor the search returns the first matching window of the whole body, or none when no window matches |
| Cil.Splice | TempleMod/TempleModModule.cs:73-75 | removing n instructions at a position and emitting a sequence there keeps everything before the position, places the emitted sequence there, keeps the rest shifted, and changes the length by the difference |
| Cil.SpliceUndo | TempleMod/TempleModModule.cs:73-75 | splicing the removed instructions back over the emitted ones restores the original body: the edit loses nothing outside the removed range |
| TempleEyeUpdate.PatternMatchesTarget | TempleMod/TempleModModule.cs:62-68 | the five cursor predicates match at i exactly when i starts ldarg.0, a call to a get_Scene method, a callvirt to a get_Tracker method, any callvirt, and stloc.0 or stloc.1 |
| TempleEyeUpdate.FindTarget | TempleMod/TempleModModule.cs:60-68 | a found index is the first targeted window of the body; when nothing is found no window anywhere has the targeted shape |
| TempleEyeUpdate.PatchAt | TempleMod/TempleModModule.cs:72-75 | after the edit at match index i, the ldarg.0 at i is kept, everything up to i is unchanged, the emitted sequence follows it, the former stloc directly follows that, every later instruction keeps its order, and the length is old length minus 3 plus the emitted length |
| TempleEyeUpdate.PatchUpdate | TempleMod/TempleModModule.cs:59-77 | the manipulator leaves a body with no targeted window unchanged, and otherwise performs the edit at the first targeted window |
| TempleEyeUpdate.PatchClearsMatchedWindow | TempleMod/TempleModModule.cs:62-75 | once the get_Scene call is removed, the window at the match index no longer has the targeted shape, for any emitted sequence that calls no get_Scene method |
| TempleEyeUpdate.NoTargetBeforeSuffix | TempleMod/TempleModModule.cs:62-75 | after the edit at the first match, no window starting in the kept prefix or in the emitted sequence has the targeted shape |
| TempleEyeUpdate.SuffixTargetShifted | TempleMod/TempleModModule.cs:73-75 | after the edit, a window starting after the emitted sequence has the targeted shape exactly when the original window it was shifted from had it |
| TempleEyeUpdate.PatchedTargets | TempleMod/TempleModModule.cs:62-75 | after the edit at the first match, the targeted windows of the new body are exactly the original body's windows lying wholly after the removed range, shifted by the length change |
| TempleEyeUpdate.PatchIdempotent | TempleMod/TempleModModule.cs:59-77 | for a body with at most one targeted window, running the manipulator on its own output changes nothing |
| TempleEyeUpdate.RepeatedPatchEditsOnce | TempleMod/TempleModModule.cs:59-77 | when n >= 1 copies of the manipulator run in turn (n loads subscribe n copies, see ModuleLifecycle.LoadsAddSubscriptions), a body with at most one targeted window ends up the same as after one run |
| TempleEyeUpdate.BuildShapesMatch | TempleMod/TempleModModule.cs:62-68 | the XNA build's stloc.0 and the FNA build's stloc.1 both match at index 0, and a store into any other local does not match |
| TempleEyeTracking.DataBool | TempleMod/TempleModModule.cs:49 | a boolean option present in the entity data reads its stored value, and an absent one reads false |
| TempleEyeTracking.AddTag | TempleMod/TempleModModule.cs:51 | adding a tag makes it present and adds nothing else; adding a tag that is already there changes nothing |
| TempleEyeTracking.ConstructHooked | TempleMod/TempleModModule.cs:46-53 | after the original constructor runs, the hook only adds tags: the follow tag is present exactly when the option is set or the original already set it, no other tag is added, and with the option off the eye is the original's result |
| TempleEyeTracking.StackedHookTagsOnce | TempleMod/TempleModModule.cs:46-53 | with the hook stacked n >= 1 times (n loads subscribe n copies, see ModuleLifecycle.LoadsAddSubscriptions), the constructed eye is the same as with one hook |
| TempleEyeTracking.ReturnTrackedActor | TempleMod/TempleModModule.cs:84-89 | the selector returns one of the tracker's two lookups, passed through as is; an absent result means the lookup the tag picks is absent; for a tracker that answers each kind with an entity of that kind, a present result is a Player exactly when the eye carries the follow tag, and a TheoCrystal exactly when it does not |
| TempleEyeTracking.SelectorContractDeterminesResult | TempleMod/TempleModModule.cs:84-89 | for a tracker that answers by kind, any result meeting the selector's contract is the Player lookup for a tagged eye and the TheoCrystal lookup otherwise, so that contract fixes the selector completely |
| TempleEyeTracking.HookedEyeTracksConfiguredActor | TempleMod/TempleModModule.cs:84-89 | for an eye built through the hook from a constructor that never sets the follow tag, the selector returns the Player lookup exactly when the entity data stores followMadeline = true and the TheoCrystal lookup otherwise; an absent lookup result comes back absent |
| ModuleLifecycle.LastIndexOf | TempleMod/TempleModModule.cs:33-34 | the found position holds the handler and no later position does; none means the handler is absent |
| ModuleLifecycle.Subscribe | TempleMod/TempleModModule.cs:27-28 | event += keeps the old invocation list as a prefix and puts the handler last |
| ModuleLifecycle.Unsubscribe | TempleMod/TempleModModule.cs:33-34 | event -= removes exactly one occurrence of a present handler and changes no other count; an absent handler leaves the list unchanged |
| ModuleLifecycle.UnsubscribeRemovesLast | TempleMod/TempleModModule.cs:33-34 | the occurrence event -= removes is the last one, and every other handler keeps its place and order |
| ModuleLifecycle.Load | TempleMod/TempleModModule.cs:25-29 | Load adds one constructor hook and one Update manipulator to the two lists and nothing else |
| ModuleLifecycle.Unload | TempleMod/TempleModModule.cs:31-35 | Unload removes one occurrence of each of the two handlers when present; a list without its handler is left unchanged |
| ModuleLifecycle.UnsubscribeAfterSubscribe | TempleMod/TempleModModule.cs:27-34 | subscribing then unsubscribing the same handler restores the invocation list exactly |
| ModuleLifecycle.UnloadUndoesLoad | TempleMod/TempleModModule.cs:25-35 | Unload after Load restores both hook lists to their prior contents and order, whatever else they held |
| ModuleLifecycle.BalancedSessionsRestore | TempleMod/TempleModModule.cs:25-35 | n loads followed by n unloads restore both hook lists |
| ModuleLifecycle.LoadsAddSubscriptions | TempleMod/TempleModModule.cs:25-29 | after n loads, the constructor hook and the Update manipulator are each subscribed exactly n more times than before |

## Left out

- The Mono.Cecil representation of instructions is not modelled: operand types, branch targets and stack balance. Opcodes other than the five the patch tests are kept only by mnemonic.
- `EmitDelegate` is left out: its emitted instructions are an arbitrary parameter. Lemmas about rewriting a second time assume only that they contain no call to a `get_Scene` method.
- The cast `(MethodReference)i.Operand` would throw on a `call`/`callvirt` whose operand is not a method reference. Well-formed IL never has such an instruction. The model treats a missing method name as a failed predicate.
- `Logger.Log` is not modelled (logging only).
- The `Instance` singleton and `SettingsType` are not modelled (no behaviour).
- The execution of the patched `Update` body is not modelled: which value reaches `stloc`.
- `EntityData.Bool` is left out: parsing of non-boolean option values. Options are a map to booleans, and a missing key reads false.
- `Vector2` offsets are integer pairs.
- Scene and Tracker internals are a lookup parameter. A null `Scene` would throw in the original and in the patch alike.
- `BitTag` bit allocation is left out. Tags are set members compared by identity.
- The hook framework's trampolines and the order in which foreign handlers run are left out. Only the invocation lists are modelled. That each subscribed copy of a handler runs once, in subscription order, is taken from the framework and not derived: `PatchRepeated` and `ConstructStacked` take the copy count as a parameter.
- ModuleLifecycle.UnsubscribeRemovesLast: that event `-=` removes the last occurrence of the handler is the semantics of `Delegate.Remove` and of the hook framework's endpoint removal, taken from the framework and not visible in the cited lines; `UnloadUndoesLoad` restoring the exact order rests on it.
