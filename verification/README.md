# kcdx: a verified model of the plugin runtime's cores

kcdx is a native plugin runtime for a game. This project models its cores in Dafny and proves what they
promise. `dafny verify dfyconfig.toml` checks everything.

| directory | models |
|---|---|
| `behaviors/` | the behavior registry and its value handles: declare, set, the apply boundary, post-load toggles, the off-thread path, staged values, names |
| `hooks/` | the dispatch-thunk compiler (instructions, a machine that runs them, a contract per mode) and the native half of mid-function hooks |
| `assets/` | the path fold, the sidecar rows, the two-pass overlay build, the two file hooks, the read-copy-update stores, the boot-window set |
| `targets/` | version keys and the memoized store of declared targets |
| `names/` | shared names: precedence, aliases, collision warnings |
| `conflicts/` | pairwise footprint conflicts between patches |
| `console/` | deferred and immediate command registration |

## How the behavior core is modelled

User code -- an implementation, a revert, a callable, a plugin's main code -- may call back into the registry
at any point of the boundary or of a toggle. The registry is therefore given twice.

`BehaviorSteps` is a step machine with an explicit call stack. Engine code runs to its next callback in one
step; user code takes any steps it likes and then returns or raises. An event a state does not admit changes
nothing, so every sequence of events is a run, and the lemmas of `BehaviorTheorems`, `BehaviorHandles`,
`BehaviorDispositions`, `BehaviorNil`, `BehaviorEdges`, `BehaviorReverts`, `BehaviorCalls` and `BehaviorQueue`
quantify over all of them. The frame of a callback holds the cell its function was read from and the arguments
it was called with, so that what user code gets is part of the state. Registry
references live in cells, which are the fields and C++ locals that can hold one. The allocator may hand out any
id that is not live, freed ones included: its choice is part of the event.

`BehaviorRegistry.Registry` is the same code in place: fields, loops, callbacks that run a script (any finite
tree of calls into the registry). Each method is proved to do nothing but a run of the machine, so what holds of
runs holds of it. The boundary is proved to terminate on every endless supply of scripts of which only finitely
many declare; implementations that declare and set without end would keep it going without end, and
`BehaviorUnbounded.DrainIsUnbounded` is the run for every length.

A Lua value is its identity, and whether it is a function: tables can be changed in place through child handles,
so "the same value" means the same object. `mintedValue` in a behavior handle, the value in a toggle frame, and
`log` are history; nothing decides by them.

## Where the code is narrower than its comments

- A declare is gated on the end of the boundary only, so implementations may declare while the boundary drains
  (`src/behavior_interface.cpp:364`). Termination is proved with the declares of the scripts in the measure.
- Reading a missing table child mints a handle on the nil reference, which the "no reference" tests of Set and
  Declare let through (`src/behavior_interface.cpp:836-840`). "get() never answers nil" is false:
  `GetCanAnswerNil` is a run that ends so. There are three ways, and `NilAnswers` says that there is no other: a
  declare, a load-window set, and the commit of a toggle. Each puts exactly what its handle reads where get()
  answers from, so `NeverNil` holds: as long as no Declare and no Set is given a handle that reads nil, which
  TypeOf tells beforehand, get() never answers nil.
- A function built by NewCallable sees the first argument of an Invoke only, and never has a result
  (`src/behavior_interface.cpp:1406-1426`).
- A behavior declared from C++ may have dots in its bare name (`src/behavior_interface.cpp:345-348`; the Lua binder
  refuses them). No name leads to it (`BehaviorNames.ReachedOnlyWithoutDots`).
- When a C callback raises, the transient handle of its argument stays, and with it a live reference
  (`src/behavior_interface.cpp:1406-1426`). It has an owner, the handle, so conservation holds.
- A resolved set is to leave an edge (`src/behavior_registry.h:195-199`), and a comment says that the queued set
  leaves it as the inline one does (`src/behavior_interface.cpp:1114-1118`). The inline post-load set leaves none:
  its branch returns before the edge is recorded (`src/behavior_interface.cpp:568-590`). `EdgesOfRun` says over any
  run which sets leave one -- those recorded in the load window, and queued ones that commit --, and
  `InlineSetWithoutEdge` is a run in which a named plugin sets an applied behavior, the toggle commits, and there is
  no edge.
- Revert is never to be handed a state the implementation did not create (`src/behavior_registry.h:273-274`). A
  behavior that sets itself from within the call the boundary makes of its implementation has its revert called with
  a value whose implementation call has not returned: `RevertBeforeReturn` is such a run, and `RevertUndoesLastReturn`
  says that this is the only way for revert to get another value than the one the implementation last returned from.
- A vanilla claim beats a cross-mod claim whatever the load order; "the earliest loader wins" holds within each
  class (`src/asset_overlay.cpp:798-815`, `src/asset_overlay.cpp:921-935`). In `EarliestLoaderLoses` the plugin that
  loads first loses the path it claims.
- A target that names a *chained* publish (published by a row that itself replaces another mod's asset) depends
  on the load order: it resolves if and only if that row comes earlier in pass two and resolves itself
  (`ChainedTargetResolves`). `ChainDependsOnLoadOrder` is one set of plugins in two orders that part. The
  permutation theorem is about assets that replace a vanilla path.
- An empty range inside another passes the overlap test and shares no byte (`src/conflict_engine.cpp:37-40`); `EmptyRangeOverlaps` is one.
- Mid mode writes every integer and truth value back in eight bytes and takes a single through a double, which
  quiets a signalling NaN; so a capture the callback does not touch can still change its slot
  (`src/dynamic_call_jit.cpp:749-809`). `UntouchedCapture` says exactly when; `UntouchedByteChanges` is a slot.
- A seed row whose signature view is null is invisible to the signature resolver only
  (`src/address_library.cpp:668-673`); `SignatureRowIsAddressRow` says exactly when the two resolvers part, as they do
  in `NullViewParts`.
- A command queued when 256 names are already waiting is accepted and then dropped, while immediate registration
  refuses it (`src/console.cpp:289-304`), as in `OneTooMany`; the resulting table is the same.
- In dev mode the engine registers a command of its own when the console comes up (`src/console.cpp:631-637`), so
  the table does depend on how many calls came before. `EngineCommandTakesASlot` says exactly when the plugins lose
  one of theirs to it; in `EngineCommandTakesTheLast` they do.

## Model

| member | source | states |
|---|---|---|
| RefLedger.RefKeepsLedger | src/behavior_interface.cpp:421-424 | a new reference, whatever id the allocator picks, leaves every live slot with exactly one holder and every held reference live; only nil gets the nil reference |
| RefLedger.UnrefKeepsLedger | src/behavior_interface.cpp:1274-1276 | releasing a cell's reference keeps the ledger exact and touches no other cell |
| RefLedger.MoveKeepsLedger | src/behavior_registry.cpp:538-541 | handing a reference over empties the giver, fills the taker with the same value and keeps the ledger exact |
| BehaviorRuns.RunKeeps | src/behavior_registry.cpp:291-545 | every step of every run, re-entrant callbacks included, keeps the invariant: exact references, well-formed call stack, truthful records, fresh handles, consistent history |
| BehaviorTheorems.RefConservation | src/behavior_registry.cpp:291-545 | in every reachable state a live reference has one owner that exists and is no stray local, held references are live and distinct, and nothing freed was read or released |
| BehaviorTheorems.NeverLies | src/behavior_registry.cpp:323-366 | after the boundary, even while callbacks run: applied iff recorded, and get() answers the default or a value the implementation was called with and returned from |
| BehaviorTheorems.RevertUndoesTheImplementation | src/behavior_registry.cpp:450-460 | whatever revert is handed was handed to the same behavior's implementation earlier |
| BehaviorTheorems.DrainOrder | src/behavior_registry.cpp:306-333 | the drain invokes a behavior once at most, pass after pass, in ascending declare order within a pass |
| BehaviorTheorems.DrainBound | src/behavior_registry.cpp:297-316 | however implementations behave, the drain has invoked no more implementations than there are behaviors, all of them declared |
| BehaviorTheorems.DrainInvokesTheRecord | src/behavior_registry.cpp:325-343 | the next invocation is of a set, unapplied, uninvoked behavior with the least declare sequence left, with the value on record at that moment; the re-check never fires |
| BehaviorTheorems.GenerationTracksTheAnswer | src/behavior_registry.cpp:547-552 | over any stretch of any run generations never fall, and while one stands get() answers the same slot and value |
| BehaviorReverts.RevertUndoesLastReturn | src/behavior_registry.cpp:443-453 | over any run: revert is handed the value of the last implementation call of its behavior that returned, at every point, iff the behavior never set itself from within the boundary's call of its implementation |
| BehaviorReverts.RevertBeforeReturn | src/behavior_registry.cpp:323-343 | a run in which the boundary's call of an implementation sets its own behavior, and revert is called before any call has returned |
| BehaviorCalls.CallbacksGetTheirValue | src/behavior_registry.cpp:402-421 | in every state of every run a step calls exactly what it owes, told from what handles, record and toggle read before it: which function, with which arguments; the frame on top holds both, a C function's own new handle reads the first argument, and the history records that call with that value and no other call |
| BehaviorCalls.CommitRecordsTheArgument | src/behavior_registry.cpp:476-525 | what a toggle puts on record is the argument its implementation, which has just returned, was called with |
| BehaviorCalls.DrainedRunsWithTheRecord | src/behavior_registry.cpp:335-343 | the implementation the boundary is calling is that behavior's own, and its one argument is the value the boundary takes for applied |
| BehaviorCalls.ToggleRunsWithTheValue | src/behavior_interface.cpp:568-583 | from where a set begins a toggle to where it ends, whatever runs in between, the toggle runs the revert, or the implementation with exactly what the set's handle read |
| BehaviorCalls.QueuedToggleRunsWithTheValue | src/behavior_interface.cpp:1075-1118 | the same for a queued set and the value that was queued |
| BehaviorCalls.RunCalls | src/behavior_interface.cpp:1428-1436 | on every run each declared behavior holds its own implementation closure and, if it has a revert, its own revert closure, and every callback on the stack has the function and the argument the engine frame below it says |
| BehaviorQueue.QueuedInOrder | src/task.cpp:84-110 | over any run the sets that were queued are the sets that were run, in the same order, followed by those that wait |
| BehaviorQueue.QueuedOnce | src/behavior_interface.cpp:470-488 | a staged value is queued once at most |
| BehaviorQueue.StagedByTheBuilder | src/behavior_interface.cpp:1175-1177 | a staged handle holds what the builder call that minted it was given, after the boundary |
| BehaviorHandles.HandleFreshness | src/behavior_interface.cpp:654-692 | a handle from get() reports stale or reads the value the behavior had when it was minted, stale exactly when the generation moved, and the read touches a live slot |
| BehaviorDispositions.ToggleDispositions | src/behavior_registry.cpp:425-526 | in any state of any run the callback of a toggle ends in one of the four dispositions, with what each leaves of record, flag, generation and history |
| BehaviorNil.LoadSetRecords | src/behavior_interface.cpp:585-590 | an accepted load-window set makes get() answer exactly what its handle reads, so nil iff the handle reads nil |
| BehaviorNil.DeclareAnswers | src/behavior_interface.cpp:394-437 | an accepted declare makes get() answer exactly what its handle reads, so nil iff the handle reads nil; the behavior holds its implementation, and its revert iff it has one |
| BehaviorNil.ToggleGetsTheValue | src/behavior_interface.cpp:545-583 | a set that toggles puts exactly what its handle reads into the toggle |
| BehaviorNil.CommittedToggleAnswers | src/behavior_registry.cpp:510-520 | a toggle whose implementation returns makes get() answer exactly the value the toggle was begun with |
| BehaviorNil.NilAnswers | src/behavior_interface.cpp:399-408 | over any run: get() answers nil at some point iff some event is an accepted declare or load-window set with a handle that reads nil, or commits a toggle to nil |
| BehaviorNil.NeverNil | src/behavior_interface.cpp:506-511 | on every run in which no declare and no set is given a handle that reads nil, get() never answers nil; queued payloads are never nil |
| BehaviorNil.GetCanAnswerNil | src/behavior_interface.cpp:836-860 | a concrete run after which get() answers nil |
| BehaviorEdges.EdgesOfRun | src/behavior_interface.cpp:568-591 | over any run there is an edge iff some event left it: an accepted load-window set by its named plugin, or the commit of a toggle that a queued set of that plugin began |
| BehaviorEdges.StepGoes | src/behavior_registry.cpp:268-281 | the edges after any step are those before and the one it left, last and once; a toggle on the stack keeps its name, its value and whether it was queued |
| BehaviorEdges.EdgesAreAskedFor | src/behavior_registry.h:195-199 | every edge goes back to a load-window set or a queued set of that plugin on that behavior |
| BehaviorEdges.InlineToggleLeavesNone | src/behavior_interface.cpp:568-583 | an inline toggle leaves no edge where it begins and none where it ends, whatever runs in between; when it commits, get() answers what the set's handle read |
| BehaviorEdges.QueuedToggleLeavesIts | src/behavior_interface.cpp:1112-1118 | the toggle of a queued set leaves the setter's edge where it commits, and none when it does not |
| BehaviorEdges.InlineSetWithoutEdge | src/behavior_interface.cpp:568-583 | a run in which an applied behavior is set by a named plugin, the toggle commits, and no edge is there |
| BehaviorOutcomes.RevertRaisedEnds | src/behavior_registry.cpp:453-474 | a raising revert leaves record, flag, store, history and edges as the callback left them |
| BehaviorOutcomes.ImplementationEnds | src/behavior_registry.cpp:476-525 | a raising implementation leaves the behavior unset and no edge; a returning one leaves the new value on record, and the setter's edge iff the set was queued |
| BehaviorUnbounded.DrainIsUnbounded | src/behavior_registry.cpp:297-316 | for every k there is a run whose drain has invoked exactly k implementations: nothing but the callbacks bounds it |
| BehaviorRegistry.Registry.RecordLoadSet | src/behavior_registry.cpp:528-545 | the old record is released, the new one taken over, the generation advanced |
| BehaviorRegistry.Registry.ClearRecord | src/behavior_registry.cpp:356-361 | a raise clears record, flag and setter and advances the generation |
| BehaviorRegistry.Registry.RecordEdge | src/behavior_registry.cpp:268-281 | an edge is recorded once, and none for an anonymous setter |
| BehaviorRegistry.Registry.Register | src/behavior_registry.cpp:59-84 | a new behavior takes the next declare sequence and its three references |
| BehaviorRegistry.Registry.Declare | src/behavior_interface.cpp:364-450 | succeeds iff the boundary is not over, the default is a live built value and the name is new; a refused duplicate releases all it pinned |
| BehaviorRegistry.Registry.ConsumeChild | src/behavior_interface.cpp:1264-1277 | consuming a child releases its reference and invalidates its handle |
| BehaviorRegistry.Registry.Get | src/behavior_interface.cpp:594-624 | mints a handle against the current generation |
| BehaviorRegistry.Registry.Pcall | src/behavior_registry.cpp:409-421 | a callback entered with its function and arguments makes the calls of its script in order, each completed before the next, and leaves as it returns or raises |
| BehaviorRegistry.Registry.Depart | src/behavior_interface.cpp:1406-1426 | a C callback that returned gives up its transient handle; one that raised leaves it, and no other handle goes |
| BehaviorRegistry.Registry.RevertRecord | src/behavior_registry.cpp:450-474 | the revert of the behavior runs with exactly the record as its argument; if it raises, nothing changes and the new value is dropped |
| BehaviorRegistry.Registry.FinishToggle | src/behavior_registry.cpp:476-525 | the implementation of the behavior runs with exactly the new value as its argument; afterwards the behavior answers that value and is applied, or is unset, by whether it raised |
| BehaviorRegistry.Registry.RunToggle | src/behavior_registry.cpp:448-525 | the callbacks of a toggle are a run of the machine and end in exactly the outcome the scripts decide |
| BehaviorRegistry.Registry.ApplyPostLoadToggle | src/behavior_registry.cpp:425-526 | without a revert only the new value is released; otherwise a run of the machine in exactly the outcome that flag and callbacks decide, and with record, flag, history and edges as that outcome leaves them, starting from where the last callback ended |
| BehaviorRegistry.Registry.Set | src/behavior_interface.cpp:504-592 | accepted iff the value is live and built, the name known, the window law met and a needed revert there; a load-window set is exactly the machine's step, a toggle a run from it that ends with the stack as it was, in the outcome that the revert, the flag and the callbacks decide, and with record, flag, history and edges as that outcome leaves them, starting from where the last callback ended |
| BehaviorRegistry.Registry.Invoke | src/behavior_interface.cpp:892-962 | refused, with nothing changed, iff the handle does not read, reads no function, or an argument does not read, and the first of these is the answer; otherwise the function runs with exactly what the argument handles read, makes its calls in order and leaves, and a result is pinned in a new handle that reads it, a nil result and any call of a C function in none |
| BehaviorRegistry.Registry.RunQueued | src/behavior_interface.cpp:1075-1136 | the oldest queued set is toggled iff its name is known and its payload could be built, and only leaves the queue otherwise; a run from the machine's step that ends with an empty stack, in the outcome the callbacks decide, with record, flag and history to match and the setter's edge iff the toggle committed |
| BehaviorRegistry.Registry.SnapshotPass | src/behavior_registry.cpp:306-320 | a pass holds exactly the set, unapplied and uninvoked behaviors, each once, in declare order |
| BehaviorRegistry.Registry.InvokeNext | src/behavior_registry.cpp:323-369 | the head of the pass is invoked with its record and the invocation completed, whatever it calls; it joins the invoked ones and was not among them |
| BehaviorRegistry.Registry.RunPass | src/behavior_registry.cpp:323-370 | a pass ends, and what is left of the store and of the scripts' declares is less than before |
| BehaviorRegistry.Registry.SweepDropped | src/behavior_registry.cpp:372-390 | afterwards nothing is set and unapplied |
| BehaviorRegistry.Registry.RunApplyBoundary | src/behavior_registry.cpp:291-399 | whatever the implementations do, it terminates provided only finitely many of their calls declare, is a run of the machine, and ends with recorded iff applied for every behavior |
| BehaviorNames.Names.ResolveForCaller | src/behavior_registry.cpp:160-249 | answers by alias, form and precedence; warns iff two tiers have the bare name and it was not warned about before |
| BehaviorNames.BarePrecedence | src/behavior_registry.cpp:187-248 | a bare name is found iff some behavior has it, and then in the first of the caller's own, the engine's, and the foreign one with the least full name |
| BehaviorNames.CollisionMeansTwoTiers | src/behavior_registry.cpp:193-217 | the warning is due iff two declared behaviors have the bare name in different tiers of the caller |
| BehaviorNames.ReachedOnlyWithoutDots | src/behavior_registry.cpp:175-188 | a behavior is found by its full name iff its bare name has no dot, and with a dot it is found by no name at all |
| BehaviorNames.FullNameLeadsBack | src/behavior_registry.cpp:180-184 | however a name led to a behavior, its full name leads every caller to it |
| BehaviorNames.Enumerate | src/behavior_registry.cpp:251-262 | from the lower bound to the first other name: exactly the names with the prefix, in order |
| Strings.PrefixesAreContiguous | src/behavior_registry.cpp:254-260 | what lies between a text and one of its extensions extends it |
| Strings.BeforeMeans | src/conflict_engine.cpp:164-168 | one text is before another iff it is a proper prefix of it or the lesser character stands where they first differ |
| StagedValues.StagedEqualsDirect | src/behavior_interface.cpp:1175-1359 | for every series of builder calls the off-thread path gives the same answers and handles, and each description stands for the finite tree the live calls build |
| StagedValues.AppendArray | src/behavior_interface.cpp:1309-1334 | an array entry put into a description is an entry put into the table it stands for, although fields replay later |
| StagedValues.AppendField | src/behavior_interface.cpp:1336-1359 | the same for a field entry |
| StagedValues.CastIs | src/behavior_interface.cpp:1021 | a 64-bit index becomes the int j iff the two agree modulo 2^32; an index in the int range stays |
| StagedValues.TableReads | src/behavior_interface.cpp:1013-1036 | a described table reads at an index, or a name, the last entry put there, and nothing if there is none; indices are the same modulo 2^32, and outside the int range there is nothing |
| StagedValues.TwoIndicesStay | src/behavior_interface.cpp:1309-1334 | two children put in at two different int indices are both there, each under its own, in the description and on the VM |
| StagedValues.InsertAnswers | src/behavior_interface.cpp:1298-1359 | on either path: a target that is no table is a type error, a child that is no handle a bad handle, nothing changes on a refusal, and a child that is taken gives up its handle |
| StagedValues.Vm.MaterializeStaged | src/behavior_interface.cpp:985-1039 | terminates, succeeds iff every callable can be wrapped, leaves one new reference to the described tree in fresh tables or no reference at all |
| DispatchThunk.Compiler.Build | src/dynamic_call_jit.cpp:566-719 | the loops emit exactly the specified instructions for the mode |
| DispatchThunk.Compiler.StoreReturn | src/dynamic_call_jit.cpp:439-466 | stores the typed width of the return register, nothing for void |
| DispatchThunk.ThunkMeetsContract | src/dynamic_call_jit.cpp:566-719 | for every signature, memory and callback the emitted code runs without fault, passes exactly the mode's arguments and leaves exactly what the mode promises: slot i replaced iff outCount > i, or only the typed width of the return word |
| DispatchThunk.CallbackSees | src/dynamic_call_jit.cpp:607-719 | in numbers: behind the mode's own arguments, argument i is the number that its type's width and sign read from slot i, the register class is that of its type, and the return word takes the bytes of the return type in the modes that have one and stands in the others |
| DispatchThunk.BeforeExtremes | src/dynamic_call_jit.cpp:693-712 | an outCount of zero or below changes no argument, one at or beyond the count replaces all |
| DispatchThunk.ReturnIsHandedOn | src/dynamic_call_jit.cpp:650-656 | what a Replace or Around thunk stored as typed return an After thunk hands on byte for byte |
| DispatchThunk.CallMatchesSignature | src/dynamic_call_jit.cpp:407-433 | the declared callback signature agrees with what is passed, position by position, in count, register class and width, and declares a return in the modes that take one only |
| MidShim.MidShimEntry | src/dynamic_call_jit.cpp:823-854 | no callback or no captures: nothing happens and the answer is run; otherwise the slots up to the sixteenth hold what the callback left, the rest stands |
| MidShim.CaptureReads | src/dynamic_call_jit.cpp:749-781 | a capture holds the number that the type name says: width and sign of the integers, both float widths as a double, the pointer word, zero or one for a truth value, all eight bytes for a name that is not known |
| MidShim.UntouchedCapture | src/dynamic_call_jit.cpp:749-809 | a capture the callback leaves alone leaves its slot alone iff the slot held the extended value, or a single that a double gives back unchanged |
| MidShim.UntouchedByteChanges | src/dynamic_call_jit.cpp:749-809 | a byte capture over a slot with more set than the byte: the callback does nothing and the slot changes |
| MidShim.FillAfterStore | src/dynamic_call_jit.cpp:749-809 | filling after storing gives the typed value back, cut to its width |
| PathFold.NormalizeVPath | src/asset_overlay.cpp:524-563 | the loop computes the fold |
| PathFold.FixedIffCanonical | src/asset_overlay.cpp:524-563 | the fold leaves exactly the paths without upper case, backslash and repeated separators alone |
| PathFold.FoldIdempotent | src/asset_overlay.cpp:524-563 | folding twice is folding once |
| PathFold.FoldEqualIffLinked | src/asset_overlay.cpp:524-563 | two paths fold equal iff respellings lead from one to the other, each of which changes one letter to the other case of the same letter of the alphabet or one separator to the other, or drops a separator behind a separator |
| PathFold.LetterFolds | src/asset_overlay.cpp:552-560 | the k-th capital folds to the k-th small letter, and no other character but the backslash changes |
| Sidecar.LooksLikePublishedName | src/asset_sidecar.cpp:94-103 | true iff there is no slash of either kind and there are two dots |
| Sidecar.ResolveOneRow | src/asset_sidecar.cpp:177-281 | a row is a declaration iff it has one complete target form, a file and, where checked, an existing vanilla target; which of the three kinds it is, and of what; a vanilla key is canonical and a respelling of the target |
| Overlay.FindLoadedByIdentity | src/asset_overlay.cpp:667-684 | the first loaded plugin the identity names |
| Overlay.OverlayMap.BuildOverlayMap | src/asset_overlay.cpp:688-946 | map, store, index and counters are those of the claims in order, and the index and the store agree on every published name |
| Overlay.OverlayMap.Rebuild | src/asset_overlay.cpp:688-689 | building again gives the same map and store |
| OverlayTheorems.WinnerIsFirstClaimant | src/asset_overlay.cpp:798-821 | a path has an entry iff it is claimed, and the entry is that of the first claimant: vanilla claims in load order, then resolved cross-mod claims in load order |
| OverlayTheorems.VanillaBeatsCrossMod | src/asset_overlay.cpp:921-936 | a vanilla claim's path belongs to a vanilla claimant, whatever the load order |
| OverlayTheorems.NothingIsLost | src/asset_overlay.cpp:738-744 | claims and unresolved targets together are all declarations |
| OverlayTheorems.NamedTargetResolves | src/asset_overlay.cpp:835-842 | with unique names a target naming an asset that replaces a vanilla path resolves to that path and no other |
| OverlayTheorems.ResolutionIgnoresLoadOrder | src/asset_overlay.cpp:830-919 | and to the same under every rearrangement of the declarations |
| OverlayTheorems.ResolutionIgnoresPluginOrder | src/asset_overlay.cpp:830-919 | the same under every permutation of the plugins |
| OverlayTheorems.EarliestLoaderLoses | src/asset_overlay.cpp:921-936 | two plugins: the first to load claims a path and loses it to the other's vanilla claim |
| OverlayTheorems.ChainedTargetResolves | src/asset_overlay.cpp:830-919 | with unique names a target naming a cross-mod publish resolves iff the publisher comes earlier in pass two and resolves itself, and then to where the publisher serves |
| OverlayTheorems.ClaimedIffResolved | src/asset_overlay.cpp:859-919 | the claims of pass two are exactly the targets that resolved when their turn came |
| OverlayTheorems.ChainDependsOnLoadOrder | src/asset_overlay.cpp:830-919 | three plugins in two load orders: the same target resolves in one and names nothing in the other |
| OverlayTheorems.PairTargetResolves | src/asset_overlay.cpp:843-857 | a plugin-and-path target resolves to where the file's declarations say it serves, in any order |
| OverlayTheorems.AddNewTargetResolves | src/asset_overlay.cpp:858-880 | a plugin-and-path target of a file that no row declares resolves iff the first loaded plugin of that identity has assets and ships the file, and then to the folded path |
| OverlayTheorems.NamesMeans | src/asset_overlay.cpp:593-612 | a target names a publication iff it is author, plugin and bare name with dots between, letter case aside |
| OverlayTheorems.PairsMeans | src/asset_overlay.cpp:634-641 | a pair is of a declaring file iff it names its plugin, letter case aside, and its path as it folds |
| OverlayTheorems.PublishedNameMeans | src/asset_overlay.cpp:766-772 | after the build a unique published name stands for the file of its declaration and serves where the declaration's target resolved |
| OverlayTheorems.FlattenMeans | src/asset_overlay.cpp:746-747 | the declarations of the build are those of the plugins that have assets |
| OverlayTheorems.AnySpellingHits | src/asset_overlay.cpp:177-193 | any respelling of a declared vanilla target finds an entry |
| OverlayHooks.FileHooks.AdjustFileNameResolver | src/asset_overlay.cpp:164-259 | serves the winner iff there is a name, a buffer and room; records the boot open |
| OverlayHooks.FileHooks.FOpenLooseOverlay | src/asset_overlay.cpp:293-399 | tries the winner's file and falls back to the original when it does not open |
| OverlayHooks.FileHooks.RegisterRuntimeOverlay | src/asset_namespace.cpp:80-146 | publishes a copy with one change; earlier snapshots stay; warns of a path opened at boot, once in any spelling |
| OverlayHooks.FileHooks.NotifyVmReady | src/asset_namespace.cpp:185-192 | raises the flag after which boot opens are no longer recorded |
| OverlayHooks.HooksAgree | src/asset_overlay.cpp:302-333 | both hooks pick the same winner for any two spellings of a request: the resolver serves what the opener tries iff it has a buffer and the path has fewer than 2048 characters |
| OverlayHooks.DeclaredTargetIsServed | src/asset_overlay.cpp:177-193 | a request in any spelling of a declared vanilla target is answered by both hooks with the file of a declaration of that target, whatever the runtime store holds |
| OverlayHooks.RuntimeOverlayTakesEffect | src/asset_namespace.cpp:80-104 | a runtime overlay decides exactly the requests that are spellings of its path and not owned by the build-time map |
| SnapshotStore.RunKeeps | src/asset_namespace.cpp:80-104 | in any interleaving published snapshots are never changed |
| SnapshotStore.ReadsOneSnapshot | src/asset_namespace.cpp:148-162 | a lookup answers from the map current at its load step, whatever happens in between |
| SnapshotStore.NoLostUpdate | src/asset_namespace.cpp:210-222 | with writers in disjoint phases the current map is the fold of all writes in order |
| SnapshotStore.NoUpdateLostIff | src/asset_namespace.cpp:80-104 | in any interleaving the current map is the fold of all writes at every point iff every copy is published over a map that agrees with its original off the written key |
| SnapshotStore.OverlappingWritersLose | src/asset_namespace.cpp:84-89 | two overlapping writers can lose an update |
| BootWindow.CompletedInsertsAreSeen | src/asset_namespace.cpp:166-206 | an insert completed before the flip is seen by every later query in any spelling |
| BootWindow.YesNamesAnEarlyOpen | src/asset_namespace.cpp:194-206 | a yes names a key of a thread that found the flag down before the flip |
| BootWindow.LateInsertsAreBounded | src/asset_namespace.cpp:174-192 | after the flip the set only grows, by one key at most per thread in flight |
| VersionKeys.ValidateVersionKey | src/declared_targets.cpp:233-309 | accepts exactly the keys that are exact components followed by wildcard components |
| VersionKeys.MatchMeansComponents | src/declared_targets.cpp:356-368 | the raw prefix test holds iff the version begins with the key's exact components and goes on with one more |
| VersionKeys.LongerMeansMoreComponents | src/declared_targets.cpp:340-345 | among matching keys a longer text prefix is more exact components |
| VersionKeys.ExactKeyHasNoStar | src/declared_targets.cpp:347-354 | a well-formed key without wildcard components is no wildcard |
| VersionKeys.PickUnique | src/declared_targets.cpp:459-481 | the picking rule determines the pick |
| VersionKeys.FindPicked | src/declared_targets.cpp:459-481 | the two passes find it: the first exact match, else the first matching key of greatest prefix, else none |
| DeclaredTargets.DeclaredTargets.Register | src/declared_targets.cpp:483-580 | accepts exactly the well-formed entries; an accepted one replaces its triple's entry or joins, nothing else changes, triples stay unique |
| DeclaredTargets.DeclaredTargets.DropMemoForEntry | src/declared_targets.cpp:157-163 | removes exactly the entry's memo rows |
| DeclaredTargets.DeclaredTargets.TryClaimWarn | src/declared_targets.cpp:167-182 | true the first time only |
| DeclaredTargets.DeclaredTargets.LookupForCaller | src/declared_targets.cpp:595-704 | answers what an unmemoized resolve of the current entry answers, and warns of a mismatch once; a pattern answer has address x other than 0 iff the scan of the entry's module for the picked pattern found x and nothing else, and carries the picked version's signature and kind; a value answer carries its fields |
| DeclaredTargets.DeclaredTargets.ScanAndRemember | src/declared_targets.cpp:661-676 | a scan happens only without a memo row and leaves one, so each entry and version is scanned once per registration |
| DeclaredTargets.DeclaredTargets.Serve | src/declared_targets.cpp:483-714 | over any series of register, lookup and reset the answers are those of a store without memo |
| DeclaredTargets.StoreReplaced | src/declared_targets.cpp:573-579 | overwriting in place is replacing the triple's entry |
| ConflictEngine.OverlapMeansSharedBytes | src/conflict_engine.cpp:30-40 | for non-empty ranges overlap is a shared byte, and the intersection is exactly the shared bytes |
| ConflictEngine.EmptyRangeOverlaps | src/conflict_engine.cpp:30-40 | an empty range inside another passes the test and shares nothing |
| ConflictEngine.Engine.CollectFootprints | src/conflict_engine.cpp:131-159 | one write and one verify range per usable patch |
| ConflictEngine.Engine.DetectConflicts | src/conflict_engine.cpp:173-268 | exactly one record per due pair, with the exact intersection, and none besides |
| ConflictEngine.OverlapIsRecorded | src/conflict_engine.cpp:208-268 | two overlapping writes have a record that puts the one of lesser priority number, or of lesser name, first, holds exactly the shared bytes, and says whether the two are patches or hooks and whether they coincide |
| ConflictEngine.OwnBytesAreNoConflict | src/conflict_engine.cpp:176-206 | no record sets an entry's write against its own verify range; both sides of a record are entries of the lists |
| ConflictEngine.Engine.FindWriteOnOriginalAffecting | src/conflict_engine.cpp:272-279 | a record for the named patch iff there is one |
| ConflictEngine.Engine.FindWriteOnWriteAffecting | src/conflict_engine.cpp:281-291 | all records in which the named patch overwrites another |
| ConflictEngine.NoConflictMeansAnyOrder | src/conflict_engine.cpp:208-268 | without a write-on-write record every permutation of the patches leaves the same memory |
| ConflictEngine.VerifySeesPristineBytes | src/conflict_engine.cpp:176-206 | in load order a patch without a record still finds original bytes in its verify range |
| ConflictEngine.RecordMeansOverwritten | src/conflict_engine.cpp:176-206 | a record names an earlier patch that writes into the verify range, and exactly where |
| Console.Console.RegisterCommandNow | src/console.cpp:196-243 | the first free slot is filled and the engine told, or nothing happens |
| Console.Console.NameTaken | src/console.cpp:248-262 | true iff a slot or the queue has the name |
| Console.Console.RegisterCommand | src/console.cpp:264-305 | refuses bad and taken names, queues while down, registers when up |
| Console.Console.FlushPendingCommands | src/console.cpp:454-467 | the queue goes into the table oldest first, as far as there are slots |
| Console.Console.Init | src/console.cpp:540-639 | success flushes and, in dev mode, registers the engine's command after that; failure drops the queue |
| Console.Session | src/console.cpp:609-637 | whatever the calls and however many come before the console is up, table and AddCommand order are the first 256 distinct well-formed names in call order, the engine's dev-mode command counting where the console came up |
| Console.EngineCommandTakesASlot | src/console.cpp:631-637 | in dev mode the plugins keep all their commands iff the table was full before, or they leave a slot free, or one of them has the engine's name in the table; otherwise they lose one |
| Console.NamesStayUnique | src/console.cpp:246-262 | names are unique across slots and queue at every step |
| Console.AnswersDifferOnlyBeyondTheTable | src/console.cpp:289-304 | two consoles that have seen the same calls, one down and one up, answer differently exactly for new names beyond the table's size |
| Console.OneTooMany | src/console.cpp:289-304 | with as many commands known as there are slots, the next is accepted while the console is down and refused once it is up |
| Console.EngineCommandTakesTheLast | src/console.cpp:631-637 | with as many plugin commands as there are slots, in dev mode one is lost |
| Console.DistinctHasAll | src/console.cpp:271-288 | the distinct names are those of the well-formed calls |
| Console.DistinctIsFirst | src/console.cpp:271-300 | each command has the owner and help of the first well-formed call of its name |
| Console.CappedMeans | src/console.cpp:196-215 | the table is the first 256 of them |
| AddressLibrary.AddressLibrary.ResolveBareWinner | src/address_library.cpp:449-493 | self before engine before other, and a colliding name is warned about |
| AddressLibrary.AddressLibrary.ResolveByName | src/address_library.cpp:497-595 | the address of the one row the name leads to |
| AddressLibrary.AddressLibrary.FindResolvedAuthorTarget | src/address_library.cpp:597-645 | that row, if it is a registered target |
| AddressLibrary.FullNameAddress | src/address_library.cpp:270-289 | a registered target is found by every caller under author, plugin and bare name, with its signature: the address of an offset is the module's base plus the offset, or 0 where one of them is 0, an id is looked up, a pattern or symbol has no address here |
| AddressLibrary.PluginNameAddress | src/address_library.cpp:559-570 | plugin and bare name lead to the plugin's first target of that name |
| AddressLibrary.DottedNameAddress | src/address_library.cpp:533-562 | without a registered target a full name has what the declared store says, and a name under kcdx what the seed says |
| AddressLibrary.BarePrecedence | src/address_library.cpp:449-493 | a bare name leads to the caller's own target or entry, else to the seed's, else to another plugin's, and nowhere iff none has it; it collides iff two of the three have it |
| AddressLibrary.AddressLibrary.ResolveSignatureByName | src/address_library.cpp:677-765 | the signature of the row the name leads to in the resolver's own view of the seed |
| AddressLibrary.SignatureRowIsAddressRow | src/address_library.cpp:725-764 | all resolvers pick the same row iff the name does not go through a seed row with a null signature view |
| AddressLibrary.NullViewParts | src/address_library.cpp:668-673 | a seed row with a null view is found by the address resolver and not by the signature resolver |
| AddressLibrary.AddressLibrary.MaybeWarnCollision | src/address_library.cpp:302-366 | a name occupying two tiers is warned about, once per run |
| AddressLibrary.AddressLibrary.RegisterAuthorTarget | src/address_library.cpp:928-972 | appends exactly the targets with well-formed names |
| AddressLibrary.PrefixNameMeans | src/address_library.cpp:928-972 | an author or plugin name is 2 to 128 small letters, digits and underscores, is not "kcdx", and is one segment of a dotted name |
| AddressLibrary.AddressLibrary.RegisterAlias | src/address_library.cpp:978-1028 | accepts exactly the well-formed aliases and adds one entry under its owner's key |
| AddressLibrary.AliasAnswers | src/address_library.cpp:1030-1043 | a registered alias changes the answer for its own handle in its own namespace and no other |
| AddressLibrary.AliasIsLocal | src/address_library.cpp:1030-1043 | an alias changes no row for callers of another namespace |
| AddressLibrary.AliasesLeaveDottedNames | src/address_library.cpp:1005-1011 | aliases change no row for dotted names |
| AddressLibrary.OwnerKeyIsInjective | src/address_library.cpp:800-804 | owners have different alias keys |

## Left out

- Windows, MinHook, asmjit, SEH, file opening, TOML parsing, directory walks: their results are inputs (a parsed row, a scan outcome, whether a file opens, the module's base).
- `src/dllmain.cpp`, `src/crash_guard.cpp`, `src/early_hook.cpp`, `src/cvar.cpp`, `src/blake3.cpp`, `src/config.cpp`, `src/bytes_interface.cpp`, `src/declare_interface.cpp`, `src/dll_interface.cpp`, `src/asset_interface.cpp`: boot order, wrappers and one-branch argument checks that would add easy members only.
- Log and teaching texts; only the "warned already" sets and the order of warnings are kept.
- The Lua binders, refdb, patch_engine, scan_engine, load_order: seed table, scanner and plugin order are inputs.
- Pointer lifetimes of returned C strings, thread-local buffers and weak memory: each atomic load or store is one step.
- Floating-point values: opaque words in the thunk and the mid shim; a staged scalar is named by its builder and argument.
- `BuildNativeCallThunk`: a plain forwarding call with no marshaling of its own.
- The plugin author and handle checks before Declare, Set and Get (empty author, unknown handle, missing VM), and the type checks of the As* accessors: argument tests with an error text.
- Off-thread staging and queueing are steps of the machine only, not methods of the class: the lock around the handle map makes each of them one step.
- BehaviorTheorems.DrainBound: counts against the behaviors declared by then; with no declare during the drain that is the number at its start.
- SnapshotStore.NoLostUpdate: needs writers in disjoint phases, as the source does (it has no compare-and-swap); `NoUpdateLostIff` is the exact condition and `OverlappingWritersLose` fails it.
- BehaviorRegistry.Registry.RunApplyBoundary: terminates provided only finitely many calls declare; the source has no such bound, and without it need not terminate (`DrainIsUnbounded`).
- StagedValues.StagedEqualsDirect: staged trees are finite because they are values of an inductive datatype; in the source they are mutable nodes, finite because each has one owner, which `ConsumeStagedChild` enforces (`src/behavior_interface.cpp:1279-1296`).
- The relation between staged payloads and the payloads of queued sets is by the value they materialize to; `behaviors/StagedValues.dfy` covers how that value comes about.
