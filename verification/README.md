# Pointerverse kernel model

Dafny models of Pointerverse's deterministic kernel and of the algorithms beside it, with proofs.
A snapshot of a world (objects, pointers, symbol tables, epoch) is changed only by deltas, lists
of operations. Four executors run a delta, and the proofs show that they agree:

- **Overlay** (`Overlay`, `OverlayApply`): the reference interpreter. `Invariants` and `Laws` prove
  what every accepted delta keeps and that four builtin laws can never be violated; `Effects` and
  `Refusals` read off a delta what it leaves behind, by last writes, and why it is refused.
- **Sequential merge** (`SequentialMerge`, `CompressProof`, `RenameProof`, `EpochView`, `MergeProof`):
  two deltas fused into one. Sound on every well-formed base, and complete under an exact condition;
  `MergeShape` (over `OpLists`) says which operations a merge holds.
  Morphism composition is built on it; `Morphisms`, `MorphismProof` and `CategoryProof` prove its
  associativity and identity laws, and `MorphismEffect` what applying a morphism changes.
- **Compiler and machine** (`Programs`, `Builder`, `CompileProof`, `Expansion`, `Machine`): a delta compiled
  to a program and executed back is the same delta written out, and has the same effect. `MachineProof`
  says of every program the machine runs through whether the overlay accepts its delta.
- **Mutable world** (`Registry`, `Listings`, `WorldIndex`, module `MutableWorld` in `World.dfy`):
  in-place mutation with arena, registries, name map and index refines the overlay on every run.

Beside them:

- `FactDerivation`, `ExecutionPlan`: the facts of a snapshot; the read and write sets frame a transition, under an exact condition.
- `Datalog`, `Closure`, `Heights`, `Derivation`, `DerivationStep`, `DerivationProof`, `DerivationCredit`,
  `DerivationCap`: the derivation loop, the least model, the roles and weights of derived edges, when the
  iteration cap is enough, and stepping again.
- `Repair`, `Tidiness`, `RepairSearch`: the bounded breadth-first repair search is optimal and its witness replays.
- `CutGraph`, `CutSearch`, `CutAnalysis`, `CutLoss`: the low-link analysis reports exactly the bridges
  and cut vertices, with their losses.
- `Codec`, `CodecStreams`, `KeySort`, `CanonicalLists`, `AttributeOrder`, `FactCodec`, `ContentAddress`, `SnapshotCodec`,
  `SnapshotNormal`, `DeltaCodec`, `ProgramCodec`, `CodecLayout`: the canonical encoding, its round trips, the
  snapshot bytes as a normal form, and where each field stands.
- `Risk`: joins are least upper bounds and the projection is monotone.

`Model` and `Attributes` hold the data model. An operation that changes state in the source is a
method here, with the loops and fields of the source, proved equal to a function; the theorems are
about those functions. `dafny verify dfyconfig.toml` checks everything.

Where the documentation and the code disagree the model follows the code. The repository's README.md:219-237
says a derivation runs to a fixpoint; the code stops after 64 rounds plus one for each object
(src/rule/derivation.cpp:283). `DerivationCap.StepFallsShort` gives a snapshot and rules for which the step
stops short. `DerivationCap.ReachedByHeight` says exactly when it does not, in terms of the proof trees the
rules allow over the authored edges; `ReachedByCount` and `ReachedByRank` give conditions that can be read off
the snapshot and the rules, `DerivationCap.ChainSharp` shows the bound on ranks to be sharp, and
`DerivationProof.ReachabilityReached` proves the documentation's own example always reaches its closure.
Idempotence, which the same passage claims, holds in either case (`DerivationProof.SteppingAgain`).

Five more properties turned out to need a condition, which is stated as an equivalence beside a concrete input
that fails it. Read and write sets miss the fact of a tombstone the delta does not name by id, because that fact
carries the snapshot's epoch (`ExecutionPlan.WritesFrame`, `ExecutionPlan.ReadsFrame`, failing at
`ExecutionPlan.UntouchedTombstone`). Registry and overlay intern alike only for regular interns
(`Registry.InternAgrees`, failing at `Registry.AheadDiffers`). An element is below its own join only when it gives
nothing to unnamed coordinates (`Risk.JoinAbove`, failing at `Risk.UnnamedLost`). Setting an attribute replaces one
entry, so a repeated key keeps its other values (`Effects.SetOnce`, failing at `Effects.RepeatedKey`). A program the
machine runs through can still be rejected by the overlay (`MachineProof.RunsThrough`, failing at
`MachineProof.EmptyName`).

## Model

| member | source | states |
|---|---|---|
| OverlayApply.ApplyDelta | src/core/snapshot.cpp:248-461 | The copy-and-update loop, with its counters, temp table and seen sets carried along, returns for every snapshot and delta, accepted or refused, exactly the transition the overlay is specified to make (`Overlay.Apply`), whose effect `Effects.Effect` and `Refusals.Refused` read off the delta |
| OverlayApply.EditInPlace | src/core/snapshot.cpp:265-448 | One intern, edit or expiry in the loop is one step of the transition, with the same error; what the step writes is pinned by `Effects.Effect` |
| OverlayApply.EditObjectInPlace | src/core/snapshot.cpp:319-373 | Each edit of an object, found by the scan and changed field by field, is one step, refused alike |
| OverlayApply.EditPointerInPlace | src/core/snapshot.cpp:398-433 | Each edit of a pointer, found by the scan and changed field by field, is one step, refused alike; what the step writes is pinned by `Effects.Effect` |
| OverlayApply.SetAttributeIn | src/core/snapshot.cpp:148-158 | Overwriting the first entry of the key or appending one, then sorting |
| OverlayApply.RemoveAttributeIn | src/core/snapshot.cpp:160-166 | Every entry of the key is erased and the rest keeps its order |
| OverlayApply.CreateInPlace | src/core/snapshot.cpp:293-318 | A create in the loop is one step of the transition; the seen temps, names and next index stay what a scan of the snapshot would give |
| OverlayApply.LinkInPlace | src/core/snapshot.cpp:374-397 | A link in the loop is one step of the transition; the next pointer id stays what a scan would give |
| OverlayApply.Intern | src/core/snapshot.cpp:265-291 | The symbol chosen and the refusal of a taken symbol agree with the intern rule, the next free symbol found by a loop over the table |
| OverlayApply.RecountOf | src/core/snapshot.cpp:130-146 | The recount loop gives every object the number of active pointers out of and into it |
| Overlay.RunAppend | src/core/snapshot.cpp:248-461 | Running one delta and then another is running their concatenation, errors included |
| Overlay.FindObject | src/core/snapshot.cpp:101-108 | The lookup finds the first object of an id, and fails exactly when there is none |
| Invariants.InternKeeps | src/core/snapshot.cpp:265-291 | Interning never rebinds a symbol, never gives a name two symbols, and leaves the name with one |
| Invariants.StepKeeps | src/core/snapshot.cpp:264-456 | Every accepted operation of all sixteen kinds keeps the snapshot well formed and everything that existed in it |
| Invariants.ApplyKeeps | src/core/snapshot.cpp:248-461 | An accepted delta takes a well-formed snapshot to a well-formed one, one epoch later, in which every object, pointer and name is still there under the same identity |
| Effects.Effect | src/core/snapshot.cpp:248-461 | Of an accepted delta on a well-formed snapshot: the objects and pointers there were stand first, then those made, in order; every type, existence, weight, expiry and value of an unrepeated key is the last one the delta writes there, and otherwise what it was or was made with; everything new is what its operation says; in- and out-counts are the numbers of active pointers at the object |
| Effects.SetOnce | src/core/snapshot.cpp:148-158 | Setting a key leaves the new value as its only one if and only if the key was not repeated |
| Effects.RepeatedKey | src/core/snapshot.cpp:148-158 | On a list with a key twice, setting it leaves the other value standing |
| Effects.NextIndexTight | src/core/snapshot.cpp:248-264 | New object ids start right above the largest index in use |
| Effects.NextPointerTight | src/core/snapshot.cpp:248-264 | New pointer ids start right above the largest in use |
| Refusals.Refused | src/core/snapshot.cpp:264-456 | A delta is refused exactly for its first operation that does not fit what the ones before it made, named and interned, with the error of that operation; an accepted one leaves exactly its interns in the tables |
| Laws.CheckPointers | src/law/invariant.cpp:88-109 | The loop of a pointer law reports one violation for each violating pointer, in order |
| Laws.CheckObjects | src/law/invariant.cpp:175-192 | The loop of the identity law reports one violation for each lost object, in order |
| Laws.Check | src/law/invariant.cpp:60-85 | Checking a law reports nothing if and only if the law, stated over the two snapshots, holds |
| Laws.ReportExact | src/law/invariant.cpp:88-192 | A law's report is empty if and only if its statement is true of the step |
| Laws.ReportSays | src/law/invariant.cpp:88-192 | A report holds exactly the violations there are, each with the ends of its pointer in order and how far it is off |
| Laws.LawsAreTheorems | src/law/invariant.cpp:88-192 | After any run of accepted deltas from the empty world, on any further accepted delta, the four laws report nothing |
| EpochView.ViewRun | src/core/snapshot.cpp:248-461 | Running a fact-free delta commutes with seeing a snapshot only up to an epoch, errors included |
| EpochView.RecountView | src/core/snapshot.cpp:126-146 | In- and out-counts do not change when epochs are clamped |
| EpochView.ClampApply | src/core/snapshot.cpp:248-461 | Clamping the epochs before a fact-free delta makes no difference that clamping after it would not; both are accepted or refused alike |
| SequentialMerge.Merge | src/core/snapshot.cpp:463-638 | The merge algorithm, loop by loop, returns what the specification of the merge returns, for every base and every two deltas, failures included; what operations a merge holds is stated by `MergeShape.Shape` |
| SequentialMerge.RejectConflicts | src/core/snapshot.cpp:168-181 | The scan with a map of last types finds a conflict exactly when two updates of one reference name different types |
| SequentialMerge.SyntheticOf | src/core/snapshot.cpp:183-199 | Numbering the first delta's creates gives the ids the overlay will allocate for them |
| SequentialMerge.RemapOf | src/core/snapshot.cpp:478-497 | Renaming the second delta's temps in a loop: the same map or the same error as the recursion that specifies it |
| SequentialMerge.NormalizeAll | src/core/snapshot.cpp:500-617 | Rewriting every reference of the second delta, or the first error |
| SequentialMerge.CompressUpdates | src/core/snapshot.cpp:212-234 | The two passes over last positions drop exactly the type updates that a later one of the same reference overwrites, and nothing else (`MergeShape.CompressKeeps`) |
| SequentialMerge.OverwrittenLast | src/core/snapshot.cpp:212-234 | A type update is overwritten exactly when it is not the one its key's last position names |
| CompressProof.Overwrite | src/core/snapshot.cpp:212-234 | A run that types an object again later ends in the same state whatever type the object has now |
| CompressProof.KeyNames | src/core/snapshot.cpp:74-80 | Two references that resolve and print alike are one reference, so the printed key loses nothing |
| CompressProof.CompressRun | src/core/snapshot.cpp:212-234 | On a well-formed state the compressed delta runs to the same state as the delta |
| CompressProof.CompressSettles | src/core/snapshot.cpp:168-181 | A compressed delta has no type conflict left and only operations of the original |
| RenameProof.RunCreates | src/core/snapshot.cpp:183-199 | After any accepted run, the ids and the temp table have grown by exactly the creates, numbered from the next index |
| RenameProof.RemapWorks | src/core/snapshot.cpp:483-497 | The renaming of temps succeeds, is injective, and avoids every temp of the first delta |
| RenameProof.CreatedFresh | src/core/snapshot.cpp:293-301 | An accepted delta creates distinct valid temp ids, none known before |
| RenameProof.StepNormalized | src/core/snapshot.cpp:500-617 | An operation with rewritten references makes the same snapshot from the joint temp table as the original does from its own; it can be rewritten if and only if its references are known |
| RenameProof.RunNormalized | src/core/snapshot.cpp:500-617 | The same for whole deltas |
| MergeProof.FuseRuns | src/core/snapshot.cpp:463-638 | The concatenated, renamed deltas run, from the base, to what the two deltas run to one after the other, up to the second epoch |
| MergeProof.MergeSound | src/core/snapshot.cpp:463-638 | Whenever the merge succeeds on a well-formed base, the merged delta produces in one step the snapshot of the two steps, ids, symbols, attributes and counts included, with the second epoch clamped |
| MergeProof.MergeComplete | src/core/snapshot.cpp:463-638 | For deltas that assert no facts the merge succeeds if and only if both steps are accepted, neither delta retypes inconsistently, and the second names by id only objects that exist before it |
| MergeShape.Shape | src/core/snapshot.cpp:463-638 | A merge that succeeds gives the operations of the first delta followed by those of the second, each the same but for a one-to-one renaming of the second's temps and for objects the first made, which are named by their temp; of them, exactly the type updates with a later one of the same reference are left out, and the order stays |
| MergeShape.CompressKeeps | src/core/snapshot.cpp:212-234 | What compressing keeps are, in order, exactly the operations that are no type update with a later one of the same reference |
| MergeShape.Lists | src/core/snapshot.cpp:500-638 | For any kind of operation that refers to no object, those of the merge are those of the first delta followed by those of the second |
| MergeShape.EventsAndAssertions | src/core/snapshot.cpp:500-638 | The events of a merge, its pointer assertions and its fact assertions are those of the first delta and then those of the second |
| Morphisms.FindRelationOf | src/category/composition.cpp:48-55 | The scan of the relation table returns the least symbol of the name |
| Morphisms.RelationInterner.Intern | src/category/composition.cpp:67-85 | The interner returns the snapshot's symbol, the cached one, or the next free one, and appends the intern the last case needs |
| Morphisms.RelationInterner.ExpirePrior | src/category/composition.cpp:166-176 | Exactly the object's active edges of that relation from an earlier application are expired, in order |
| Morphisms.RelationInterner.RunAction | src/category/composition.cpp:228-269 | One action on one object appends what the action is specified to do; its effect is stated by `MorphismEffect.DefinedEffect` |
| Morphisms.ApplyDefined | src/category/composition.cpp:212-283 | The loops over selection and actions build the delta the morphism is specified to have; its effect is stated by `MorphismEffect.DefinedEffect` |
| Morphisms.ProjectOf | src/category/composition.cpp:18-31 | Projecting a selection keeps exactly the objects present, in order |
| Morphisms.ApplyMorphism | src/category/composition.cpp:311-335 | Identity, defined and composed morphisms give the delta specified, with the failure event when a child's delta or the merge is refused; the effect is stated by `MorphismEffect.DefinedEffect` and `CategoryProof.MorphismRuns` |
| MorphismProof.DefinedAccepted | src/category/composition.cpp:212-283 | On a well-formed snapshot the delta of a defined morphism, with registered types and named relations, is accepted, and can be merged |
| MorphismProof.FuseTame | src/category/composition.cpp:311-335 | Deltas of morphisms always merge, and the merge does both steps in one; what comes out is again such a delta |
| CategoryProof.DefinedSeen | src/category/composition.cpp:212-283 | A defined morphism makes the same delta on two snapshots that differ only in epochs and events long past |
| CategoryProof.MorphismRuns | src/category/composition.cpp:311-335 | The delta of any morphism is accepted and does in one step what its defined parts do in turn, up to epochs |
| CategoryProof.SamePartsSameResult | src/category/composition.cpp:292-335 | Morphisms with the same parts in the same order produce the same snapshot, however they are bracketed and wherever identities stand |
| CategoryProof.CompositionAssociative | README.md:83-87 | When the inner compositions type-check, so do both outer ones; they have one signature, are accepted, and produce the same snapshot on every well-formed snapshot and selection |
| CategoryProof.IdentityNeutral | README.md:83-87 | Composing with an identity on either side type-checks, keeps the signature, and produces the snapshot of the morphism alone |
| MorphismEffect.DefinedEffect | src/category/composition.cpp:166-283 | Applying a defined morphism: per selected occurrence of an object of the domain type there is one new loop named after the morphism and one new pointer for each emit action whose target exists, from the object to the target or the other way, with that relation name, role and weight; selected objects have the codomain and for each key the value of its last set action that evaluates; exactly the active loops of earlier applications at them expire; nothing else changes; one event |
| MorphismEffect.TraceKept | src/category/composition.cpp:311-335 | The events of a composite are those of its parts, in order, and then its own |
| Builder.ImportNames | src/compiler/program_builder.cpp:33-54 | Importing a table puts every name of the snapshot in the slot just below its symbol |
| Builder.ProgramBuilder.ImportSymbols | src/compiler/program_builder.cpp:33-54 | The builder's tables and slot maps agree after the import, every name of the snapshot at its slot |
| Builder.ProgramBuilder.StringSymbol | src/compiler/program_builder.cpp:56-65 | A string gets one slot, which holds it; older slots stay |
| Builder.ProgramBuilder.TypeSymbol | src/compiler/program_builder.cpp:67-76 | A known type name keeps its slot and a new one is appended |
| Builder.ProgramBuilder.RelationSymbol | src/compiler/program_builder.cpp:78-87 | A known relation name keeps its slot and a new one is appended |
| Builder.ProgramBuilder.InternType | src/compiler/program_builder.cpp:89-91 | After interning a type, code and tables still run to what the overlay does, and the slot is bound to the symbol the overlay has for the name |
| Builder.ProgramBuilder.InternRelation | src/compiler/program_builder.cpp:93-95 | The same for a relation |
| Builder.ProgramBuilder.RefFor | src/compiler/program_builder.cpp:350-364 | A reference is written down exactly when it is a temp or an object of the snapshot, and as the machine will read it back |
| Builder.ProgramBuilder.AppendCreate | src/compiler/program_builder.cpp:259-273 | A create and its attribute settings leave the overlay where the create alone would |
| Builder.ProgramBuilder.AppendLink | src/compiler/program_builder.cpp:294-307 | The same for a link; it is refused exactly when an end is unknown to the snapshot |
| Builder.ProgramBuilder.AppendObject | src/compiler/program_builder.cpp:274-293 | An operation on an object is compiled to code that does it; it is refused exactly when its target is unknown |
| Builder.ProgramBuilder.AppendPointer | src/compiler/program_builder.cpp:308-325 | An operation on a pointer of the snapshot is compiled to code that does it |
| Builder.ProgramBuilder.AppendOp | src/compiler/program_builder.cpp:241-338 | Any compilable operation is written out by the code in full, machine and overlay stay together, or the builder throws exactly on an unknown reference |
| Builder.ProgramBuilder.AppendDelta | src/compiler/program_builder.cpp:223-340 | The whole delta, operation by operation: the code so far emits the delta so far, written out, and runs to the state the overlay is in |
| Builder.CompileDelta | src/compiler/program_builder.cpp:223-344 | Compiling an accepted, compilable delta fails exactly on a reference the snapshot does not have; otherwise the program executes to that delta with each operation written out (`Expansion.Expanded`: interns with their symbols, bare creates and links followed by one setting per attribute, the default law domain), which drives the overlay to the same snapshot |
| Expansion.ExpandedLists | src/compiler/program_builder.cpp:241-340 | Of every kind of operation the compiler does not add to, those of the executed delta are those of the compiled one, in order |
| Expansion.EventsAndAssertions | src/compiler/program_builder.cpp:326-338 | The executed delta carries exactly the events, object assertions and pointer assertions of the compiled one, in order |
| CompileProof.SymbolForSlot | src/kernel/vm.cpp:385-412 | The symbol the machine derives from a table slot is the one the overlay gives the name |
| CompileProof.TypeInSim | src/kernel/vm.cpp:385-412 | A type intern executed by the machine and the intern of the overlay keep the two related |
| CompileProof.RelationInSim | src/kernel/vm.cpp:413-440 | The same for relations |
| CompileProof.RefSim | src/kernel/vm.cpp:287-327 | The machine reads an encoded reference back as the reference |
| CompileProof.CreateMore | src/compiler/program_builder.cpp:259-273 | Creating with one more attribute is creating and then setting it |
| CompileProof.LinkMore | src/compiler/program_builder.cpp:294-307 | Linking with one more attribute is linking and then setting it |
| CompileProof.CreateSim | src/kernel/vm.cpp:441-464 | A create executed by the machine keeps machine and overlay related, and emits the create |
| CompileProof.LinkSim | src/kernel/vm.cpp:518-556 | A link executed by the machine does, and the pointer id it predicts is the one the overlay allocates |
| CompileProof.EditSim | src/kernel/vm.cpp:465-517 | An emitted edit keeps machine and overlay related |
| CompileProof.EditEmitted | src/kernel/vm.cpp:465-626 | One more edit instruction at the end of the code emits that edit and keeps the two related |
| Programs.ExecGrows | src/kernel/vm.cpp:379-705 | Symbols added to the tables later do not change what an instruction does |
| Machine.VmFrame.RunTypeIn | src/kernel/vm.cpp:385-412 | The frame after a type intern, or the refusal |
| Machine.VmFrame.RunRelationIn | src/kernel/vm.cpp:413-440 | The frame after a relation intern, or the refusal |
| Machine.VmFrame.RunObjectNew | src/kernel/vm.cpp:441-464 | The frame after a create, or the refusal |
| Machine.VmFrame.RunPointerNew | src/kernel/vm.cpp:518-556 | The frame after a link, its predicted pointer id included, or the refusal |
| Machine.VmFrame.RunEdit | src/kernel/vm.cpp:465-626 | The operation an edit instruction stands for is appended, or the instruction is refused |
| Machine.VmFrame.ExecuteInstruction | src/kernel/vm.cpp:379-705 | The frame changes as specified, or the instruction's position is recorded as refused |
| Machine.Execute | src/kernel/vm.cpp:709-750 | A program runs instruction by instruction to the specified delta; diagnostics are empty if and only if the run succeeds and the overlay accepts it |
| MachineProof.RunsThrough | src/kernel/vm.cpp:379-750 | Whatever program the machine runs through, the overlay accepts its delta if and only if no empty name is interned and every type or relation slot used holds a name of the snapshot or is the first from which its name was interned |
| MachineProof.RunsOnce | src/kernel/vm.cpp:441-556 | In a run the machine completes, every object temp is given out once and fits 32 bits, every pointer temp is given out once, and every instruction has its number of operands, none of them an object id |
| MachineProof.EmptyName | src/kernel/vm.cpp:385-412 | A program interning an empty name from an empty world: the machine runs through it and the overlay rejects its delta |
| MachineProof.SlotsIntern | src/kernel/vm.cpp:385-440 | An intern the machine accepts is one the overlay accepts unless the name is empty, and the two tables go on agreeing |
| Registry.SymbolRegistry.Intern | src/core/type.cpp:10-24 | Names and their map stay inverse; a known name keeps its slot and a new one is appended; an empty one throws |
| Registry.SymbolRegistry.InternAt | src/core/type.cpp:26-52 | Interning at a symbol: the slots resized and filled as specified, or an exception, with names and map inverse |
| Registry.SymbolRegistry.Name | src/core/type.cpp:62-67 | A symbol's name, or an exception exactly outside the slots |
| Registry.SymbolRegistry.RestoreNames | src/core/relation.cpp:89-107 | Restoring a table fills the slots up to its largest symbol, each with its name |
| Registry.InternAgrees | src/core/relation.cpp:38-64 | The registries and the overlay make the same table of an intern if and only if the intern carries the symbol the name already has, or the next free one for a new name |
| Registry.GapDiffers | src/core/type.cpp:26-52 | A new name at a later symbol leaves a gap in the slots that the overlay's table does not have |
| Registry.AheadDiffers | src/core/type.cpp:26-52 | A new name interned two symbols ahead is accepted by both, with different tables |
| Listings.AssignAgrees | src/core/world.cpp:466-468 | Assigning a create's attributes one by one to a map lists like sorting them if and only if no key is repeated |
| Listings.SetListing | src/core/world.cpp:523-535 | Setting a key in an attribute map and listing it is setting it in the list, as the overlay does |
| Listings.RemoveListing | src/core/world.cpp:536-548 | Removing a key in the map and listing it is removing it from the list |
| WorldIndex.PointerIndex.Rebuild | src/core/world_index.cpp:30-71 | After the rebuild every bucket holds, in ascending order, exactly the active pointers out of or into an object or of a relation |
| WorldIndex.AscendingOrders | src/core/world_index.cpp:22-26 | Sorting a bucket orders it and loses nothing |
| MutableWorld.ObjectArena.Create | src/core/object.cpp:9-26 | A new object goes to the position its index says, or an exception leaves the arena alone |
| MutableWorld.ObjectArena.SetType | src/core/object.cpp:60-65 | The type of one object changes and nothing else |
| MutableWorld.ObjectArena.SetExistence | src/core/object.cpp:56-58 | The state of one object changes and nothing else |
| MutableWorld.World.constructor | src/core/world.cpp:152-156 | A new world is valid and empty |
| MutableWorld.World.FromSnapshot | src/core/world.cpp:158-207 | The world made of a loadable snapshot is valid and shows that snapshot, its counts recomputed |
| MutableWorld.World.Load | src/core/world.cpp:158-207 | Filling the arena, tables, pointers and index from a snapshot establishes every invariant of the class |
| MutableWorld.World.Reloads | src/core/world.cpp:158-207 | Whatever a world shows can be loaded again, and shows the same |
| MutableWorld.World.Snapshot | src/core/world.cpp:298-357 | The snapshot with counts taken from the index is the state the world stands for |
| MutableWorld.World.ResolveObject | src/core/world.cpp:422-440 | A reference resolves, or throws, as in the overlay |
| MutableWorld.World.PointerPosition | src/core/world.cpp:683-690 | The scan finds the first pointer of an id |
| MutableWorld.World.ApplyIntern | src/core/world.cpp:443-452 | An intern in place is the overlay's intern, thrown and refused alike |
| MutableWorld.World.ApplyCreate | src/core/world.cpp:453-484 | A create in place is the overlay's create |
| MutableWorld.World.ApplyObject | src/core/world.cpp:485-548 | An edit of an object in place is the overlay's edit |
| MutableWorld.World.ApplyLink | src/core/world.cpp:549-585 | A link in place is the overlay's link |
| MutableWorld.World.ApplyPointer | src/core/world.cpp:586-645 | An edit of a pointer in place is the overlay's edit, whose content `Effects.Effect` states |
| MutableWorld.World.ApplyOp | src/core/world.cpp:442-675 | Every operation: it throws exactly when the overlay refuses it, and otherwise leaves the world standing for the overlay's next state, whose content `Effects.Effect` states |
| MutableWorld.World.ApplyDelta | src/core/world.cpp:416-681 | From any valid world, a delta that runs on regular interns, named creates and unique keys, and asserts no facts, throws exactly when the overlay refuses it; otherwise the world is valid again, index included, and shows the overlay's result, whose content `Effects.Effect` states |
| MutableWorld.World.RebuildIndex | src/core/world.cpp:692-694 | The index agrees with a scan of the active pointers |
| ExecutionPlan.ResolveOperations | src/kernel/execution_plan.cpp:109-256 | The loop that predicts temps and pointer ids returns the specified read and write sets for each operation |
| ExecutionPlan.PlanUnion | src/kernel/execution_plan.cpp:29-43 | The union of the sets are the facts, before and after, of everything the delta touches |
| ExecutionPlan.FrameRun | src/kernel/execution_plan.cpp:109-256 | Whatever the plan does not list as written is unchanged by the run, predicted ids being the allocated ones |
| ExecutionPlan.ReadRun | src/kernel/execution_plan.cpp:109-256 | Everything the plan lists as written and that existed before is listed as read |
| ExecutionPlan.TouchedAllOld | src/kernel/execution_plan.cpp:109-256 | An object that was there before is among the written ones if and only if some operation edits it by its id, and among the read ones if and only if some operation edits, asserts or links it by its id; predicted temps never stand for it |
| ExecutionPlan.TouchedPointers | src/kernel/execution_plan.cpp:109-256 | A pointer is among the read ones if and only if some operation works on it or asserts it by its id, and among the written ones if and only if some operation other than an assertion does or it is among those the links are predicted to make |
| ExecutionPlan.FactsOfSubject | src/kernel/execution_plan.cpp:64-107 | The facts of a subject are those that state it or an attribute of it |
| ExecutionPlan.WritesFrame | src/core/fact.cpp:152-209 | After an accepted delta, every new fact is in a write set if and only if the delta edits, by id, every object that was a tombstone before |
| ExecutionPlan.ReadsFrame | src/core/fact.cpp:152-209 | Every lost fact is in a read set if and only if the delta edits, asserts or links, by id, every object that was a tombstone before |
| ExecutionPlan.UntouchedTombstone | src/core/fact.cpp:163-167 | For a world with one tombstone and the empty delta both fail |
| ExecutionPlan.TombstoneFact | src/core/fact.cpp:163-167 | A tombstone's fact carries its snapshot's epoch, so it is never a fact of a snapshot at another epoch |
| FactDerivation.DeriveFacts | src/core/fact.cpp:152-209 | The loops over sorted objects, pointers and attributes list exactly the facts of the snapshot, in canonical order |
| FactDerivation.ListSaysFacts | src/core/fact.cpp:152-209 | A fact is listed if and only if the snapshot states it |
| FactDerivation.FactsSay | src/core/fact.cpp:152-209 | A fact is derived if and only if its fields are those of an object, a pointer or an attribute of one, a tombstone expired at the snapshot's epoch |
| Datalog.Evaluation.EvaluateBody | src/rule/derivation.cpp:97-136 | The backtracking join visits exactly the join of the remaining atoms under the bindings, and leaves the bindings as they were |
| Datalog.Evaluation.TryEdge | src/rule/derivation.cpp:117-135 | One edge against one atom binds, recurses and unbinds without trace |
| Datalog.JoinSound | src/rule/derivation.cpp:97-136 | Every visited head comes from an assignment that satisfies the atoms |
| Datalog.JoinComplete | src/rule/derivation.cpp:97-136 | Every satisfying assignment is visited |
| Datalog.HeadsExact | src/rule/derivation.cpp:97-136 | A rule yields an edge if and only if some assignment of its variables makes the body facts and the head that edge |
| Derivation.Round | src/rule/derivation.cpp:285-294 | One round over all rules collects exactly the heads not known yet, each first credited to the first rule that yields it, with that rule's role and weight (`DerivationCredit.LabelCredits`) |
| Derivation.InsertRound | src/rule/derivation.cpp:295-301 | Inserting a round adds exactly its edges, credits each once, and reports a change exactly when there was one |
| Derivation.Derive | src/rule/derivation.cpp:282-305 | The capped loop, with its early exit, computes as many rounds as the cap says, and what they created, roles and weights included (`DerivationCredit.CreatedCredited`) |
| Derivation.CreatedExact | src/rule/derivation.cpp:282-305 | Created edges are exactly what the rounds added: none authored, none twice |
| Closure.RoundsWithin | src/rule/derivation.cpp:282-305 | Soundness: no number of rounds leaves any model of the rules |
| Closure.RoundsReach | src/rule/derivation.cpp:282-305 | Completeness: the rounds have reached the least model if and only if one more adds nothing |
| Closure.CapByCount | src/rule/derivation.cpp:283 | The cap suffices whenever some model adds fewer edges than it |
| Closure.ReachabilityCloses | src/rule/derivation.cpp:283 | As many rounds as there are objects close the one-hop rule, each source gaining an object a round |
| Closure.CapFallsShort | README.md:219-223 | For every bound on the rounds there are rules on one object whose least model it does not reach |
| Heights.RoundsReachLow | src/rule/derivation.cpp:282-305 | So many rounds reach the least model if and only if every edge that has a proof tree has one no higher |
| Heights.ProofReached | src/rule/derivation.cpp:285-301 | The conclusion of a proof tree is reached in as many rounds as the tree is high |
| Heights.ReachedProved | src/rule/derivation.cpp:285-301 | Every edge reached in some rounds has a proof tree no higher than their number |
| Heights.RankedReach | src/rule/derivation.cpp:282-305 | When relation names have ranks that rise from every body to its head, as many rounds as the highest rank reach the least model, whatever the edges |
| Heights.ChainReached | src/rule/derivation.cpp:282-305 | A chain of rules over one loop is closed by so many rounds if and only if it has no more rules |
| DerivationCap.ReachedByHeight | src/rule/derivation.cpp:282-305 | The step on a snapshot reaches the least model if and only if every edge that follows from the authored ones follows by a proof tree no higher than 64 plus the number of objects |
| DerivationCap.ReachedByCount | src/rule/derivation.cpp:282-305 | It does whenever some model of the rules adds fewer edges to the authored ones than that |
| DerivationCap.ReachedByRank | src/rule/derivation.cpp:282-305 | It does whenever no relation is derived from itself and ranks go no higher than that |
| DerivationCap.ChainSharp | src/rule/derivation.cpp:283 | On a snapshot of one object and one edge a chain of rules is closed if and only if it has at most as many rules as the cap |
| DerivationCap.StepFallsShort | README.md:219-223 | On that well-formed snapshot one rule more makes the step stop short of the least model |
| DerivationStep.SeedFacts | src/rule/derivation.cpp:273-279 | The fact index starts with exactly the active edges that were not derived |
| DerivationStep.DeriveStep | src/rule/derivation.cpp:257-338 | The whole step builds the specified delta: clear, derive, sort, intern, link; the role and weight of each link are stated by `DerivationCredit.StepCredits` |
| DerivationStep.OneOrder | src/rule/derivation.cpp:307-316 | The order of created edges leaves no choice |
| DerivationCredit.ListOrder | src/rule/derivation.cpp:307-316 | Created edges are listed by source, then target, then relation |
| DerivationProof.StepComputesLeastModel | src/rule/derivation.cpp:257-338 | Authored and created edges together stay inside every model, and are the least one if and only if another round would add nothing; no edge is created twice or authored already |
| DerivationProof.ReachabilityReached | README.md:219-231 | For the transitive rule on any well-formed snapshot the step reaches the least model, the transitive closure, whatever the graph |
| DerivationProof.StepApplies | src/rule/derivation.cpp:257-338 | The delta of a step is accepted, expires the earlier derived edges and leaves exactly the created ones active beside the authored |
| DerivationProof.AuthoredSame | src/rule/derivation.cpp:265-279 | A step does not change the authored edges of the next |
| DerivationProof.SteppingAgain | README.md:233-236 | Stepping again unlinks exactly the pointers the first step made and links exactly the same list again, whether or not the cap cut the rounds off |
| DerivationCredit.StepCredits | src/rule/derivation.cpp:257-338 | Every pointer a step makes, and every link of its delta, carries the role and weight of the first rule to yield its edge in the first round in which any rule does; every edge the rounds yield and nobody authored has its pointer |
| DerivationCredit.CreatedCredited | src/rule/derivation.cpp:282-305 | Every created edge is credited to the first rule that yields it in the first round any does |
| DerivationCredit.OneFirstYield | src/rule/derivation.cpp:282-305 | That round and that rule are unique |
| DerivationCredit.AuthoredExact | src/rule/derivation.cpp:273-279 | The edges a step starts from are those of the pointers born and not expired that are of another law domain |
| Tidiness.ApplyTidies | src/core/snapshot.cpp:148-166 | An accepted delta keeps every attribute list sorted, so every snapshot reached from an empty world has them sorted |
| Tidiness.CanonicalApart | src/measure/repair_measure.cpp:384-387 | Well-formed snapshots with sorted attributes and the same objects, pointers and tables in place have one canonical form if and only if they are equal |
| Repair.CanonicalBasis | src/measure/repair_measure.cpp:151-272 | The loops collect, in order and up to the limit, the candidates of the focus pointers and objects |
| Repair.CanonicalBasisOk | src/measure/repair_measure.cpp:137-272 | Whatever the focus, every operator is one operation on something the snapshot holds, none is listed twice, and there are at most as many as allowed |
| Repair.CanonicalBasisExact | src/measure/repair_measure.cpp:151-272 | Below its limit the basis holds exactly these repairs of the focus: expiring an active pointer, lowering a weight above the bound, removing an attribute, setting an attribute back to the first value its key had before where that differs; at the limit it holds only such |
| Repair.AboveBoundExact | src/measure/repair_measure.cpp:186-194 | On 64 bits, a weight is above the bound if and only if it is not finite or is greater than one, read off sign, exponent and fraction |
| Repair.CollectCut | src/measure/repair_measure.cpp:137-150 | A limit keeps the first operators, as many as fit |
| Repair.CandidatesRanked | src/measure/repair_measure.cpp:151-272 | Of one pointer or object, expiring and lowering come before removing attributes, and that before setting them back |
| RepairSearch.StepFuses | src/measure/repair_measure.cpp:376-384 | Merging a repair into a witness that replays never fails, and the result replays |
| RepairSearch.Replays | src/measure/repair_measure.cpp:376-401 | The witness delta, applied to the target in one step, yields the snapshot reached step by step, with its epoch clamped |
| RepairSearch.SeenByKey | src/measure/repair_measure.cpp:384-387 | A snapshot the search reaches has its canonical form among those seen if and only if it was itself seen |
| RepairSearch.Expand | src/measure/repair_measure.cpp:363-399 | Trying one operator keeps the invariant of the search, its seen set keyed by canonical form, and bounds the work still queued |
| RepairSearch.ExpandAll | src/measure/repair_measure.cpp:362-400 | Trying all operators of a node does; the expansion limit stops it only when the tree is larger than the limit |
| RepairSearch.Search | src/measure/repair_measure.cpp:348-407 | The search answers Found or Exhausted; Found at a depth means a legal state there and none with fewer operators; Exhausted off the limit means none within the depth at all |
| RepairSearch.SolveRepair | src/measure/repair_measure.cpp:324-408 | The status in every case, minimality of the depth found, a witness that replays to the legal snapshot, and when the limit can have cut the search off |
| CutLoss.AnalyzeCuts | src/measure/cut_analysis.cpp:70-150 | On arcs with distinct non-zero pointer ids, the objects reported are exactly the cut vertices, in order, the pointers exactly the bridges, and each loss is all other vertices outside the largest component left; parallel arcs, self-loops and arcs to unknown objects included |
| CutLoss.BuildAdjacency | src/measure/cut_analysis.cpp:77-86 | The lists hold every arc with known ends at both of them, and nothing else |
| CutLoss.IndexOf | src/measure/cut_analysis.cpp:26-32 | The position of an object among the sorted ones, or their number |
| CutAnalysis.LowLink.TakeChild | src/measure/cut_analysis.cpp:110-124 | After a child's search the low link, the articulation set and the bridge set are updated as specified |
| CutAnalysis.LowLink.Dfs | src/measure/cut_analysis.cpp:103-131 | Searching from a vertex leaves its whole subtree judged: discovery times, low link, and both reports exact for it |
| CutAnalysis.LowLink.Search | src/measure/cut_analysis.cpp:133-137 | From every vertex not yet discovered: a vertex is reported if and only if it cuts the graph, a pointer if and only if it is a bridge |
| CutSearch.EntryBridge | src/measure/cut_analysis.cpp:122-124 | The arc a subtree was entered by is a bridge if and only if the low link stays above the vertex entered from |
| CutSearch.Bypasses | src/measure/cut_analysis.cpp:119-121 | A subtree whose low link passes the vertex stays linked to what is above without that vertex |
| CutSearch.CutsOff | src/measure/cut_analysis.cpp:119-121 | A subtree whose low link does not pass the vertex is cut off by it |
| CutSearch.BackArc | src/measure/cut_analysis.cpp:125-127 | An arc back into the subtree or up the path is no bridge |
| CutSearch.Unreported | src/measure/cut_analysis.cpp:103-131 | A vertex that is not reported when its search ends cuts nothing |
| CutSearch.Finish | src/measure/cut_analysis.cpp:103-131 | When all links of a vertex are done its subtree is settled |
| CutGraph.BridgeExact | src/measure/cut_analysis.cpp:70-150 | Removing an arc changes what is linked if and only if it separates its own ends |
| CutGraph.SideCuts | src/measure/cut_analysis.cpp:70-150 | A set that leads out through one vertex only is separated by it |
| CutLoss.Fill | src/measure/cut_analysis.cpp:50-64 | The stack fill marks and counts exactly one component of the graph without the vertex |
| CutLoss.LossWithout | src/measure/cut_analysis.cpp:34-66 | The loss is the number of other vertices outside the largest remaining component |
| Codec.NumberRead | src/kernel/canonical_codec.cpp:18-30 | A number written most significant byte first is read back, leaving what follows |
| Codec.TextRead | src/kernel/canonical_codec.cpp:221-226 | A counted text is read back, leaving what follows |
| Codec.ListedRead | src/kernel/canonical_codec.cpp:475-494 | Items each read back one by one are read back as a list |
| Codec.ValueRead | src/kernel/canonical_codec.cpp:423-473 | Every value of the eight kinds is read back, negative integers in two's complement included |
| Codec.ObjectRead | src/kernel/canonical_codec.cpp:716-729 | An object of the snapshot section is read back |
| Codec.PointerRead | src/kernel/canonical_codec.cpp:736-753 | A pointer of the snapshot section is read back, with or without expiry |
| CodecStreams.NumberAt | src/kernel/canonical_codec.cpp:18-22 | The byte at a position of a number is the one the shift takes |
| CodecStreams.CanonicalWriter.BigEndian | src/kernel/canonical_codec.cpp:18-22 | The shift loop appends exactly the bytes of the number |
| CodecStreams.CanonicalWriter.String | src/kernel/canonical_codec.cpp:221-226 | A text is appended with its length |
| CodecStreams.CanonicalWriter.Value | src/kernel/canonical_codec.cpp:423-450 | A value is appended with its kind |
| CodecStreams.CanonicalWriter.Attributes | src/kernel/canonical_codec.cpp:721-726 | Attributes are appended sorted and counted |
| CodecStreams.CanonicalWriter.Object | src/kernel/canonical_codec.cpp:716-729 | An object is appended as its tidy form |
| CodecStreams.CanonicalWriter.Pointer | src/kernel/canonical_codec.cpp:736-753 | A pointer is appended as its tidy form |
| CodecStreams.CanonicalWriter.Names | src/kernel/canonical_codec.cpp:680-706 | The symbols in use are appended ascending, each once, with its name or none |
| CodecStreams.CanonicalWriter.PayloadFields | src/kernel/canonical_codec.cpp:563-608 | The payload of each of the five kinds of fact is appended |
| CodecStreams.CanonicalWriter.Fact | src/kernel/canonical_codec.cpp:654-661 | A stored fact is appended |
| CodecStreams.CanonicalWriter.Facts | src/kernel/canonical_codec.cpp:754-761 | The facts are derived, made, sorted by id and appended with their number |
| CodecStreams.MakeRecord | src/core/fact.cpp:141-150 | Making a fact hashes its payload and then the fact over that hash |
| CodecStreams.CanonicalWriter.Snapshot | src/kernel/canonical_codec.cpp:674-762 | Writing a snapshot appends exactly its specified bytes, facts included, to what was there |
| CodecStreams.Collect | src/kernel/canonical_codec.cpp:680-683 | Collecting symbols in an ordered set gives the ascending list of them |
| CodecStreams.CanonicalReader.Read | src/kernel/canonical_codec.cpp:251-261 | The next bytes, or an exception exactly when too few are left |
| CodecStreams.CanonicalReader.BigEndian | src/kernel/canonical_codec.cpp:24-30 | The fold over the bytes gives the number |
| CodecStreams.CanonicalReader.String | src/kernel/canonical_codec.cpp:286-295 | A text is taken exactly when one is there |
| CodecStreams.CanonicalReader.Tag | src/kernel/canonical_codec.cpp:316-320 | The tag is accepted exactly when the next text is that tag |
| CodecStreams.CanonicalReader.Value | src/kernel/canonical_codec.cpp:452-473 | A value is taken, or the exception of an unknown kind or a short stream |
| CodecStreams.CanonicalReader.Object | src/kernel/canonical_codec.cpp:790-806 | An object is taken exactly when one is there |
| CodecStreams.CanonicalReader.Pointer | src/kernel/canonical_codec.cpp:810-829 | A pointer is taken exactly when one is there |
| CodecStreams.CanonicalReader.Names | src/kernel/canonical_codec.cpp:774-786 | The first name read for a symbol stays |
| CodecStreams.CanonicalReader.Payload | src/kernel/canonical_codec.cpp:610-652 | A payload is taken, or the exception of an unknown tag or a short stream |
| CodecStreams.CanonicalReader.Fact | src/kernel/canonical_codec.cpp:663-672 | A stored fact is taken exactly when one is there |
| CodecStreams.CanonicalReader.Snapshot | src/kernel/canonical_codec.cpp:764-838 | Reading takes exactly the snapshot and facts found at the front of the bytes left, or fails when there is none |
| FactCodec.PayloadRead | src/kernel/canonical_codec.cpp:563-652 | Every payload is read back |
| FactCodec.RecordRead | src/kernel/canonical_codec.cpp:654-672 | Every stored fact is read back |
| FactCodec.RecordsRead | src/kernel/canonical_codec.cpp:754-761 | The facts of a snapshot, made with any hash of 32 bytes and sorted by id, are read back |
| ContentAddress.ContentAddressed | src/core/fact.cpp:110-150 | Where the hash function does not collide on their bytes, two facts have the same id if and only if they are the same fact |
| ContentAddress.PayloadApart | src/core/fact.cpp:60-114 | Payloads of whatever kinds hash the same bytes only if they are the same |
| SnapshotCodec.SnapshotRead | src/kernel/canonical_codec.cpp:674-838 | Reading the bytes of any snapshot within its field widths, whatever follows them, gives its canonical form and its facts in order, and leaves what follows |
| SnapshotNormal.SameCanonical | src/kernel/canonical_codec.cpp:674-753 | Two snapshots with unique ids have one canonical form if and only if they differ only in the order of objects, pointers and attributes and in unused names |
| SnapshotNormal.SameBytes | src/kernel/canonical_codec.cpp:674-762 | Two such snapshots have the same bytes, facts included, if and only if they differ only so |
| SnapshotNormal.WrittenAgain | src/kernel/canonical_codec.cpp:674-762 | Writing the canonical form gives the same bytes |
| SnapshotNormal.CanonicalTwice | src/kernel/canonical_codec.cpp:674-753 | The canonical form is its own canonical form |
| SnapshotNormal.CanonicalOrder | src/kernel/canonical_codec.cpp:674-753 | The canonical form lists objects by index and generation, pointers by id, and attributes in order |
| SnapshotNormal.SameFacts | src/kernel/canonical_codec.cpp:754-761 | Snapshots of the same content have the same facts |
| SnapshotNormal.WellFormedUnique | src/kernel/canonical_codec.cpp:709-736 | Every well-formed snapshot has the unique ids this needs |
| KeySort.AscendingUnique | src/kernel/canonical_codec.cpp:708-736 | Given elements have one ascending list, so sorting leaves no choice |
| AttributeOrder.SortedSame | src/core/attribute.cpp:12-23 | Two attribute lists sort alike if and only if one rearranges the other |
| AttributeOrder.KeysAscend | src/core/attribute.cpp:12-23 | Sorted attributes have ascending keys, character by character |
| DeltaCodec.DeltaRead | src/kernel/canonical_codec.cpp:1030-1225 | Reading the bytes of any delta, whatever follows, gives its operations with sorted attributes, those without an id numbered anew, and leaves what follows |
| DeltaCodec.NumberedSame | src/core/operation.cpp:14-22 | Appending numbers nothing anew if and only if every operation has a valid id |
| DeltaCodec.SameBytes | src/kernel/canonical_codec.cpp:1030-1135 | Two deltas with valid ids have the same bytes if and only if they are the same up to the order of attributes |
| DeltaCodec.OpRead | src/kernel/canonical_codec.cpp:1036-1132 | The body of each of the sixteen kinds is read back |
| DeltaCodec.RefRead | src/kernel/canonical_codec.cpp:149-168 | A reference is read back by its tag |
| ProgramCodec.ProgramRead | src/kernel/canonical_codec.cpp:533-552 | Reading the bytes of any program, whatever follows, gives the program and leaves what follows |
| ProgramCodec.WrittenApart | src/kernel/canonical_codec.cpp:533-540 | No program's bytes are the beginning of another's |
| CodecLayout.DeclaredCodes | src/kernel/canonical_codec.cpp:533-540 | States, roles and opcodes are coded by their place in the declaration |
| CodecLayout.ValueLayout | src/kernel/canonical_codec.cpp:423-450 | A value is a kind byte from 0 to 7 and then its number, most significant byte first, its text or its ids |
| CodecLayout.ObjectLayout | src/kernel/canonical_codec.cpp:716-729 | Where each field of an object stands in its bytes, and how wide it is |
| CodecLayout.PointerLayout | src/kernel/canonical_codec.cpp:736-753 | Where each field of a pointer stands in its bytes, with or without expiry |
| CodecLayout.OperationLayout | src/kernel/canonical_codec.cpp:1036-1132 | An operation is its id, the place of its kind in the declaration, and its body; a link has its two ends, relation, role and weight in that order |
| CodecLayout.BodyLayout | src/kernel/canonical_codec.cpp:1036-1132 | Where the target, pointer or name of every other kind of operation stands, and its new content |
| CodecLayout.SnapshotLayout | src/kernel/canonical_codec.cpp:674-680 | A snapshot starts with its tag, the world, its name and the epoch |
| CodecLayout.InstructionLayout | src/kernel/canonical_codec.cpp:533-540 | An instruction starts with its tag, its opcode and the number of its operands |
| Risk.Canonicalize | src/measure/risk_value.cpp:47-63 | The result has the named coordinates of the input, ascending, each once with its largest value |
| Risk.KeyExact | src/measure/risk_value.cpp:21-26 | Coordinates are ordered by space first and component then, character by character |
| Risk.CanonicalUnique | src/measure/risk_value.cpp:47-63 | Elements with the same coordinates and largest values have one canonical form |
| Risk.CoordinateValue | src/measure/risk_value.cpp:65-75 | The first value at a coordinate, 0 where there is none |
| Risk.LessEqual | src/measure/risk_lattice.cpp:32-39 | The loop answers whether every coordinate is at most the other's |
| Risk.Join | src/measure/risk_lattice.cpp:25-30 | Canonicalizing both, appending and canonicalizing again is canonicalizing the two together |
| Risk.JoinAbove | src/measure/risk_lattice.cpp:25-39 | An element is below its join with another if and only if what it says of unnamed coordinates is zero |
| Risk.UnnamedLost | src/measure/risk_lattice.cpp:25-39 | One unnamed coordinate of value one is not below its own join, which is empty |
| Risk.JoinLeast | src/measure/risk_lattice.cpp:25-39 | The join is below everything both are below |
| Risk.JoinCommutes | src/measure/risk_lattice.cpp:25-30 | Joining in either order gives the same element |
| Risk.JoinAssociates | src/measure/risk_lattice.cpp:25-30 | Joining three in either grouping gives the same element |
| Risk.JoinIdempotent | src/measure/risk_lattice.cpp:25-30 | Joining a canonical element with itself gives it back |
| Risk.Project | src/measure/risk_projection.cpp:179-189 | The saturating sum of calibrated terms is the plain sum, capped |
| Risk.TotalOrderFree | src/measure/risk_projection.cpp:82-84 | The order of the terms does not matter to the sum |
| Risk.CalibratedMonotone | src/measure/risk_projection.cpp:101-133 | Raw, quantile and scaled readings never fall when the value rises |
| Risk.CalibratedReads | src/measure/risk_projection.cpp:101-133 | A raw reading is the value, a quantile reading a thousand for each quantile reached in turn, a robust one nothing up to the median |
| Risk.ContributionExact | src/measure/risk_projection.cpp:35-49 | A term contributes its calibrated value times its fraction, rounded down, up to the largest 64-bit number; a zero denominator gives that number |
| Risk.MulDivMonotone | src/measure/risk_projection.cpp:35-49 | Multiplying and dividing with saturation is monotone |
| Risk.ProjectMonotone | src/measure/risk_projection.cpp:179-189 | A larger element never projects to a smaller score, under any policy, through every saturation |

## Left out

- MutableWorld.World.ApplyDelta: stated for runs of regular operations: no fact assertions, regular interns, named creates and unique attribute keys; `Registry.InternAgrees` and `Listings.AssignAgrees` say exactly what happens otherwise, and a fact assertion looks at a snapshot of another epoch than the overlay's. That it throws half-way leaves the world changed is not modelled further: nothing is stated of a world after an exception.
- Builder.CompileDelta: stated for deltas the overlay accepts whose creates are alive, with well-formed interns and no object references as attribute values, since programs cannot carry the rest; assertions of facts are absent. The builder's other entry points (`create_object`, `ensure_object`, `link` by name) only emit the same instructions.
- Effects.Effect: what was last written to a key is stated for keys an attribute list holds at most once (`Effects.SetOnce` says exactly when setting leaves one value); of keys nothing was written to it is stated for all.
- MorphismEffect.DefinedEffect: the value of a key is stated for keys the object holds at most once, as for `Effects.Effect`.
- Machine.Execute: one diagnostic stands for each refused instruction; diagnostic codes and texts are left out, and the conversion of integers to doubles is a parameter.
- MergeProof.MergeComplete: fact assertions are excluded because whether they hold depends on the epoch at which they are asked.
- CutLoss.AnalyzeCuts: arcs carry distinct non-zero pointer ids, as snapshots give them; adjacency lists may be in any order, and bridges are returned as a set, which the source then sorts. The sorting and deduplication of arcs by `canonicalize` is not repeated, since distinct ids leave nothing to drop.
- RepairSearch.SolveRepair: the verifier is an arbitrary predicate; the seen set holds canonical forms where the source holds hashes of their bytes (`SnapshotNormal.SameBytes` has them agree); the target's attributes are sorted, as in every snapshot the kernel reaches (`Tidiness.ApplyTidies`); operator hashes and the hash of the operator batch are left out, and so is sorting the basis.
- SnapshotCodec.SnapshotRead: the facts written are those the snapshot derives, as the kernel stores them; a snapshot carrying other facts is not modelled, and the number of facts is bounded by its eight-byte field.
- CodecStreams.CanonicalReader.Snapshot: takes the current tag only; a state, role or kind byte outside its enumeration fails where the source casts it, except for the kind of a fact.
- DeltaCodec.DeltaRead: the payload of an event and the id of a fact are written by given functions that are read back; a state or role byte outside the enumeration is a failure here, where the source casts it.
- ProgramCodec.ProgramRead: how an event becomes operands is a parameter, the instruction that asserts a fact is absent, and an opcode outside the list fails where the source casts it.
- Delta and program encodings are modelled as functions only; the writer and reader classes cover the snapshot encoding, whose primitives they share.
- Risk.ProjectMonotone: the logarithmic mode is any monotone function given as a parameter; the projection of four-component vectors is left out.
- Overlay: operation ids and sequence numbers, which no executor reads, appear only in the delta encoding; a snapshot's list of facts is the set its other fields determine.
- Ids, symbols, epochs and counters are unbounded; running out of 32 or 64 bits is not modelled, except where numbers are written as bytes, where saturation is the point, and in numbering decoded operations.
- Doubles are canonical bit patterns that are copied and compared; expression evaluation in morphism actions is a function parameter.
- Hashing is taken as injective: a fact stands for its id, which `ContentAddress.ContentAddressed` justifies wherever the hash function does not collide. SHA-256, Merkle roots, proofs and pages are left out.
- Trace events of morphisms and derivations keep their names only; the events a mutable world returns are left out.
- The type and relation registries share one class; the interner's shortcut for repeated relations is modelled by interning again. Causal-role and relation text normalisation is left out.
- Library sorts are modelled by the sorted arrangement; where a source loop runs over a hash map or set, the order is arbitrary here.
- Composition of null morphisms, the merge without a base snapshot, and parsing of rules, scripts and policies are left out.
- DerivationCap.ReachedByRank: a condition on the rules alone, and `DerivationCap.ReachedByCount` one on the size of a model; both go one way, for `DerivationCap.ReachedByHeight` is the exact condition on a snapshot and its rules.
- The index by type, name and attribute adds lookups of the same kind as the pointer index.
- The laws `bounded_weight` and custom laws depend on floating point or on user code.
- Legacy encodings of deltas and snapshots, commit records, object pages, storage, the command line and the servers are left out.
