# Command Block Assembly IR core in Dafny

This project models the bookkeeping layer of the Command Block Assembly
intermediate representation (`cmd_ir/core.py`). It also models the
activation hooks of the function-trait and event instructions
(`cmd_ir/instructions/func_prop.py`, `cmd_ir/instructions/events.py`).

Every IR object lives in an arena `World`, keyed by an integer handle. This
avoids Python's object-identity aliasing. The kinds of entity are:

- functions (`IRFunction`);
- extern stubs (`ExternFunction`);
- blocks (`BasicBlock` and `SuperBlock`);
- variables, events and compilation units (`TopLevel`);
- plain entities that the core only names.

A `Scope` is a `Level`: an insertion order, a forward map and an inverse
map. The inverse map keeps stale entries, just as the Python dictionary
does. A lookup chain is the innermost level followed by its parent.
Instructions form a tagged datatype `Insn`. For each kind the model keeps
only the flags the core reads (`preamble_safe`, `inline_copyable`, is a
terminator) and its operand handles.

Every failing `assert` of the core becomes an `Err` carrying a `Failure`
tag. On that path the model returns no world at all. The source, by
contrast, keeps whatever it mutated before the failing `assert` (see
"Left out").
Operations are pure functions from one world to the next. Loops that the
core runs as loops are methods with loop invariants: `uniq_name`,
`transform`, `transform_scope`, `run_pragmas`, pass 1 of the linker and the
linker itself.

Modules, in dependency order:

- `Common`: results and failure tags.
- `Decimal`: the `%d` spelling.
- `Scopes`: `Scope` and `VariableHolder`.
- `TempVars`: `TemporaryVarGen`.
- `Insns`: the instruction datatype, `apply_mapping`, `transform` and the inline copy filter.
- `Blocks`: `BasicBlock` and `SuperBlock`.
- `Ir`: the arena, well-formedness and entity allocation.
- `Functions`: the `IRFunction` lifecycle, `expect_signature` and `validate_args`.
- `Frames`: `add_entry_exit`, `configure_parameters` and `variables_finalized`.
- `Activation`: `InstructionSeq.add` and `define`, plus the func_prop.py and events.py hooks.
- `Units`: `TopLevel`, except the linker and pragmas.
- `Linker` and `Gather`: pass 2 and pass 1 of `TopLevel.linker`.
- `Linking`: the linker as a whole.
- `Pragmas`: `run_pragmas`.
- `ObjectFormat`: the version gate of the object format.

## Model

| member | source | states |
|---|---|---|
| Scopes.Get | cmd_ir/core.py:179-189 | A name is found exactly when some level of the chain binds it. The result is the innermost binding. A miss fails with `NameNotFound`. |
| Scopes.GetNoParent | cmd_ir/core.py:198-204 | Only the innermost level is consulted; outer bindings are invisible. |
| Scopes.ForValue | cmd_ir/core.py:206-211 | The name the first level that ever named the value recorded for it. Outer levels are consulted only with `look_parent`; an unnamed value fails. |
| Scopes.Set | cmd_ir/core.py:175-177 | The write updates both directions of the map. The name joins the order once, at the end. Other entries, stale inverse ones included, are kept. |
| Scopes.SetLocal | cmd_ir/core.py:175-177 | Writes go to the innermost level only. Afterwards the name reads back as the value and the value's name is the name. Every other name reads as before, and outer levels are untouched. |
| Scopes.GetOrCreate | cmd_ir/core.py:191-196 | An existing binding anywhere in the chain wins and nothing changes. Otherwise the created entity is bound locally. |
| Scopes.FreshName | cmd_ir/core.py:215-221 | Reference for `uniq_name`. The result is bound in no level. It is the hint itself when that is free, else the hint followed by a counter all of whose smaller values are taken. |
| Scopes.UniqName | cmd_ir/core.py:215-221 | The probing loop computes exactly the reference name, which no level binds. |
| Scopes.FreeIndexFrom | cmd_ir/core.py:215-221 | The counter the probe stops at is free, and every smaller one is taken. |
| Scopes.LeastFreeUnique | cmd_ir/core.py:215-221 | At most one counter is free with all smaller ones taken, so the fresh name is determined. |
| Scopes.SuffixesBound | cmd_ir/core.py:215-221 | If the first n suffixed names are all taken, there are at least n names, so the probe terminates. |
| Scopes.Uniq | cmd_ir/core.py:223-226 | The value is bound in the innermost level under exactly the reference fresh name: the hint when free, else the hint with the least free counter. Every other name keeps its binding and the outer levels are untouched. |
| Scopes.Store | cmd_ir/core.py:231-234 | Store is refused, with `DuplicateDefinition`, exactly when the innermost level binds the name; an outer binding is shadowed. Otherwise it is a local write. |
| Scopes.StoreThenLookup | cmd_ir/core.py:175-189 | After a store to an unbound local name, lookup returns the value and `for_value` returns the name. Outer levels are unchanged. |
| Scopes.Without | cmd_ir/core.py:257 | `del scope[name]` removes exactly that name from the order and keeps the rest distinct. |
| Scopes.Delete | cmd_ir/core.py:257 | The name leaves the forward map; the inverse table is not touched. |
| Scopes.WithoutHead | cmd_ir/core.py:257 | Deleting a name between a prefix and a suffix joins the two unchanged. |
| Scopes.Kept | cmd_ir/core.py:247-259 | The names the callback keeps are exactly those it answered with a value. |
| Scopes.TransformScope | cmd_ir/core.py:247-259 | The result is reported changed exactly when some answer differs from its entry. For any callback, renaming or not, each name is left as the last entry that wrote or deleted it left it: bound to that answer's value, or gone if that entry was its own and answered `None`. A name no entry wrote or deleted keeps its old binding, so a renamed entry's old key stays bound. With a callback that never renames: the kept names stay in their original order, exactly the answered names remain, and each carries its answered value. |
| Scopes.ReplayKeeps | cmd_ir/core.py:247-259 | After any prefix of the snapshot, a name none of its entries wrote or deleted keeps its binding. |
| Scopes.ReplayLast | cmd_ir/core.py:247-259 | After any prefix of the snapshot, a name holds what the last entry writing or deleting it left: that answer's value, or no binding. |
| Scopes.ReplayBindings | cmd_ir/core.py:247-259 | Over the whole snapshot: untouched names keep their bindings, and every other name holds what its last writer or deleter left. |
| Scopes.ReplayOrder | cmd_ir/core.py:247-259 | Partway through, the order is the kept processed names followed by the untouched rest. |
| Scopes.ReplayDomain | cmd_ir/core.py:247-259 | Partway through, exactly the untouched names and the kept processed names are bound. |
| Scopes.ReplayValues | cmd_ir/core.py:247-259 | Untouched names keep their values, and kept names carry the callback's value. |
| Scopes.ReplayOutcome | cmd_ir/core.py:247-259 | The full replay is well formed. It reports a change exactly when one happened and keeps the order and values above. |
| Scopes.ReplayComplete | cmd_ir/core.py:247-259 | The full replay leaves the kept names in order, bound to the callback's values. |
| TempVars.Next | cmd_ir/core.py:76-84 | The most recently freed name is reused when there is one. Otherwise `temp_<counter>` is minted and the counter increases. Either way the name becomes checked out and was not checked out before. |
| TempVars.Free | cmd_ir/core.py:86-89 | Only a checked-out name can be freed; it goes to the end of the free list, and the counter and the minted objectives are unchanged. |
| TempVars.Finish | cmd_ir/core.py:91-92 | Finish passes exactly when nothing is checked out, which is when the free list holds every name ever minted. |
| TempVars.NextFreeRestores | cmd_ir/core.py:76-89 | When the free list is not empty, checking a name out and freeing it again restores the pool exactly. |
| TempVars.NoDoubleCheckout | cmd_ir/core.py:76-84 | Two checkouts in a row never hand out the same name. |
| TempVars.InitialInv | cmd_ir/core.py:70-74 | The empty pool satisfies the allocator invariant: free and checked-out names are disjoint, together they are every minted name, and the writer was told of each minted name in order. |
| Decimal.Show | cmd_ir/core.py:219-221 | The `%d` spelling of a counter is a non-empty digit string. |
| Decimal.ParseShow | cmd_ir/core.py:219-221 | Reading the spelling back gives the number. |
| Decimal.ShowInjective | cmd_ir/core.py:219-221 | Different counters are spelt differently. |
| Decimal.SuffixInjective | cmd_ir/core.py:219-221 | With a fixed hint, different counters give different candidate names. |
| Insns.MapInsn | cmd_ir/core.py:123-128 | The operands of the rewritten instruction are its operands, each mapped when it is of the queried kind and in the mapping. |
| Insns.ApplyMapping | cmd_ir/core.py:123-128 | The sequence keeps its length, and each instruction is rewritten in place. |
| Insns.MapInsnKeepsKind | cmd_ir/core.py:123-128 | Remapping changes arguments only. Preamble safety, inline copyability, terminator status and the name hint are kept. |
| Insns.MappingClearsDomain | cmd_ir/core.py:123-128 | When no target of the mapping is itself mapped, no mapped entity of the queried kind is referenced afterwards. |
| Insns.MappingIdentity | cmd_ir/core.py:123-128 | A mapping that touches none of the queried entities changes nothing. |
| Insns.Transform | cmd_ir/core.py:130-143 | The new list is the in-order concatenation of the answers: a `None` answer (`Drop`) drops the instruction, and a list expands in place. It reports a change exactly when some answer differs from its instruction. |
| Insns.RewriteAppend | cmd_ir/core.py:130-143 | A transform distributes over concatenation. |
| Insns.RewriteIdentity | cmd_ir/core.py:130-143 | The identity callback leaves the list as it was. |
| Insns.InlineCopy | cmd_ir/core.py:684-697 | Inlining copies only inline-copyable instructions. |
| Insns.InlineDropsTraitMarkers | cmd_ir/instructions/func_prop.py:13 | None of the four trait markers survives inlining, because none is inline-copyable. |
| Insns.InlineCopyAppend | cmd_ir/core.py:684-697 | The copy distributes over concatenation. |
| Insns.InlineCopyAllCopyable | cmd_ir/core.py:684-697 | With every instruction copyable, the copy is exactly the substituted sequence: nothing else is lost. |
| Blocks.NewBlock | cmd_ir/core.py:825-833 | A new block carries the given name and function, and is undefined, empty and unused. It is not forced, not marked as a function and not a super-block. |
| Blocks.NewSuperBlock | cmd_ir/core.py:892-897 | A new super-block is defined, empty and pinned at two uses. |
| Blocks.Validate | cmd_ir/core.py:865-872 | A sealed block (terminated and not forced) refuses with `BlockTerminated`. Otherwise a `Return` is stored as a `Branch` to the exit block, and any other instruction as itself. |
| Blocks.Append | cmd_ir/core.py:103-115 | A block accepts exactly when it is not sealed, and then grows by the validated instruction. |
| Blocks.AppendAll | cmd_ir/core.py:103-115 | Appending a run adds the stored form of each instruction in order. |
| Blocks.AppendAllAccepts | cmd_ir/core.py:865-872 | A run goes in exactly when it is empty, or when the block is open and forced, or when no instruction but the last is a terminator. |
| Blocks.IsTerminated | cmd_ir/core.py:857-863 | An undefined block is an error. Otherwise a block is terminated when it is marked as a function or ends with a terminator. |
| Blocks.End | cmd_ir/core.py:854-855 | Ending a block passes exactly when it was defined. |
| Blocks.Usage | cmd_ir/core.py:835-836 | A use counts for an ordinary block or a cleared super-block. A pinned super-block ignores it. |
| Blocks.Reset | cmd_ir/core.py:838-839 | A reset zeroes the count, except on a pinned super-block. |
| Blocks.Superclear | cmd_ir/core.py:915-916 | Clearing hands the super-block to ordinary tracking; no other field of the block changes. |
| Blocks.IsEmpty | cmd_ir/core.py:918-919 | A block is empty exactly when it has no instructions and is not a pinned super-block: a pinned super-block is never empty, an empty block has no instructions, and a plain or cleared block without instructions is empty. |
| Blocks.SetIsFunction | cmd_ir/core.py:844-845 | A block marked as a function counts as terminated whenever it is defined; no other field of the block changes. |
| Blocks.NoAppendAfterTerminator | cmd_ir/core.py:865-872 | After a terminator, an unforced block refuses every further instruction. |
| Blocks.ForcedAcceptsAll | cmd_ir/core.py:865-872 | A forced block accepts anything. |
| Blocks.ReturnBranchesToExit | cmd_ir/core.py:865-872 | A `Return` terminates the block with a branch to the exit. |
| Blocks.PinnedUntilCleared | cmd_ir/core.py:904-913 | However often it is used or reset, a super-block reports two uses until it is cleared. |
| Blocks.UsedTimes | cmd_ir/core.py:904-913 | `n` uses add `n` to an ordinary or cleared block's count and leave a pinned super-block as it was. |
| Blocks.ClearedCounts | cmd_ir/core.py:904-913 | Once cleared, every use counts. |
| Ir.Chain | cmd_ir/core.py:168-173 | A unit reads its own level. A function reads its own level, then its unit's. |
| Ir.SetIn | cmd_ir/core.py:175-177 | A holder's write is a local write on its chain, and no other entity changes. |
| Ir.StoreIn | cmd_ir/core.py:231-234 | A holder's store fails exactly when the scope store fails, and changes only the holder. |
| Ir.UniqIn | cmd_ir/core.py:223-226 | A holder binds under the reference fresh name for its chain. |
| Ir.UserBlocks | cmd_ir/core.py:623-626 | A handle is a user block exactly when it is a block among the function's scope values other than its entry and exit. The user blocks keep the scope's insertion order. |
| Ir.NewUnit | cmd_ir/core.py:278-285 | A new unit is unfinished, with no preamble or pragmas. It binds exactly `pos_util` and `_global_entity`, neither a function. Every existing entity is kept. |
| Ir.NewFunction | cmd_ir/core.py:534-551 | A new function is unfinished, not finalized and has no traits, parameters or queued checks beyond those given. Its entry and exit are distinct, empty super-blocks pinned at two uses, and its scope binds exactly those two, entry first. Its use count is zero and it has no user blocks. |
| Functions.NewFunctionUndefined | cmd_ir/core.py:604-608 | A freshly declared function is not defined and has not been used. |
| Ir.SuperBlockNamesDistinct | cmd_ir/core.py:541-543 | The `0entry` and `0ret` names picked for a new function differ, so its level holds exactly the two super-blocks, entry first. |
| Ir.NewFunctionFrame | cmd_ir/core.py:534-551 | Declaring a function leaves every existing entity as it was. |
| Ir.OnlySuperBlocks | cmd_ir/core.py:623-626 | A function whose scope holds only its entry and exit has no user blocks. |
| Ir.Install | cmd_ir/core.py:534-551 | A function and its two super-blocks go under the next three handles, the entry marked `is_entry`. |
| Functions.AllBlocks | cmd_ir/core.py:628-630 | A handle is among `allblocks` exactly when it is a block among the function's scope values. They keep the scope's insertion order: the list is a subsequence of the scope's values. |
| Functions.CreateBlock | cmd_ir/core.py:638-641 | The new block is defined and empty, and is bound under the fresh name for the hint. |
| Functions.CreateBlockDefines | cmd_ir/core.py:604-608 | A created block is a user block, so the function is defined from then on, until it is finalized. |
| Functions.Usage | cmd_ir/core.py:556-569 | An extern's use is a no-op. A function's use needs a first block, and before finalization a first user block, to count on. It raises the function's count by one and applies the block `usage` to its first block. Before finalization it also applies it to its first user block, twice over when that is the first block. Every other entity is unchanged. |
| Functions.UsageCountsEntry | cmd_ir/core.py:566-569 | After finalization, with the entry block handed over, a use is one more use of the entry block and leaves the user blocks as they were. |
| Functions.UsageCountsFirstBlock | cmd_ir/core.py:566-569 | Before finalization a use counts on the first user block, and the pinned entry still reports two uses. |
| Functions.ExpectSignature | cmd_ir/core.py:647-653 | Between two finished functions, the check passes exactly when parameters and returns agree, and changes nothing. An unfinished function queues the other, which must be finished. A stub defers to an unfinished function by queueing itself on it. |
| Functions.DeferredCheckRuns | cmd_ir/core.py:647-662 | A check queued on an unfinished function is not lost: its later `end` succeeds only if the signatures agree. |
| Functions.CheckPending | cmd_ir/core.py:661-662 | The queued checks pass exactly when every queued function is finished and has the same signature. |
| Functions.EndBlocks | cmd_ir/core.py:658-659 | Ending the user blocks passes exactly when all are defined. |
| Functions.End | cmd_ir/core.py:655-662 | `end` succeeds exactly when the function is defined, not yet finished, every user block is defined and every queued check agrees. Then only the finished flag changes. |
| Functions.CheckArgsSound | cmd_ir/core.py:443-451 | The per-argument checks pass exactly when each argument fits its parameter type. An int literal fits only i32, a float literal only q10, and a variable must have the parameter's type. |
| Functions.CheckRetsSound | cmd_ir/core.py:455-460 | The per-destination checks pass exactly when each destination is nowhere or a variable of the return type. |
| Functions.ValidateArgs | cmd_ir/core.py:438-463 | An unfinished callee is refused before anything else. A passing call gives arguments exactly when there are parameters and return destinations exactly when there are returns, each list as long as its declaration. |
| Functions.ValidateArgsExact | cmd_ir/core.py:438-463 | `validate_args` passes exactly when the declarative call shape holds. The callee is finished. Arguments are absent exactly when there are no parameters, with the count matching otherwise; the same holds for return destinations. |
| Functions.EmptyArgsRefused | cmd_ir/core.py:449-450 | A parameterless callee refuses even an empty argument list. |
| Frames.CheckFrame | cmd_ir/core.py:793-799 | An empty frame passes. The tip check fails exactly when no variable sits at offset 0. The base check fails exactly when offset 0 is present but N-1 is missing or some offset lies at N or beyond. A passing frame lies within 0..N-1. |
| Frames.CheckFrameExact | cmd_ir/core.py:793-799 | The three offset checks pass exactly when the offsets are 0..N-1, each once. These are: the least is 0, the greatest is N-1, and no two coincide after sorting. |
| Frames.DenseCovers | cmd_ir/core.py:793-799 | Dense offsets cover every slot below N. |
| Frames.DenseDistinct | cmd_ir/core.py:793-799 | Dense offsets never repeat. |
| Frames.FramePushOrder | cmd_ir/core.py:800-801 | In the pushed type tuple, each frame-resident local's type sits at its offset counted from the base: the sorted types, reversed. |
| Frames.AddEntryExit | cmd_ir/core.py:787-807 | On success the offsets were dense and there was a user block. The entry gains the frame push (only when there are locals) and a branch to the first user block. The exit gains the pop and the post-exit instructions. Nothing else changes. |
| Frames.AddEntryExitChecks | cmd_ir/core.py:787-807 | Non-dense offsets fail with one of the three stack errors, and a function without user blocks fails. |
| Frames.AddEntryExitAccepts | cmd_ir/core.py:787-807 | With dense offsets, a user block, open super-blocks and no early terminator among the post-exit instructions, the layout succeeds. |
| Frames.LayoutAccepts | cmd_ir/core.py:800-807 | The layout of the two super-blocks succeeds whenever there is a first block to branch to and the blocks are open. |
| Frames.ConfigureParameters | cmd_ir/core.py:753-770 | Every parameter and return variable is redirected to its slot, and nothing else changes. |
| Frames.ConfigureParametersSlots | cmd_ir/core.py:753-770 | Parameters get slots 0..P-1 in scope order and return variables P..P+R-1. The slots are shifted by one frame exactly when the function pushed its own. |
| Frames.SlotsLayout | cmd_ir/core.py:757-767 | Two disjoint lists of distinct variables laid out one after the other get consecutive slots. |
| Frames.IsClosed | cmd_ir/core.py:681-682 | A function is closed exactly when every user block is terminated. |
| Frames.FoldExit | cmd_ir/core.py:778-781 | The entry becomes forced and takes over the exit's instructions, in order, and the exit is emptied. |
| Frames.HandOver | cmd_ir/core.py:782-785 | Both super-blocks are cleared and the function is marked finalized. |
| Frames.Conclude | cmd_ir/core.py:778-785 | The tail of finalization folds the exit into the entry exactly when closed, then hands over. |
| Frames.VariablesFinalized | cmd_ir/core.py:772-785 | An undefined function fails, and so does a second finalization. Success leaves the function record finalized, with both super-blocks cleared. |
| Frames.VariablesFinalizedSteps | cmd_ir/core.py:772-785 | A successful finalization is the layout, then the parameter configuration, then the fold decided by closedness. |
| Frames.VariablesFinalizedKeepsUserBlocks | cmd_ir/core.py:772-785 | Finalization leaves every user block as it was. |
| Frames.VariablesFinalizedFolds | cmd_ir/core.py:778-785 | The exit is folded into the laid-out entry exactly when every original user block was terminated; otherwise both super-blocks keep their laid-out code. |
| Activation.ValidateIn | cmd_ir/core.py:100-153 | A preamble accepts exactly the preamble-safe instructions, unchanged. A block defers to its own validation: it refuses when sealed and stores `Return` as a branch to the exit. |
| Activation.Activate | cmd_ir/core.py:105 | A trait marker fails exactly when the holder is a unit. Only `CreateEvent` yields a value. Any instruction that is not a trait marker, an event handler or `CreateEvent` changes nothing. |
| Activation.SetTrait | cmd_ir/instructions/func_prop.py:16-58 | A trait marker needs a function holder and yields no value. |
| Activation.TraitMarkersSetTraits | cmd_ir/instructions/func_prop.py:16-58 | `ExternInsn`, `PureInsn` and `InlineInsn` each set one flag of the holder. `RunCallbackOnExit` appends exactly one `RunDeferredCallback` to its post-exit list. Nothing else in the world changes. |
| Activation.AddRevoke | cmd_ir/core.py:809-811 | A revoke of the handler's own advancement is appended to its entry block. This fails only when that block is sealed. |
| Activation.EventHandlerRevokes | cmd_ir/instructions/events.py:52-54 | Activation adds the revoke exactly when the event is neither `minecraft:tick` nor `minecraft:load`, and otherwise changes nothing. |
| Activation.CreateEventNames | cmd_ir/instructions/events.py:22-23 | A new event entity carrying the given name, and nothing else. |
| Activation.Add | cmd_ir/core.py:103-115 | `add` validates, then activates, then appends the validated instruction. It yields a value exactly when asked to bind. It fails on a preamble-unsafe instruction or a sealed block. |
| Activation.BindResult | cmd_ir/core.py:109-115 | Binding stores the activation's value in the holder's own level. It fails with `DuplicateDefinition` exactly when that level already has the name, and `NothingToBind` when there is no value. |
| Activation.AddBinds | cmd_ir/core.py:103-115 | After a binding add, the chosen name reads back as the value and the value's name is that name. A fresh-name binding always succeeds. |
| Activation.AddKeepsPreambleSafe | cmd_ir/core.py:151-153 | A preamble holds only preamble-safe instructions, whatever is added. |
| Activation.AddToBlock | cmd_ir/core.py:865-872 | Adding to an open block appends the stored form, with `Return` becoming a branch to the exit. |
| Activation.Define | cmd_ir/core.py:117-118 | A successful `define` yields a value, and among the modelled instructions only `CreateEvent` has one. |
| Activation.ActivateFrame | cmd_ir/core.py:103-115 | Activation writes no scope and no preamble; only an event handler's revoke touches a block. |
| Activation.Declare | cmd_ir/instructions/events.py:56-88 | Declaring an event handler or setup instruction adds one use to a target function, and nothing to a stub. Other instructions declare nothing. |
| Activation.DeclareAccepts | cmd_ir/instructions/events.py:56-88 | A declaration succeeds exactly when the function has a block to count the use on. |
| Activation.ApplyEvent | cmd_ir/instructions/events.py:59-91 | Applying is refused, with `InlineHandler`, exactly when the target is inline. Otherwise it is a single writer call naming the handler and event, or the setup function. |
| Activation.ApplyEventInline | cmd_ir/instructions/events.py:59-91 | Once a function's preamble marks it inline, applying a handler or setup for it is refused. |
| Units.FirstUnfinished | cmd_ir/core.py:326-328 | The first name in scope order bound to an unfinished visible function, or none when there is no such name. |
| Units.EndUnit | cmd_ir/core.py:324-329 | A unit ends once, and only when every visible function in its scope is finished. Otherwise the failure names an unfinished one. Success changes only the flag. |
| Units.LookupFunc | cmd_ir/core.py:313-317 | An unbound name gives nothing. A bound name must be a visible function, else `NotAVisibleFunction`. |
| Units.GetOrCreateFunc | cmd_ir/core.py:287-288 | The unit's binding for the name wins. Otherwise a new function of that name is bound locally. |
| Units.CreateFunction | cmd_ir/core.py:290-294 | A new function under the fresh name for the hint, bound in the unit. |
| Units.MapBlocks | cmd_ir/core.py:302-305 | Every listed block is rewritten through the mapping, and no non-block entity changes. |
| Units.MapBlocksClears | cmd_ir/core.py:302-305 | When the mapping's targets are outside its domain, no rewritten block refers to the domain. |
| Units.ReplaceStub | cmd_ir/core.py:298-306 | The stub is replaced by a new function of the name that has queued a signature check against it. Every block of the unit's functions is rewritten from the stub to the new function. |
| Units.DefineFunction | cmd_ir/core.py:296-307 | A name bound to a stub is replaced. Any other name is got or created. Either way the name reads back as the result. |
| Units.ReplaceStubClears | cmd_ir/core.py:296-307 | After replacement, the name is bound to the new function and no block of the unit refers to the stub. |
| Units.ReplaceStubChecks | cmd_ir/core.py:298-300 | The replacement is unfinished. Once it ends, it has the stub's signature. |
| Units.EndChecksStub | cmd_ir/core.py:655-662 | A function whose only queued check is a stub ends only with that stub's signature. |
| Units.FirstExported | cmd_ir/core.py:320-321 | The first entry taken by `include_from`, from a position on: a visible function not named with a leading `__`. |
| Units.IncludeFromAsWritten | cmd_ir/core.py:319-322 | As written, `include_from` succeeds exactly when there is nothing to take. |
| Units.IncludeAsWrittenFails | cmd_ir/core.py:322 | As written, whenever the corrected version would take an entry, `include_from` fails with `NotIterable`. |
| Units.BindStub | cmd_ir/core.py:322 | A new stub is bound under the name in the unit's own level, and nothing else changes. |
| Units.IncludeEntries | cmd_ir/core.py:319-322 | The remaining entries go in exactly when every taken entry can be referenced. Names not taken keep their bindings. |
| Units.IncludeFrom | cmd_ir/core.py:319-322 | Corrected `include_from` succeeds exactly when every taken function can be named. Each taken name is then bound to a stub with the function's global name and signature, and every other name is as before. |
| Units.IncludeBinds | cmd_ir/core.py:319-322 | Every taken name ends up bound to the stub of its function. |
| Linker.ExpectAll | cmd_ir/core.py:395-397 | Each stub of a name is checked against the replacement. Against a finished replacement this passes exactly when every stub has its signature, and changes nothing. |
| Linker.ExpectAllQueues | cmd_ir/core.py:395-397 | Against an unfinished function every stub is queued in order and nothing else changes. |
| Linker.BindUnresolved | cmd_ir/core.py:400-402 | An unresolved name is bound to its first stub, and a resolved one is left as it is. |
| Linker.ResolveOne | cmd_ir/core.py:391-402 | One name resolves exactly when it is resolvable. The merged unit then binds it to its resolution, and every other stub of the name is mapped to that resolution. |
| Linker.ResolveNames | cmd_ir/core.py:391-402 | Pass 2 fails only with `NotAVisibleFunction` or `SignatureMismatch`. It changes only the merged unit's scope, keeping every signature. |
| Linker.ResolvableGetsThrough | cmd_ir/core.py:391-402 | Pass 2 gets through when every name is resolvable. |
| Linker.GetsThroughResolvable | cmd_ir/core.py:391-402 | Conversely, when pass 2 gets through, every name was resolvable. |
| Linker.ResolveNamesBinds | cmd_ir/core.py:393-402 | After pass 2 every grouped name is bound to what it resolves to. |
| Linker.ResolveNamesKeeps | cmd_ir/core.py:393-402 | After pass 2 every other name is bound as before. |
| Linker.ResolveNamesMapping | cmd_ir/core.py:390-399 | The mapping pass 2 builds is the reference mapping over the resolutions. |
| Linker.Targets | cmd_ir/core.py:392-394 | Each grouped name resolves to what the merged unit binds under it, else to its first stub. |
| Linker.Displace | cmd_ir/core.py:395-399 | Every stub of a name other than the replacement is mapped to the replacement. |
| Linker.MappingMaps | cmd_ir/core.py:390-399 | With no stub under two names, every stub other than its name's resolution is mapped to that resolution. |
| Linker.MappingOnly | cmd_ir/core.py:390-399 | The mapping adds or changes entries only for such stubs. |
| Linker.MappingSettles | cmd_ir/core.py:403-406 | No mapped stub is mapped to a stub that is itself mapped, so one rewrite of the blocks leaves no mapped stub behind. |
| Gather.GatherFunc | cmd_ir/core.py:382-387 | A function is stored under its name, refused with `DuplicateDefinition` exactly when the merged unit has the name. Its blocks join the gathered ones. |
| Gather.GatherScope | cmd_ir/core.py:378-389 | A unit's scope is gathered in order, failing only on a duplicate function name. |
| Gather.GatherOther | cmd_ir/core.py:388-389 | An entry that is not a visible function is bound in the merged unit under `generate_name`'s choice: its own name when the merged unit lacks it, else the name followed by the least free counter. That name was unbound before, so no earlier binding is lost, and nothing else in the merged unit's scope changes. |
| Gather.GatherScopeBinds | cmd_ir/core.py:382-384 | Pass 1 over a scope binds each of its functions under its name. |
| Gather.GatherScopeOthers | cmd_ir/core.py:378-389 | Pass 1 over a scope binds each entry that is not a visible function in the merged unit under some name. |
| Gather.GatherScopeStubs | cmd_ir/core.py:380-381 | Each stub is grouped under its name. |
| Gather.GatherTop | cmd_ir/core.py:374-389 | An unfinished unit fails with `NotFinished`. Otherwise its preamble and pragmas are appended before its scope is gathered. |
| Gather.GatherTopBinds | cmd_ir/core.py:378-387 | Pass 1 for a unit binds each of its functions under its name. |
| Gather.GatherTopOthers | cmd_ir/core.py:374-389 | Pass 1 for a unit binds each of its entries that is not a visible function in the merged unit under some name. |
| Gather.GatherTopStubs | cmd_ir/core.py:380-381 | Pass 1 for a unit groups each of its stubs under its name. |
| Gather.GatherTopOnly | cmd_ir/core.py:380-381 | Pass 1 for a unit groups no other stub. |
| Gather.GatherTopBlocks | cmd_ir/core.py:387 | Pass 1 for a unit gathers its functions' user blocks and rewrites nothing. |
| Gather.GatherTopRejects | cmd_ir/core.py:384 | A unit whose function name is already bound in the merged unit is refused. |
| Gather.FreshNames | cmd_ir/core.py:384 | When pass 1 gets through a unit, none of its function names were taken. |
| Gather.GatherUnits | cmd_ir/core.py:374-389 | Pass 1 fails only on an unfinished unit or a duplicate name. On success: the preambles and pragmas are appended in unit order, every function is under its name, every other non-visible entry is bound under some name, the stubs are grouped by exactly the names the units bind them under, no two units share a function name, and every user block is gathered. |
| Linking.Link | cmd_ir/core.py:365-408 | No units fails. One unit is returned as it is. Several units give a new finished unit that binds every function under its name, binds every other entry of the units (globals, events, `pos_util`, `_global_entity`) under a generated name, and resolves every stub to a visible function of that name (with its signature once finished). Every user block is rewritten through the mapping, which, when no stub has two names, sends each stub exactly to its name's binding. |
| Linking.LinkGathered | cmd_ir/core.py:390-407 | After pass 1, pass 2, the block rewrite and `out.end()` either fail with a lookup, signature or unfinished-function error, or produce the linked unit described above, which still binds every entry pass 1 bound under a generated name. |
| Linking.PassOne | cmd_ir/core.py:374-389 | Pass 1, once through, leaves the facts pass 2 needs. The merged unit is unfinished, binds the units' functions under their names and no other visible function, and binds every other entry of the units under a generated name. The stubs are grouped by name. The blocks are gathered unchanged. |
| Linking.PassTwoLinks | cmd_ir/core.py:390-407 | Pass 2 after pass 1 binds all functions, keeps every entry pass 1 bound under a generated name, resolves all stubs, rewrites all gathered blocks and, with unique stub names, relinks exactly the stubs. |
| Pragmas.ValuesOf | cmd_ir/core.py:412-417 | A key has values exactly when some pragma gives it one. |
| Pragmas.KeysOf | cmd_ir/core.py:412-419 | Every key given, once each, in first-seen order. |
| Pragmas.RunPragmas | cmd_ir/core.py:410-421 | An unknown key fails, naming the first unknown one. Otherwise there is one result per distinct key, in first-seen order. Each result is `apply` of the left fold of that key's values with `reduce`. |
| Pragmas.ValuesOfAppend | cmd_ir/core.py:377 | In a linked unit, a key's values are the first unit's values followed by the second's. |
| Pragmas.KeysOfAppend | cmd_ir/core.py:377 | In a linked unit, the first unit's keys come first, in their order. |
| ObjectFormat.Load | cmd_ir/core.py:934-939 | Loading succeeds exactly when the version matches, and gives back the `ObjectFormat` object itself, of the current version and wrapping the saved unit. Otherwise it fails with `VersionMismatch`. |
| ObjectFormat.Save | cmd_ir/core.py:927-946 | What is saved carries version `1.0.0` and loads back as an object wrapping the same unit. |

## Left out

- `FuncWriter`, `CmdWriter`, every `writeout` and `TopLevel.writeout` (cmd_ir/core.py:11-66, 331-354): backend output. Writer calls appear only as the `WriterCall` value of `ApplyEvent`.
- `serialize` and `__str__` are left out: cosmetic text formatting.
- The pickle and zlib layers of `ObjectFormat` are foreign libraries. Only the version gate is modelled.
- `IRFunction.inline_into` (cmd_ir/core.py:699-751) depends on `copy_with_changes`, `ConstructorInsn` and the variable proxies. Those are outside this model, so only the filter of `_inline_seq` (`InlineCopy`) is modelled.
- `RevokeEventAdvancement.get_cmd` and `AddEventCondition.apply` build Minecraft commands through the `commands` module, which is not part of this model.
- The variable proxy classes, `set_proxy` and `realign_frame` are outside this model. A variable's proxy is modelled as an abstract `Slot(offset, shift)`.
- `query`, `terminator()` and the instruction classes are outside this model. The model keeps only each instruction's flags and operand handles.
- Float literal arguments are a type tag (`q10`) only; no numeric reasoning is done.
- `create_global`, `create_var`, `add_parameter`, `add_return`, `get_or_create_block`, `reset_var_usage`, `get_registers` and `is_empty` of a function are plain list or scope edits built from the modelled `add`, `get_or_create` and `usage`. They have no separate member.
- `Linking.Link`: a super-block's contents are not remapped by the linker. Only user blocks are gathered, just as `var.blocks` excludes entry and exit.
- `Linking.Link`: the error conditions are stated one way only. Each failure is one of the listed kinds, and `NotFinished` names an unfinished unit. The converse, that every input meeting a condition fails, is proved per pass (`Gather.GatherTopRejects`, `Linker.GetsThroughResolvable`) but not restated at the top.
- `Linking.Link`: the exact relinking (`Relinks`) is promised only when no stub is bound under two names. Otherwise only the weaker binding facts are stated.
- `Linking.Link`: for the entries bound through `generate_name`, the top-level contract says only that each one is bound under some name. Which name was picked is stated per entry by `Gather.GatherOther`.
- `Linking.Link`: the re-parenting of function scopes onto the merged unit is performed but not stated in the contract.
- `Linking.Link`: the units are read as they stood before linking (`UnitsOf`). In the source they are the same mutable objects, which the linker then mutates.
- `Linking.Link`: a stub is promised its resolution's signature only once the resolution is finished. An unfinished one has the check queued, per `Functions.DeferredCheckRuns`.
- `Pragmas.RunPragmas`: `reduce` and `apply` are parameters. `apply` closes over the unit it runs on rather than receiving it, and the pragma's own state is not modelled.
- Partial mutation before a failing `assert` is not modelled. A failure yields `Err` and no world, whereas the Python objects keep the changes made before the `assert` fires. For example, `usage` has already counted the function's use (cmd_ir/core.py:557) when `allblocks[0]` raises. `end` has already set `_finished` (cmd_ir/core.py:660) when a deferred signature check fails. The linker has already stored and re-parented earlier units' functions (cmd_ir/core.py:384-387) when a later duplicate name is refused. The model discards that partial state.
- `Scopes.TransformScope`: for a callback that renames, the order of the resulting level is not stated. Only the bindings are.
- `TempVars.Next`: the writer's objective registration for a minted name is modelled as appending the name to a list.
- `Activation.Define`: only `CreateEvent` yields a value among the modelled instructions, so `define` succeeds only for it.
- `Frames.VariablesFinalized`: the contract states the frame and the flags. The exact contents of the super-blocks are stated by `Frames.VariablesFinalizedFolds`.

## Findings

| source | as written | input that shows it | evidently intended | confidence | as-written member | corrected member |
|---|---|---|---|---|---|---|
| cmd_ir/core.py:322 | `ExternFunction(var.global_name, self)` passes the including unit as the stub's `params`. The constructor then takes `list(params)` of a `TopLevel`, which is not iterable. | Any other unit whose scope binds a visible function under a name without a leading `__`. | Build the stub with the function's own signature: `ExternFunction(var.global_name, var.params, var.returns)`. | not executed | Units.IncludeFromAsWritten, Units.IncludeAsWrittenFails | Units.IncludeFrom, Units.IncludeBinds |

Two details of the code that the model follows as written:

- `include_from` skips only names that start with two underscores (cmd_ir/core.py:320).
- `add_entry_exit` appends the frame push to the entry block, after whatever the entry block already holds (cmd_ir/core.py:800-801).
