# Verified models of seven LLVM algorithms

Seven self-contained algorithms of the LLVM repository, modelled in Dafny with their state, and
proved to do what they are for, on all inputs:

1. **The BrainF compiler** (`BrainF*.dfy`): a one-pass compiler from an eight-command language to
   an SSA control-flow graph. The command table is a machine that executes one character per step,
   the fused symbols are a second machine, the graph a third. Each is shown to simulate the one
   before it for any number of steps. The compiler itself is the class `BrainF`, with the builder's
   blocks, insertion point and `curhead` as fields; its recursion is proved to build exactly the
   graph that the simulation and the well-formedness proofs are about.
2. **AliasSetTracker** (`Alias*.dfy`): a reference-counted union-find with forwarding, a must/may
   and an access lattice, and saturation. The alias analysis is an arbitrary function. `Books` is
   the reference accounting and the forwarding order, `Partition` ties the lists to the
   forwarding, `Drift` says how far the size total is off. All operations of the class keep them.
3. **AAResults** (`Aa*.dfy`): the aggregation of mod/ref answers, with the bits of the header.
   A world says which cells calls read and write, and through what. `MayModify`, `MayReference`,
   `MayClobber` and `MayObserve` say, with quantifiers over analyses and arguments, what the combined
   answer is; the loops with their early exits are proved to compute it, and it is proved sound for
   every world.
4. **llvm-mca block alignment** (`Mca*.dfy`): the in-place fixpoint, the pruning of prefixes, and the
   line de-interleaver.
5. **The case-fold generator** (`CaseFold.dfy`): the generated decision list has a semantics, and
   computes the map for every integer.
6. **Bisection** (`Bisect.dfy`) and **chunked accounting** (`Demangle*.dfy`).
7. **The thread barrier** (`Barrier.dfy`): interleaved steps of any number of threads, with and
   without spurious wakeups.

`dafny verify dfyconfig.toml` checks everything. All lemmas carry `{:induction false}`: what is
proved by induction says so with a recursive call.

Imperative code is imperative here. A class has the source's fields; its methods update them and
are specified by functions on the fields' values, and lemmas about those functions carry the proofs.
Containers that the source mutates are fields of type `seq` and `map`.

## Findings

- Size accounting of AliasSetTracker fails with unknown instructions: `AliasAdd.UnknownSpoilsTotal` is a
  case. Every operation's contract says by how much, and when not at all: `AliasPlace.UnitingIsExact`
  (lookups, `addPointer`), `AliasPlace.SaturatingIsExact` (an `addPointer` that saturates the tracker),
  `AliasPlace.UnknownIsExact` (unknown instructions) and `AliasPlace.MergingAllIsExact` (the full merge).
  `AliasPlace.LosingSetExists` is a tracker and a location whose lookup makes the total wrong.
- `deleteValue` on the last member of a saturated tracker leaves `AliasAnyAS` dangling: the tracker
  is valid afterwards if and only if this was not the case (`AliasSetTracker.DeleteValue`);
  `AliasRecords.LastOfSaturatedExists` is a case.
- A call that may neither read nor write, according to the behaviours that two analyses give together,
  can still be reported with the Ref bit, for a location and for another call: `AaSoundness.RefOfNoReader`
  is a case, `AaSoundness.BitsWithinBehavior` and `AaSoundness.CallBitsWithinBehavior` say exactly when.
- The bound that `check_bisect` announces is reached if all tests fail; it is twice the number of names less
  two, or one for a single name. It finds every choice that
  passes alone for any test, and no others for tests that never improve with more choices from B.
- Pruning can leave a run with two prefixes for the same text (`McaPrune.TwoChosen`), and the run is then
  checked against every differing line once for each of them (`McaPrune.CheckedTwice`,
  `McaPrune.LinesChecked`). `McaPrune.OneChosen` says exactly when there is one prefix, and
  `McaPrune.RunSeesItsText` that exactly then, or if no line differs, the run is checked against its text;
  `McaPrune.PruneAndBreakDown` has this end to end.
- With a spurious wakeup a thread can pass the barrier early (`Barrier.SpuriousWakeupBreaksBarrier`). A run in
  which nobody is woken up spuriously while somebody is still to arrive keeps the barrier
  (`Barrier.NoEarlyWakeupKeepsBarrier`). One with such a wakeup need not break it, but from there the woken
  thread can get through without any other spurious wakeup before anybody else arrives
  (`Barrier.WokenGetsThrough`); `Barrier.BreachNeedsEarlyWakeup` puts both together. That nobody is left
  asleep and that there is one broadcast holds all the same.
- `demangle_tree.py` fails on object files in the current directory when that is where the walk starts: the
  directory part of their normalized paths is empty, and the chunk has no result for it
  (`DemangleTree.DotStops`). `DemangleTree.MapContext.Go` comes to its end if and only if there are none.

## Model

| member | source | states |
|---|---|---|
| BrainFFusion.FusionIsFaithful | llvm/examples/BrainF/BrainF.cpp:322-421 | For every balanced text, tape size, input and number of symbols: executing the fused symbols reaches the same tape, head, input, output and status as executing the commands one character at a time, or checked code has stopped with the head off the tape. |
| BrainFFusion.FinishRun | llvm/examples/BrainF/BrainF.cpp:338-378 | Executing the rest of a run of `+-` or `<>` character by character, ignored characters included, has the effect of the whole fused symbol. |
| BrainFTokens.FusingKeepsNesting | llvm/examples/BrainF/BrainF.cpp:322-421 | The brackets of the symbols nest exactly as the brackets of the text do, whatever run is pending. |
| BrainFTokens.FusingKeepsCloses | llvm/examples/BrainF/BrainF.cpp:322-421 | Skipping to the matching `]` in the text and in the symbols ends at corresponding places. |
| BrainFSource.BalancedPairs | llvm/examples/BrainF/BrainF.cpp:20-21 | In a balanced text every bracket has a partner, and being partners is mutual. |
| BrainFSource.CommandTable | llvm/examples/BrainF/BrainF.cpp:11-21 | What each of the eight commands reads, writes and moves, in terms of tape, head, input and output; the rest stays, other characters only pass, and a command that needs the cell stops off the tape. |
| BrainFCode.MoveSimulated | llvm/examples/BrainF/BrainF.cpp:244-274 | The code of a run of `<>` moves the head; checked code goes to the error block exactly if the new head is off the tape. |
| BrainFCode.LoopSimulated | llvm/examples/BrainF/BrainF.cpp:290-310 | From the loop's entry and from the end of its body alike, the phi yields the current head, and control goes into the body exactly if the cell under it is not zero. |
| BrainFCode.StepSimulated | llvm/examples/BrainF/BrainF.cpp:200-316 | One symbol of the program is matched by at least one instruction of its code, from corresponding to corresponding states, for every symbol and every status. |
| BrainFCode.CodeIsFaithful | llvm/examples/BrainF/BrainF.cpp:64-188 | A graph that contains the code of every symbol reaches, for any number of symbol steps, a state that corresponds to theirs. |
| BrainFLayout.GenLaid | llvm/examples/BrainF/BrainF.cpp:200-310 | After any number of symbols of a balanced program, the code of all finished symbols is in the blocks where later code expects it, and open loops have half a phi. |
| BrainFLayout.GenNested | llvm/examples/BrainF/BrainF.cpp:290-310 | The loops that the compiler has open are the brackets that a scan of the text has open, and each closes where the scan says. |
| BrainFLayout.GenIsProgram | llvm/examples/BrainF/BrainF.cpp:64-188 | For every balanced program, the finished function contains the code of all its symbols, the entry code and the jump to the end. |
| BrainFSsa.SoundIsWellFormed | llvm/examples/BrainF/BrainFDriver.cpp:150-154 | A function with a certificate of available registers is well formed: one terminator per block, at its end; phis with exactly one entry per predecessor; registers defined once; every use dominated by its definition on every path from the entry. |
| BrainFGenSsa.CloseVerified | llvm/examples/BrainF/BrainF.cpp:424-462 | Completing a loop keeps the unfinished function certifiable: the back edge, the second phi entry, the test and the new head are available where they are used. |
| BrainFGenSsa.GenIsWellFormed | llvm/examples/BrainF/BrainFDriver.cpp:150-154 | The function generated for any balanced program is well-formed SSA, checked or not. |
| BrainFTheorems.GeneratedPreserves | llvm/examples/BrainF/BrainF.cpp:190-474 | Semantic preservation: for every input, however long one waits, the generated function and the command table reach states with the same tape, output and remaining input and the same kind of status; the function is then at the code of the symbol that the program is at, and the register which that code takes for the head holds the program's head; unless the bounds check has stopped the function with the head off the tape. |
| BrainFTheorems.SameTermination | llvm/examples/BrainF/BrainF.cpp:467-468 | Unchecked code returns if and only if the program ends, and then with the same tape and output. |
| BrainFTheorems.NeverWrong | llvm/examples/BrainF/BrainF.cpp:190-474 | A preserving function never reads an undefined register or a value of the wrong kind, and never runs off a block. |
| BrainFTheorems.CheckedNeverTraps | llvm/examples/BrainF/BrainF.cpp:244-274 | With bounds checks and a tape of at least one cell, no executed load or store is off the tape. |
| BrainFTheorems.ErrorIffOffTape | llvm/examples/BrainF/BrainF.cpp:252-268 | The error block is reached if and only if some fused run of `<>` ends with the head off the tape. |
| BrainFTheorems.CheckedTermination | llvm/examples/BrainF/BrainF.cpp:244-274 | With bounds checks and a tape of at least one cell, the function returns without an error if and only if the program ends and no fused run of `<>` ends off the tape, and then with the same tape and output. |
| BrainFTheorems.InputAndOutput | llvm/examples/BrainF/BrainF.cpp:14-15 | In any number of steps every executed `,` takes one character of the input while there is one, every executed `.` writes one, and nothing written is taken back. |
| BrainFCompiler.ReadSymbol | llvm/examples/BrainF/BrainF.cpp:318-421 | The lookahead lexer always ends; the current symbol, the next one and the unread characters stand for exactly the symbols that were to come. |
| BrainFCompiler.Accept | llvm/examples/BrainF/BrainF.cpp:336-419 | One character changes the two pending symbols so that together with the unread text they stand for the same symbols as before. |
| BrainFCompiler.BrainF.constructor | llvm/examples/BrainF/BrainF.cpp:64-188 | The header leaves the entry, end and error blocks of the specification, with nothing of the program read. |
| BrainFCompiler.BrainF.OpenLoop | llvm/examples/BrainF/BrainF.cpp:290-306 | The jump, the test block with half a phi and the body's block are those of the specification, and the phi is the current head. |
| BrainFCompiler.BrainF.EndLoop | llvm/examples/BrainF/BrainF.cpp:430-462 | The phi is completed, the test written, and the state is the specification's after `]`, with the innermost loop closed. |
| BrainFCompiler.BrainF.CompileLoop | llvm/examples/BrainF/BrainF.cpp:290-310 | The recursive call consumes exactly the symbols up to the partner of the `[`. |
| BrainFCompiler.BrainF.ReadLoop | llvm/examples/BrainF/BrainF.cpp:190-474 | Every call ends; it stops behind the bracket that matches its loop, at an extra `]`, or at the end of the text, and the blocks built are those of the symbols consumed. |
| BrainFCompiler.LoopEnds | llvm/examples/BrainF/BrainF.cpp:424-462 | A `]` that ends a recursive call is the partner of the `[` that began it. |
| BrainFCompiler.Parse | llvm/examples/BrainF/BrainF.cpp:52-62 | Compilation succeeds if and only if the brackets of the text balance, and otherwise tells which way they do not; the function it returns preserves the program's meaning and is well-formed SSA. |
| BrainFCompiler.ResultIsJudgement | llvm/examples/BrainF/BrainF.cpp:424-473 | Where the parser stops determines how the brackets of the whole text nest. |
| AliasSets.DropOne | llvm/include/llvm/Analysis/AliasSetTracker.h:191-195 | Giving up an owed reference keeps the books of all sets, or brings a set's count to zero when nothing refers to it any more. |
| AliasSets.EraseUnreferenced | llvm/lib/Analysis/AliasSetTracker.cpp:113-122 | An unreferenced set can be erased once it has released what it forwards to, and the counts of all others are exact again. |
| AliasSets.RootStays | llvm/include/llvm/Analysis/AliasSetTracker.h:283-293 | However chains are shortened and unreferenced sets dropped, every set left still leads to its root, which does not forward. |
| AliasSets.ShorteningKeepsPartition | llvm/include/llvm/Analysis/AliasSetTracker.h:283-293 | Path compression and dropped references change no pointer's set. |
| AliasSets.RedirectEnd | llvm/include/llvm/Analysis/AliasSetTracker.h:287-291 | Redirecting a set to its root, with the reference taken before the old one is dropped, keeps all counts exact. |
| AliasMerge.MustHasPointer | llvm/lib/Analysis/AliasSetTracker.cpp:198-204 | The asserts of `aliasesPointer` hold: a must-alias set that does not forward has a pointer and no unknown instructions. |
| AliasMerge.ForwarderHasPointer | llvm/lib/Analysis/AliasSetTracker.cpp:98-111 | Whatever forwards to a set does so on behalf of a pointer that belongs to it. |
| AliasMerge.MergedBooks | llvm/lib/Analysis/AliasSetTracker.cpp:88-110 | After a merge all reference counts are exact but for the merged set's reference for unknown instructions, and forwarding still goes to earlier sets. |
| AliasMerge.MergedPartition | llvm/lib/Analysis/AliasSetTracker.cpp:98-108 | After a merge every pointer is in the list of exactly one set that does not forward; those of the merged set, and no others, have moved. |
| AliasMerge.MergedDrift | llvm/lib/Analysis/AliasSetTracker.cpp:76-81 | A merge changes the error of the size total by exactly the size of a merged may-alias set without pointers. |
| AliasMerge.MergeIsDone | llvm/lib/Analysis/AliasSetTracker.cpp:52-111 | Giving up the last reference completes the merge: other active sets keep all but their counts, and sets later in the list are untouched. |
| AliasAdd.AddedBooks | llvm/lib/Analysis/AliasSetTracker.cpp:149-164 | Adding a pointer keeps all reference counts exact, also for a new set that had none yet. |
| AliasAdd.AddedPartition | llvm/lib/Analysis/AliasSetTracker.cpp:149-164 | Adding a pointer puts it into that set's list and into no other, and moves nothing else. |
| AliasAdd.AddedDrift | llvm/lib/Analysis/AliasSetTracker.cpp:134-164 | Adding a pointer does not change the error of the size total, also when the set becomes a may-alias set. |
| AliasAdd.UnknownAdded | llvm/lib/Analysis/AliasSetTracker.cpp:167-186 | An unknown instruction keeps books and partition, and takes exactly the size of a must-alias set from the total's accuracy. |
| AliasAdd.UnknownSpoilsTotal | llvm/lib/Analysis/AliasSetTracker.cpp:167-186 | The size total is wrong after an unknown instruction is added to a must-alias set with a pointer. |
| AliasGather.NextFound | llvm/lib/Analysis/AliasSetTracker.cpp:311-322 | Merging the next set that answers keeps: exactly the sets found so far are one, the first of them, with all their pointers and instructions in list order, the join of their accesses, and their sizes but for those of sets without pointers; all others, and all sets still to be visited, are as they were. |
| AliasGather.SelectedMeans | llvm/lib/Analysis/AliasSetTracker.cpp:192-255 | Which sets a location and an instruction unite, in terms of the analysis alone: the first pointer of a must-alias set answers, or any pointer or unknown instruction of a may-alias set; any related instruction, or any pointer that the instruction accesses. |
| AliasGather.GatheringDone | llvm/lib/Analysis/AliasSetTracker.cpp:298-344 | After the loop every active set lives on with all its pointers, instructions and attributes in an active set. |
| AliasGather.GatheringFullDrift | llvm/lib/Analysis/AliasSetTracker.cpp:298-344 | What a search adds to the error of the size total is what a full merge need not add any more, but for the united set, which is safe once it has a pointer. |
| AliasSaturate.ForwarderRerouted | llvm/lib/Analysis/AliasSetTracker.cpp:619-626 | Redirecting a forwarding set to the saturated set, whatever that erases, leaves every set still to be visited untouched. |
| AliasSaturate.ActiveMerged | llvm/lib/Analysis/AliasSetTracker.cpp:628-629 | Merging the next active set into the saturated one leaves every set still to be visited untouched. |
| AliasSaturate.SaturatingDone | llvm/lib/Analysis/AliasSetTracker.cpp:598-633 | After the full merge there is one active set; it has all pointers and instructions in list order, and all sizes but those of sets without pointers. |
| AliasPlace.NeverNoAlias | llvm/lib/Analysis/AliasSetTracker.cpp:134-147 | The assert of `addPointer` holds: the pointer that a must-alias set compares the new one to has answered before, and not with NoAlias. |
| AliasPlace.JoinedIsSound | llvm/lib/Analysis/AliasSetTracker.cpp:129-165 | Adding a location, with or without the check and the update of the first record, keeps books, partition and the accuracy of the total. |
| AliasPlace.JoinedIsHoused | llvm/lib/Analysis/AliasSetTracker.cpp:129-165 | A new pointer comes after the pointers of the sets that it has united, with one added to their size; the set is a may-alias set if and only if the united sets do not stay a must-alias set, or one of them has not answered MustAlias and neither does their first pointer; a new set is a must-alias set. Which records are updated; other sets stay. |
| AliasPlace.UnknownIsEnrolled | llvm/lib/Analysis/AliasSetTracker.cpp:167-186 | An instruction comes after those of the sets that it has united; the set is a may-alias set with Ref, and with Mod if and only if the instruction may write or one of the sets had it; pointers, size, records and other sets stay. |
| AliasPlace.UnitingIsExact | llvm/lib/Analysis/AliasSetTracker.cpp:76-108 | Uniting sets leaves the size total as right as it was if and only if none but the first of them is a may-alias set with a size and without pointers. |
| AliasPlace.MergingAllIsExact | llvm/lib/Analysis/AliasSetTracker.cpp:598-633 | A full merge leaves the size total as right as it was if and only if no active set is a may-alias set with a size and without pointers. |
| AliasPlace.SaturatingIsExact | llvm/lib/Analysis/AliasSetTracker.cpp:635-647 | A lookup followed by a full merge leaves the size total as right as it was if and only if the only active set with a size and without pointers, if any, is the first of those united and comes to have a pointer by that. |
| AliasPlace.UnknownIsExact | llvm/lib/Analysis/AliasSetTracker.cpp:167-186 | An instruction leaves the size total as right as it was if and only if it touches no set, or the sets it touches do not stay a must-alias set and none but the first loses its size. |
| AliasPlace.LosingSetExists | llvm/lib/Analysis/AliasSetTracker.cpp:76-108 | A valid tracker and a location whose lookup makes the size total wrong. |
| AliasRecords.ReattachedPartition | llvm/include/llvm/Analysis/AliasSetTracker.h:115-124 | Letting a pointer's record refer to its root directly changes no pointer's set. |
| AliasRecords.ForgetIsDone | llvm/lib/Analysis/AliasSetTracker.cpp:552-573 | Deleting a pointer takes it, and only it, out of the partition; its set is gone exactly if it had nothing else. |
| AliasRecords.DeletedIsRight | llvm/lib/Analysis/AliasSetTracker.cpp:552-573 | Deleting a pointer leaves a saturated tracker with its active set, if and only if that set had another member. |
| AliasRecords.LastOfSaturatedExists | llvm/lib/Analysis/AliasSetTracker.cpp:552-573 | There is a valid saturated tracker with a single member. |
| AliasSetTrackers.AliasSetTracker.DropRef | llvm/include/llvm/Analysis/AliasSetTracker.h:191-195 | A dropped reference erases the chain of sets that nothing refers to any more, nothing else, and keeps every other count exact; it always ends. |
| AliasSetTrackers.AliasSetTracker.RemoveAliasSet | llvm/lib/Analysis/AliasSetTracker.cpp:113-122 | Removing a set keeps the error of the size total. |
| AliasSetTrackers.AliasSetTracker.GetForwardedTarget | llvm/include/llvm/Analysis/AliasSetTracker.h:283-293 | Following forwarding ends at the set's root, and the set forwards there directly afterwards. |
| AliasSetTrackers.AliasSetTracker.GetAliasSet | llvm/include/llvm/Analysis/AliasSetTracker.h:115-124 | The set of a pointer is its class in the partition; active sets stay as they are. |
| AliasSetTrackers.AliasSetTracker.MergeSetIn | llvm/lib/Analysis/AliasSetTracker.cpp:52-111 | The outcome of a merge: who survives, with what, which lattice value the alias check gives, and what stays. |
| AliasSetTrackers.AliasSetTracker.AliasesPointer | llvm/lib/Analysis/AliasSetTracker.cpp:192-227 | The answer of a must-alias set is its first pointer's, that of a may-alias set the first other than NoAlias, or MayAlias for an unknown instruction. |
| AliasSetTrackers.AliasSetTracker.AliasesUnknownInst | llvm/lib/Analysis/AliasSetTracker.cpp:230-255 | A set is touched if and only if some unknown instruction or some pointer of it is, or it is the saturated one. |
| AliasSetTrackers.AliasSetTracker.MergeAliasSetsForPointer | llvm/lib/Analysis/AliasSetTracker.cpp:298-327 | Exactly the active sets that answer become one, the earliest; the flag is set if and only if all answered MustAlias. |
| AliasSetTrackers.AliasSetTracker.FindAliasSetForUnknownInst | llvm/lib/Analysis/AliasSetTracker.cpp:329-344 | Exactly the active sets that the instruction touches become one, the earliest. |
| AliasSetTrackers.AliasSetTracker.AddToSet | llvm/lib/Analysis/AliasSetTracker.cpp:129-165 | The pointer is the last of the set; this becomes a may-alias set if and only if it was one, or it is not known that the pointer is the same and its first pointer does not answer MustAlias; the total grows by one for a may-alias set, and by the size of one that has become one; which records are updated. The assert on the alias answer is a requirement that callers meet. |
| AliasSetTrackers.AliasSetTracker.GetAliasSetFor | llvm/lib/Analysis/AliasSetTracker.cpp:346-395 | The partition after a lookup: all sets that may alias the location are one, and the pointer is in it, or alone in a new set. What is in that set, whether it is a may-alias set, its access, size and the records, in terms of the sets before (`LookedUp`); other sets are as they were; by how much the size total becomes wrong. |
| AliasSetTrackers.AliasSetTracker.MergeAllAliasSets | llvm/lib/Analysis/AliasSetTracker.cpp:598-633 | The collected sets are all still there when visited; afterwards one active set holds every pointer and instruction in list order, with full access and the sizes; by how much the size total becomes wrong. |
| AliasSetTrackers.AliasSetTracker.AddPointer | llvm/lib/Analysis/AliasSetTracker.cpp:635-647 | The lookup leads to the state `placed`; the tracker is saturated if and only if it was not and the 32-bit total of `placed` exceeds the threshold. If not, the result is `placed` with the access joined to that of the pointer's set, and nothing else changed; if it is, one set holds everything. By how much the size total becomes wrong in either case. |
| AliasSetTrackers.AliasSetTracker.AddUnknown | llvm/lib/Analysis/AliasSetTracker.cpp:427-452 | Exactly the sets that the instruction touches become one, or there is a new one if there was none; the instruction is the last in it, and it is a may-alias set with Ref, and with Mod exactly if the instruction may write or one of the sets had it; by how much the size total becomes wrong; other instructions change nothing. |
| AliasSetTrackers.AliasSetTracker.CopyValue | llvm/lib/Analysis/AliasSetTracker.cpp:580-596 | A new copy is the last pointer of the original's set, whatever the analysis answers, with a record made from the original's; nothing else moves, nor does the error of the size total; otherwise nothing changes. |
| AliasSetTrackers.AliasSetTracker.DeleteValue | llvm/lib/Analysis/AliasSetTracker.cpp:552-573 | The pointer is gone from its set and from the records, and one is taken off the size of a may-alias set; other records and sets stay, the error of the total is unchanged; the tracker is valid afterwards if and only if it was not the last member of a saturated one. |
| AliasSetTrackers.AliasSetTracker.Run | llvm/lib/Analysis/AliasSetTracker.cpp:552-647 | After any sequence of operations the tracker is valid, there has been a full merge at most once, pointers that were together still are unless one of them has been deleted, and without unknown instructions the total is the sum of the sizes of active may-alias sets. |
| AaSoundness.CallLocationSound | llvm/lib/Analysis/AliasAnalysis.cpp:178-238 | If all analyses are sound, the combined answer for a call and a location has Mod if the call can write a cell of it, and Ref if it can read one. |
| AaSoundness.CallCallSound | llvm/lib/Analysis/AliasAnalysis.cpp:246-376 | If all analyses are sound, the combined answer for two calls has Mod if the first can write what the second touches, and Ref if it can read what the second writes. |
| AaSoundness.AccessReaches | llvm/lib/Analysis/AliasAnalysis.cpp:203-229 | An access to a location by a call that uses no other memory is made through an argument whose alias answer is not NoAlias. |
| AaSoundness.ThroughArgument | llvm/lib/Analysis/AliasAnalysis.cpp:284-333 | A call that uses argument memory only touches a cell through an argument that covers it and whose bits allow it. |
| AaSoundness.LocationAnswers | llvm/lib/Analysis/AliasAnalysis.cpp:178-238 | The combined Mod and Ref bits for a location in terms of the analyses alone: all report the bit and allow the access; if one excludes other memory, none excludes arguments, and all let the call write or read through an argument that no analysis settles to be apart from the location before another one answers; none has the location for constant, for Mod. |
| AaSoundness.ApartLeavesNothing | llvm/lib/Analysis/AliasAnalysis.cpp:203-234 | If one analysis excludes other memory and every pointer argument is settled not to alias the location, neither bit is left; if one has the location for constant, Mod is not. |
| AaSoundness.CallAnswers | llvm/lib/Analysis/AliasAnalysis.cpp:246-376 | The combined bits for two calls in terms of the analyses alone: reports, behaviours, and for a call that uses arguments only, an argument through which one writes what the other may touch. |
| AaSoundness.BitsWithinBehavior | llvm/lib/Analysis/AliasAnalysis.cpp:192-201 | Mod is never reported against the behaviour; Ref is if and only if the behaviours exclude reads and writes but not other memory, and all analyses report it. |
| AaSoundness.CallBitsWithinBehavior | llvm/lib/Analysis/AliasAnalysis.cpp:246-376 | For two calls, Mod is never reported against the behaviour of the first; Ref is if and only if that excludes reads and writes, all analyses report it, the second call writes, and the first may use memory that the arguments do not settle. |
| AaSoundness.RefOfNoReader | llvm/lib/Analysis/AliasAnalysis.cpp:198-201 | Two analyses, one for reads only and one for writes only, together leave the Ref bit, for a location and for a call that writes. |
| AaResults.AAResults.Alias | llvm/lib/Analysis/AliasAnalysis.cpp:106-114 | The result is MayAlias if all analyses say so, and otherwise the answer of one before which all others say MayAlias. |
| AaResults.AAResults.GetArgModRefInfo | llvm/lib/Analysis/AliasAnalysis.cpp:131-143 | A bit is set if and only if every analysis sets it, wherever the loop stops. |
| AaResults.AAResults.GetModRefBehavior | llvm/lib/Analysis/AliasAnalysis.cpp:378-390 | Each kind and place of access is allowed if and only if every analysis allows it, wherever the loop stops. |
| AaResults.AAResults.GetModRefInfo | llvm/lib/Analysis/AliasAnalysis.cpp:178-238 | Mod and Ref are set if and only if the analyses' reports, behaviours, alias answers, argument bits and constants leave them (`MayModify`, `MayReference`); neither is if one analysis excludes other memory and all pointer arguments are settled to be apart; Must tells for argument-only calls whether all arguments are settled to be the location. |
| AaResults.AAResults.Accumulate2 | llvm/lib/Analysis/AliasAnalysis.cpp:284-330 | A bit is set if and only if the result allows it and some argument of the second call gives it, also when the loop stops early. |
| AaResults.AAResults.Accumulate1 | llvm/lib/Analysis/AliasAnalysis.cpp:335-373 | A bit is set if and only if the result allows it and some argument of the first call that matters has it, also when the loop stops early. |
| AaResults.AAResults.GetCallModRefInfo | llvm/lib/Analysis/AliasAnalysis.cpp:246-376 | Mod and Ref are set if and only if the analyses' reports and behaviours, and for a call that uses arguments only, its arguments, leave them (`MayClobber`, `MayObserve`). |
| AaResults.AAResults.CheckedCallLocation | llvm/lib/Analysis/AliasAnalysis.cpp:178-238 | With sound analyses the returned bits cover what the call can do to the location, and never exceed any analysis' own answer. |
| AaResults.AAResults.CheckedCallCall | llvm/lib/Analysis/AliasAnalysis.cpp:246-376 | With sound analyses the returned bits cover every dependence, and never exceed any analysis' own answer. |
| McaAlign.InsertedCounts | llvm/utils/update_mca_test_checks.py:273-277 | Inserting empty blocks between two blocks removes exactly one adjacent pair and no block. |
| McaAlign.ShuntedKeeps | llvm/utils/update_mca_test_checks.py:264-282 | One change of one list keeps the blocks of all lists, takes one from the number of adjacent pairs, and leaves no block beyond reach of its recorded index. |
| McaAlign.FarthestIsLargest | llvm/utils/update_mca_test_checks.py:248-260 | In the end the recorded index of a block is the largest index at which it first occurs in any list. |
| McaAlign.Aligner.AlignMatchingBlocks | llvm/utils/update_mca_test_checks.py:225-284 | A call that reports a change has made exactly one; one that reports none leaves every block that follows a block at or past its farthest index. |
| McaAlign.Aligner.AlignFully | llvm/utils/update_mca_test_checks.py:339-342 | The loop ends on all inputs, keeps every list's sequence of blocks, and ends aligned; it gets there only by inserting, between two adjacent blocks, the empty blocks that bring the second to its recorded index, while recorded indexes never fall. |
| McaAlign.Aligner.AddRun | llvm/utils/update_mca_test_checks.py:335-342 | From the lists with the new output in its place, the new lists come about by such insertions only; they begin with the same blocks as the outputs, and a first output is kept as it is. |
| McaAlign.Aligner.AlignRuns | llvm/utils/update_mca_test_checks.py:322-342 | After all runs, every list has the blocks of its key's last output, in order, begins with the same block as that, and all are aligned; every run adds its output and insertions of empty blocks, nothing else; a single run's output is kept as it is; with distinct keys no recorded index is stale. |
| McaPrune.Prune | llvm/utils/update_mca_test_checks.py:360-398 | Every text gets the prefixes that are chosen from what is left of its sets: prefixes of its own runs that no run of another text has, and one for each run that has one; it fails only if a text has none. |
| McaPrune.ChoiceIsUsable | llvm/utils/update_mca_test_checks.py:360-411 | The chosen prefixes are disjoint, not empty and do not contain the common prefix, as the de-interleaver needs. |
| McaPrune.RunSeesItsText | llvm/utils/update_mca_test_checks.py:403-411 | A run is checked against exactly its text if and only if exactly one of its prefixes has been chosen, or no line differs. |
| McaPrune.LinesChecked | llvm/utils/update_mca_test_checks.py:403-411 | A run is checked against every common line once, and against the differing lines of its text once for each of its prefixes that has been chosen. |
| McaPrune.OneChosen | llvm/utils/update_mca_test_checks.py:366-398 | Exactly one prefix of a run is chosen if and only if the run has one that no other text uses, and the runs of the text share such a prefix or none that is first for another run is a second one here. |
| McaPrune.SharedPrefixIsEnough | llvm/utils/update_mca_test_checks.py:376-380 | If the runs of a text share a prefix of their own, each has exactly one chosen prefix. |
| McaPrune.TwoChosen | llvm/utils/update_mca_test_checks.py:376-398 | Runs with {1,2}, {2,3} and {1,3} leave the first with two chosen prefixes. |
| McaPrune.CheckedTwice | llvm/utils/update_mca_test_checks.py:403-411 | The first of these runs is then checked against the differing line of its text twice. |
| McaPrune.PruneAndBreakDown | llvm/utils/update_mca_test_checks.py:360-411 | From the prefix sets of all runs: it fails if and only if a text has no prefix of its own; the block is broken down if and only if the first line is common; then the lines with the common prefix are exactly the common lines, in order, and a run is checked against exactly its text if and only if no line differs or exactly one prefix of it is chosen. |
| McaBreakdown.Flush | llvm/utils/update_mca_test_checks.py:177-179 | For every prefix, what is written so far and its batch together are what is written after the flush. |
| McaBreakdown.BreakDownBlock | llvm/utils/update_mca_test_checks.py:143-202 | For texts with prefixes of their own, a non-empty result restricted to a text's prefix and the common one is that text, and it has no lines with other prefixes; the lines with the common prefix are exactly those that all texts share, in order, and between two of them the others come with their prefixes in increasing order; there is a result if and only if the first line is common and a prefix is there when needed. |
| CaseFold.BlockKeys | llvm/utils/unicode-case-fold.py:77-87 | The keys of a block of constant stride are exactly the characters in its range with its remainder. |
| CaseFold.BlockOutcome | llvm/utils/unicode-case-fold.py:66-99 | The rules of a block, in each of the four forms, return the mapped value for its keys and never a wrong one for anything up to its end. |
| CaseFold.RightConcat | llvm/utils/unicode-case-fold.py:69-82 | Appending a block's rules keeps the whole list right, although single-entry blocks emit no lower bound. |
| CaseFold.Mappings | llvm/utils/unicode-case-fold.py:35-48 | Input is accepted if and only if its characters are strictly increasing and not negative. |
| CaseFold.Generator.Generate | llvm/utils/unicode-case-fold.py:103-123 | The mappings are cut into uniform blocks as long as possible, and the emitted list computes the map for every integer. |
| CaseFold.Convert | llvm/utils/unicode-case-fold.py:35-123 | There is output if and only if the entries are non-empty, increasing and not negative, and it computes the map. |
| Bisect.CheckSequentially | llvm/utils/abtest.py:111-123 | The result is the set of choices that pass on their own. |
| Bisect.Bisector.TestPartition | llvm/utils/abtest.py:134-151 | The number announced before a test covers it and all later ones if the earlier numbers did; no name is lost. |
| Bisect.Bisector.CheckBisect | llvm/utils/abtest.py:126-171 | For any test: it ends, finds every choice that passes alone, and at every test the tests still to run are at most the number announced, exactly that number if all fail. There are at most twice as many tests as names less two (one for a single name), exactly as many if all fail. For tests that stay passing with fewer choices the result is the sequential one. |
| Bisect.CheckBothWays | llvm/utils/abtest.py:111-171 | For a test that fails exactly when a bad choice is picked, both searches return the choices that are not bad. |
| DemangleTree.MapContext.TakeChunk | llvm/utils/demangle_tree.py:83-113 | Files are taken in order until the chunk is full or none is left; only the last directory can be incomplete. |
| DemangleResults.SumContains | llvm/utils/demangle_tree.py:73-77 | Adding up results: an error is in the sum if and only if it is in the result of one of the files; the crashes are those of all files in order, symbols and files are counted. |
| DemangleTree.TookAll | llvm/utils/demangle_tree.py:89-113 | The completed directories and what is left make up what was pending; nothing is lost or taken twice. |
| DemangleTree.MapContext.AddMapped | llvm/utils/demangle_tree.py:120-123 | Every file's result is added to that of its directory part, if and only if all directory parts are known to the chunk. |
| DemangleTree.ChunkFiles | llvm/utils/demangle_tree.py:120-123 | All directory parts are known to the chunk if and only if it has no files in the current directory. |
| DemangleTree.ChunkResults | llvm/utils/demangle_tree.py:117-123 | For a chunk without files in the current directory, every directory's result afterwards is the sum over all its files taken so far, in this chunk and before. |
| DemangleTree.MapContext.ProcessOneChunk | llvm/utils/demangle_tree.py:83-135 | A chunk without files in the current directory takes exactly its size off the number pending, or all of it, and keeps: processed files, reported directories and totals are those of the directories done. Otherwise it reports nothing. |
| DemangleTree.MapContext.Go | llvm/utils/demangle_tree.py:137-182 | For every chunk size: the run comes to its end if and only if the current directory has no object files of its own. Then each file is processed once, in order; each directory with files is reported once, each without at once; a reported result and the cumulative one have an error if and only if one of the files has it, the crashes of all files in order, and the sums of their symbols and files. Otherwise what has been reported so far is right. |
| DemangleTree.DotStops | llvm/utils/demangle_tree.py:157-182 | An object file in the current directory, from which the walk starts, is enough to stop the run. |
| Barrier.RunKeepsInvariant | llvm/examples/ParallelJIT/ParallelJIT.cpp:166-233 | In every interleaving the counter is the number of threads counted until the release begins, and the release begins when all have arrived. |
| Barrier.BroadcastOnce | llvm/examples/ParallelJIT/ParallelJIT.cpp:166-233 | There is at most one broadcast, made by the last thread to get the mutex; after it nobody is asleep and both counters are zero; and the assert of `block` holds; with spurious wakeups too. |
| Barrier.NoDeadlock | llvm/examples/ParallelJIT/ParallelJIT.cpp:166-215 | While a thread is not done, one can go on without a spurious wakeup; when all are done there has been a broadcast. |
| Barrier.EverybodyGetsThrough | llvm/examples/ParallelJIT/ParallelJIT.cpp:166-233 | Every run ends after at most ten steps per thread, and one that cannot be continued has let everybody through by exactly one broadcast, with the mutex free and both counters zero again. |
| Barrier.NobodyPassesEarly | llvm/examples/ParallelJIT/ParallelJIT.cpp:166-233 | Without spurious wakeups nobody passes before all threads and the main thread have arrived. |
| Barrier.NoEarlyWakeupKeepsBarrier | llvm/examples/ParallelJIT/ParallelJIT.cpp:182-187 | With spurious wakeups, but none while somebody is still to arrive, nobody passes before all have arrived. |
| Barrier.WokenGetsThrough | llvm/examples/ParallelJIT/ParallelJIT.cpp:182-190 | A thread that has been woken up can get through without any spurious wakeup and before anybody else arrives: whoever holds the mutex gives it back, and then the thread leaves. |
| Barrier.CanBreachUnlessTight | llvm/examples/ParallelJIT/ParallelJIT.cpp:166-233 | From a state, steps without spurious wakeups can lead a thread through before all have arrived if and only if somebody is still to arrive and a thread has been woken up, or is through, already. |
| Barrier.BreachNeedsEarlyWakeup | llvm/examples/ParallelJIT/ParallelJIT.cpp:182-187 | A run has no spurious wakeup while somebody is still to arrive if and only if none of its states can be followed, without any more spurious wakeups, by one where a thread is through while somebody is still to arrive. |
| Barrier.SpuriousWakeupBreaksBarrier | llvm/examples/ParallelJIT/ParallelJIT.cpp:182-187 | With one spurious wakeup, a thread of two is through before anybody else has arrived. |

## Left out

- BrainF: malloc, memset, free and the message global; the tape starts as zeroed bytes and pointers are integer offsets, so address wrap-around is not modelled.
- BrainF: a fused run's sum is an unbounded integer, where the source has an `int`; skipping of white space by the input stream falls under ignored characters.
- BrainF: the LLVM IR library, bitcode, the driver and the JIT.
- AliasSetTracker: the records' links (`PrevInList`, `NextInList`, `PtrListEnd`) are one sequence per set, and sets are known by their creation number, which is their place in the list.
- AliasSetTracker: the 27 bits of `RefCount` do not overflow; sizes are unbounded integers, and only the comparison with the threshold wraps at 32 bits.
- AliasSetTracker: sizes and AA tags are one abstract tag, updated by an arbitrary function; unknown instructions never become null; which instructions touch or write memory is an arbitrary function.
- AliasSetTracker: `clear`, `removeUnknownInst`, adding another tracker, and the dispatch on instructions; runs go on only until one empties a saturated tracker.
- AliasSetTracker: pointers in different sets are not claimed not to alias, since the answers of the alias analysis are arbitrary.
- AAResults: the query cache, the overloads for single instructions, atomics and exception pads; which location an argument has is part of the call.
- AaResults.AAResults.GetCallModRefInfo: says nothing about the Must bit, which is best effort in the source; the bit is computed as there.
- llvm-mca: running the tool, parsing, the writing of files, and the padding of the lists, which need not make them equally long because the maximum is taken before alignment.
- McaBreakdown.BreakDownBlock: takes texts of equally many lines, at least one, which its caller checks; the source would fail on texts without lines.
- Case folding: reading the database and formatting the C++ text; the generated `int` arithmetic is unbounded.
- abtest: compiling and linking choices, and `link_test`; a test is a function of the set of names taken from B.
- demangle_tree: the walk itself; its directories are taken to be distinct normalized paths, and a file's directory part is its directory, or empty for the current one.
- demangle_tree: running the dumper and the process pool; the final summary's percentages.
- ParallelJIT: everything but the barrier; each thread calls `block` once.
