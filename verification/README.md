# PS3 toolchain: models and proofs

Dafny models of six parts of the toolchain and runtime, with the properties they are built for.

| part | source | files |
|---|---|---|
| boundary-tag heap | `runtime/lv2/librt/heap.c`, `heap.inl` | `Heap*.dfy` |
| linked-image checker | `tools/toc-linked-check.py` | `Return*.dfy` (does every `blr` return to the caller), `Switch*.dfy` (where may a jump table go), `HaSearch.dfy`, `Relocations.dfy`, `Flow*.dfy` (the control flow everything is asked on), `TocRegister.dfy` (where does r2 hold the TOC), `Site*.dfy` (is every TOC access right, is every site accounted for) |
| POSIX threads, sleeps | `runtime/lv2/librt/pthread.c`, `posix_time.c` | `Cond*.dfy`, `Thread*.dfy`, `Once.dfy`, `Timeouts.dfy` |
| package tool, SFO tool | `tools/sfo-pkg/pkg.c`, `sfo.c` | `Pkg*.dfy`, `Sfo*.dfy`, `Bytes.dfy` |
| SHA-1, Mersenne Twister | `tools/sfo-pkg/sha1.c`, `sdk/libmt19937/libmt19937.c` | `Sha1*.dfy`, `Twister*.dfy` |
| working directory | `runtime/lv2/librt/globfile.c` | `PathModel.dfy`, `WorkingDir.dfy` |

Shared: `Collections.dfy`, `BitMath.dfy`; `KnownAnswers.dfy` has worked examples for the formats, the hash and the generator.

How the parts are modelled:

- **Heap.** Memory is a map of 64-bit words; every method rewrites headers, back-sizes and links in
  place and is proved against a function on the picture of the heap: the blocks in address order and
  the free list in list order. `Sound` says that the blocks tile the arena, that flags and back-sizes
  are exact, that the free list is a well-linked ring over exactly the free blocks, and that no two
  free blocks meet.
- **Checker.** Each analysis has a concrete machine beside it. The return proof's facts, the switch
  proof's symbolic values and the addis search are proved sound for every execution along the
  control-flow graph. The site walk then turns "verified" into a statement about the address that the
  linked instructions compute.
- **Threads.** The protocols are state machines whose steps are the atomic operations and the sections
  under the table lock; any number of threads take steps in any order, and each property holds in
  every reachable state.
- **Tools.** Writers and parsers are functions on bytes; the loops of the tools are methods proved
  equal to them, and the round trips are lemmas. SHA-1 is defined as FIPS 180-4 does and the streaming
  context refines it; inside the package cipher the hash is any function to twenty bytes.

Results that correct what one might expect:

- An alignment of 1, 2 or 4 is a power of two but keeps the heap's page grid only for some sizes;
  `HeapSpec.PageGrid` is the exact condition (`StartOnGrid`; off it no sound heap has the block,
  `OffGridIsUnsound`), and `SmallAlignmentCutsTooShort` shows a request where it fails.
  `__heap_block_of_alloc_area` subtracts the header and does not align.
- `__heap_check_block` tries only the highest aligned start in a block. A block with a legal start is
  refused if and only if its front is aligned and that highest start lies less than a minimal block
  behind it (`RefusesExactly`, with a block in `RefusesBlockThatFits`).
- The symbolic run of a dispatch passes over steps that need not be sound. From a given state a step is
  sound if and only if it is none of `SwitchModel.Misjudged` (`SwitchExact.SoundExactly`): a `bgt` that goes
  to the very next instruction by a relocation, while the bounds so far let the value exceed; with a case
  address in CTR, a `bclr` or `bcctr` that decrements it, an `mtctr` with its reserved bit set, or a system
  call; a low-half load behind its addis where r2 is not known, which the linker may base on r2; a word a
  relocation turns into another instruction, unless the state after it says nothing
  (`SwitchVague.VagueExactly`). `flow` marks a section with such a `bclr` or `bcctr` unknown (lines
  1088-1097), so that answer goes unused.
- The answer for a path holds when it does not rest on such a step: `SwitchProof.Confirmed` runs the path
  again and takes over nothing doubtful.
- The search for relocations in a table looks at where each begins. The cases are the listed ones in
  every image if and only if none that begins before the table reaches into it
  (`SwitchProof.CasesHoldExactly`).
- `SwitchEscape.FlawEscapes` has, for a branch to the next instruction, for `bdzlr` and for an
  eight-byte relocation four bytes before the table, a loaded section with a justified proof and a run
  along its own flow that leaves through a case the proof excludes.
- The return proof takes LR as kept by a system call; `sdk/include/sys/lv2_syscall.h` lists LR, and CTR,
  among what one clobbers. It also decodes words without looking at their relocations. Some run of a
  certified section returns elsewhere if and only if some way from a function entry comes to a listed
  `blr` with LR tainted by one of the two (`ReturnProof.StraysExactly`): `sc ; blr` does
  (`SyscallEscapes`), and a function that saves LR before and reloads it after does not
  (`ReturnModel.AbiFrameReturns`).
- A call into the middle of a table is an entry of the flow and no sign that the table is code; what
  `FlowSound.StaysInGraph` says is of executions that start elsewhere.
- Package offsets are planned for files whose NPDRM meta data fits; the plan agrees with what is
  written exactly as long as it does (`PkgLayout.PlanIsKept`), and a SELF that ends right behind its
  digest header makes it miss (`PkgSelf.SomePlanMisses`). Packing ends on a SELF exactly when
  no chain of its digest headers ends in one that announces itself (`PkgSelf.EndsExactly`).

## Model
| member | source | states |
|---|---|---|
| HeapAllocator.HeapCntrl.Init | runtime/lv2/librt/heap.c:190-235 | fails exactly when the arena cannot hold a block; else one free block of the returned size, within a page of both ends |
| HeapAllocator.HeapCntrl.ClientStore | sdk/include/sys/heap.h:10-32 | a client store anywhere in its own area, the borrowed `prev_size` word included, keeps the heap sound |
| HeapAllocator.HeapCntrl.Split | runtime/lv2/librt/heap.c:48-88 | the front of the hole becomes a used block of the least size the request allows, the rest a free one listed behind the anchor; no live word changes |
| HeapAllocator.HeapCntrl.AllocateFromEnd | runtime/lv2/librt/heap.c:99-128 | the front stays a free block, the new block starts a header before the area and is of the least size the request allows; no live word changes |
| HeapAllocator.HeapCntrl.AllocateBlock | runtime/lv2/librt/heap.c:130-158 | a request is carved out of a free block: what lies in front stays free, the block handed out is the least the request allows, the rest is free, and both take the block's place on the list; the heap stays sound |
| HeapAllocator.HeapCntrl.FindStart | runtime/lv2/librt/heap.c:240-262 | for every alignment: 0 exactly when no listed block admits the request; else the first fit, aligned, inside the heap and apart from every area in use |
| HeapAllocator.HeapCntrl.AllocateAligned | runtime/lv2/librt/heap.c:237-269 | on the page grid: NULL exactly when no listed block admits the request, nothing changed; else first fit, aligned, inside the heap, apart from every area in use, live set grown by this block alone, the block cut as `Carved` says, no live word changed, and a sound heap |
| HeapAllocator.HeapCntrl.AllocateBytes | runtime/lv2/librt/heap.c:271-275 | all of this for the unaligned form, whatever the size |
| HeapAllocator.HeapCntrl.Free | runtime/lv2/librt/heap.c:277-349 | accepts NULL and live areas only; the block is merged with whichever neighbours are free, exactly it leaves the live set, other areas keep their words |
| HeapAllocator.HeapCntrl.Coalesce | runtime/lv2/librt/heap.c:329-345 | links and tags of the four ways to merge: the heap is `Freed`, exactly the block leaves the live set, no live word changes |
| HeapAllocator.HeapCntrl.FreeAll | tests/host/fixtures/heap-small-block.c:50-58 | freeing all live areas in any order leaves one free block of the whole heap |
| HeapSpec.FirstFit | runtime/lv2/librt/heap.c:250-262 | the first block in list order that admits the request |
| HeapSpec.StartOnGrid | runtime/lv2/librt/heap.c:160-188 | the answer for a block is on the page grid if and only if size and alignment meet `PageGrid` |
| HeapSpec.StartInside | runtime/lv2/librt/heap.c:160-188 | for every alignment an answer is aligned, lies behind the header, and the area ends within the borrowed word |
| HeapSpec.StartFits | runtime/lv2/librt/heap.c:160-188 | the answer is aligned, leaves whole blocks on both sides, and the area ends within the borrowed word |
| HeapSpec.HighestStart | runtime/lv2/librt/heap.c:160-188 | an aligned request gets the highest legal start in the block |
| HeapSpec.UnalignedExactly | runtime/lv2/librt/heap.c:240-262 | an unaligned request starts behind the header of every block it fits with the borrowed word, and of no other |
| HeapSpec.AllocatedIsCarved | runtime/lv2/librt/heap.c:48-158 | the picture after an allocation: the whole of the block if what is left could not be one, else up to the first page boundary at which the request ends |
| HeapSpec.RefusesExactly | runtime/lv2/librt/heap.c:160-188 | a block with a legal aligned start is refused if and only if its front is aligned and the highest start lies less than a minimal block behind it |
| HeapSpec.RefusesBlockThatFits | runtime/lv2/librt/heap.c:160-188 | a free block with a legal aligned start that the check refuses |
| HeapSpec.SmallAlignmentCutsTooShort | runtime/lv2/librt/heap.c:160-188 | with alignment 4 a block shorter than the minimum is cut |
| HeapSteps.FirstLastBounds | runtime/lv2/librt/heap.c:26-46 | when an arena has room, despite wrapping sums, and where its first and last block lie |
| HeapSteps.InitSound | runtime/lv2/librt/heap.c:205-225 | the tags and links laid out first make a sound heap |
| HeapSteps.SplitWhole | runtime/lv2/librt/heap.c:85-87 | a hole used whole is sound with the flag behind it set |
| HeapSteps.SplitRest | runtime/lv2/librt/heap.c:65-84 | a hole used in front, with the rest tagged and listed, is sound |
| HeapSteps.TakeOff | runtime/lv2/librt/heap.c:142-147 | taking a block off the list leaves the heap sound but for the hole |
| HeapSteps.CutEnd | runtime/lv2/librt/heap.c:112-124 | shrinking the hole from the front leaves it free and listed |
| HeapSteps.FreeAlone | runtime/lv2/librt/heap.c:337-345 | freeing between used blocks: new head of the list, flag and back-size written |
| HeapSteps.FreeBeforeFree | runtime/lv2/librt/heap.c:335-345 | freeing before a free block: merged, taking over its place on the list |
| HeapSteps.FreeAfterFree | runtime/lv2/librt/heap.c:314-345 | freeing after a free block: merged into it, the list unchanged |
| HeapSteps.FreeBetweenFree | runtime/lv2/librt/heap.c:329-345 | freeing between two free blocks: all three merged, one leaves the list |
| HeapSteps.AreaIsApart | runtime/lv2/librt/heap.c:237-269 | for every alignment an area answered is aligned, lies inside the heap and is disjoint from every used area and its borrowed word |
| HeapSteps.AllocationFits | runtime/lv2/librt/heap.c:237-269 | on the page grid the block can be carved out |
| HeapSteps.OffGridIsUnsound | runtime/lv2/librt/heap.c:160-188 | off the page grid no sound heap has the block the answer calls for |
| HeapSteps.FreedUse | runtime/lv2/librt/heap.c:277-349 | freeing takes exactly that block out of use |
| HeapSteps.AllocatedUse | runtime/lv2/librt/heap.c:130-158 | allocating puts exactly the new block in use |
| HeapSteps.SizesAddUp | runtime/lv2/librt/heap.c:190-235 | block sizes always sum to what heapInit returned |
| HeapSteps.AllFree | runtime/lv2/librt/heap.c:277-349 | a sound heap with nothing in use is one free block |
| HeapFreeList.RemoveKeepsLinks | runtime/lv2/librt/heap.inl:84-89 | unlinking a node leaves a well-linked ring of the others |
| HeapFreeList.InsertKeepsLinks | runtime/lv2/librt/heap.inl:91-98 | linking a node behind another gives the ring with it inserted there |
| HeapFreeList.ReplaceKeepsLinks | runtime/lv2/librt/heap.inl:100-107 | putting a node in another's place gives the ring with it exchanged |
| ReturnModel.StepSound | tools/toc-linked-check.py:1295-1339 | facts true before an instruction but for some taint give facts true after it but for the taint it passes on, under the ABI slot contract |
| ReturnModel.SoundExactly | tools/toc-linked-check.py:1295-1339 | for all facts a step is sound on every machine if and only if it is no system call while LR counts as the caller's and no rewritten word that facts survive |
| ReturnModel.MergeSettled | tools/toc-linked-check.py:1283-1286 | a merge changes nothing if and only if the state says no more than the new facts |
| ReturnModel.NothingLost | tools/toc-linked-check.py:1295-1339 | a step forgets only registers the machine instruction may write, r1 where it is moved by no constant, LR where it is set, and the save where a store may go anywhere |
| ReturnModel.Learns | tools/toc-linked-check.py:1295-1339 | every copy, save, reload, restore and move of the stack pointer by a constant is learnt |
| ReturnModel.AbiFrameReturns | tools/toc-linked-check.py:1260-1280 | save, frame, any body inside it with calls and system calls, reload: the facts know LR again, and untainted |
| FlowGraph.Successors | tools/toc-linked-check.py:1347-1350 | the successor lists hold exactly the edges of the predecessor lists |
| ReturnProof.FactsHold | tools/toc-linked-check.py:1341-1368 | the facts computed at a point hold whenever an execution gets there, but for the taint of the way it came |
| ReturnProof.ReturnsToCaller | tools/toc-linked-check.py:1260-1390 | with a certificate, LR equals the entry LR at every listed `blr` that an execution comes to untainted |
| ReturnProof.StraysExactly | tools/toc-linked-check.py:1260-1390 | some execution of a certified section has another LR at a listed `blr` if and only if some way from a function entry comes to one tainted |
| ReturnProof.PlainReturns | tools/toc-linked-check.py:1260-1390 | without system calls and rewritten words, LR equals the entry LR at every listed `blr` on every execution |
| ReturnProof.SyscallEscapes | tools/toc-linked-check.py:1260-1390 | the leaf `sc ; blr` has a certificate and a run whose LR at the `blr` is not the caller's |
| ReturnProof.Settle | tools/toc-linked-check.py:1341-1368 | the worklist settles before its cut-off for at most 58 entries an instruction, and never with more entries than the cut-off |
| ReturnProof.Visit | tools/toc-linked-check.py:1356-1368 | one visit keeps the flow conditions and spends from the bounded budget of merges |
| ReturnProof.MergeSpends | tools/toc-linked-check.py:1283-1286 | a merge that changes a state lowers its bounded budget |
| ReturnProof.MergedExactly | tools/toc-linked-check.py:1363-1368 | of each fact what is kept is what all agree on that come to a point, at a function entry a fresh call among them |
| ReturnProof.Sweep | tools/toc-linked-check.py:1369-1385 | passes if and only if no store through r1 may reach the slot except the proven save |
| ReturnProof.ProveReturns | tools/toc-linked-check.py:1260-1390 | a yes comes with a certificate; a no names a store or a `blr` for which the settled facts have none; the facts come from the entries' by nothing but being handed on along edges (`Grows`); where exact labels show that the section returns it says yes; it always settles when the entries are instructions of the section |
| ReturnProof.FrameShows | tools/toc-linked-check.py:1260-1280 | prologue, any body inside the frame, epilogue and `blr` have such labels |
| ReturnProof.ProveFrame | tools/toc-linked-check.py:1260-1390 | so a function of that form is proved to return |
| ReturnProof.ProveLeaf | tools/toc-linked-check.py:1260-1390 | and so is a leaf |
| ReturnModel.AllowedExactly | tools/toc-linked-check.py:1369-1385 | the sweep lets a store through if it is the save or writes no byte of the slot |
| SwitchSound.CmplSound | tools/toc-linked-check.py:1487-1629 | a compare relates its condition bit to the symbolic value |
| SwitchSound.TrapSound | tools/toc-linked-check.py:1487-1629 | a trap that was passed bounds the value, truncated to its width |
| SwitchSound.BcSound | tools/toc-linked-check.py:1534-1545 | a branch edge takes over the bound of its compare, unless it goes to the next instruction by a target the run does not see |
| SwitchSound.RlwinmSound | tools/toc-linked-check.py:1487-1629 | clrlwi and slwi forms keep the meaning of a value or its multiple of 4 |
| SwitchSound.RldSound | tools/toc-linked-check.py:1487-1629 | clrldi, sldi and rldic forms likewise |
| SwitchSound.LwaxSound | tools/toc-linked-check.py:1487-1629 | a load indexed by a bounded multiple of 4 gives a sign-extended table word in range |
| SwitchSound.AddSound | tools/toc-linked-check.py:1487-1629 | table word plus table address is a case address |
| SwitchSound.StepSound | tools/toc-linked-check.py:1487-1629 | every step that is not misjudged at its state describes the machine after it |
| SwitchSound.CarefulSound | tools/toc-linked-check.py:1487-1629 | the same of every step that takes over nothing doubtful |
| SwitchVague.VagueExactly | tools/toc-linked-check.py:1487-1629 | a symbolic state describes every machine of every linked image if and only if it says nothing of CTR, of widths, of shared or bounded registers, and its compares may come out anyhow |
| SwitchExact.SoundExactly | tools/toc-linked-check.py:1525-1629 | from a state that describes some machine, a step is sound if and only if it is not misjudged there |
| SwitchKeeps.NothingLost | tools/toc-linked-check.py:1487-1629 | a step forgets only registers, condition fields and CTR that the machine instruction may write |
| SwitchKeeps.BoundsStay | tools/toc-linked-check.py:1487-1629 | a bound once known is never given up or raised |
| SwitchKeeps.BoundExactly | tools/toc-linked-check.py:1510-1545 | the bound on the low bits of a value is the lowest of all that were checked on at least as many |
| SwitchProof.RunSwitchPath | tools/toc-linked-check.py:1487-1629 | the run's loop computes the symbolic state along the path |
| SwitchProof.PathSound | tools/toc-linked-check.py:1487-1629 | with a result (T,K) that rests on no misjudged step, every concrete run of the path ends with CTR at T plus a sign-extended table word 0 to K |
| SwitchProof.WaysIn | tools/toc-linked-check.py:1440-1462 | lists exactly the ways into the jump, one of which every execution that reaches it ends with; gives up if and only if the run up to it has more than 8 predecessors or one inside itself |
| SwitchProof.RunPaths | tools/toc-linked-check.py:1466-1474 | an answer if and only if all paths agree on the table, with the largest of their bounds, which some path has |
| SwitchProof.SwitchTargets | tools/toc-linked-check.py:1440-1485 | a proof is justified, over exactly the ways in, with one word more than the largest bound; there is none only where the search gives up, the ways do not agree, or that table is misaligned, outside, relocated or leads to no instruction |
| SwitchProof.FindsSome | tools/toc-linked-check.py:1440-1485 | where there is such a proof the search does not answer none |
| SwitchProof.FindsOne | tools/toc-linked-check.py:1440-1485 | all such proofs have the same table, targets and references |
| SwitchForms.Recognised | tools/toc-linked-check.py:1420-1431 | every dispatch of the documented forms, whatever registers, check, narrowing, scaling and load, ends the run with its table and the bound checked for |
| SwitchForms.PathRecognised | tools/toc-linked-check.py:1487-1629 | on a path over such a dispatch the answer is its table and that bound |
| SwitchProof.CasesHoldExactly | tools/toc-linked-check.py:1475-1484 | in every loaded image all cases are the listed ones, if and only if no relocation that begins before the table reaches into it |
| SwitchProof.TargetsComplete | tools/toc-linked-check.py:1475-1485 | with a kept table and listed paths whose answers rest on no misjudged step, every execution over the relied-on edges lands at a listed target, whatever it did before |
| SwitchEscape.FlawEscapes | tools/toc-linked-check.py:1475-1545 | for each of three flaws a loaded section, a justified proof over its own predecessors with "case 0 only", and a run along its flow that lands elsewhere; without a flaw the same run lands at the listed case |
| SwitchEscape.FlawsSeen | tools/toc-linked-check.py:1475-1545 | the two flaws on the path are the ones its answer rests on; a system call in front of the dispatch is none |
| TocRegister.R2Known | tools/toc-linked-check.py:1160-1175 | exactly the instructions that no way from a write of r2 leads to |
| TocRegister.TocIsHeld | tools/toc-linked-check.py:1160-1175 | on every execution entered with the TOC pointer in r2, r2 still holds it wherever the switch run relies on it |
| TocRegister.LandsAtTarget | tools/toc-linked-check.py:1413-1485 | every execution entered so lands at a listed target |
| HaSearch.ReachingHa | tools/toc-linked-check.py:1631-1665 | ends on every graph; a list if and only if every way back is clean, and then exactly the addis that arrive, one of them the last writer on every execution; a refusal names a real way |
| HaSearch.CleanIsSupplied | tools/toc-linked-check.py:1631-1665 | on every path from an entry the last instruction that may write the register is an arriving addis of the same target |
| HaSearch.ValueArrives | tools/toc-linked-check.py:1631-1665 | on every run whose instructions write no more than listed, the use finds in the register what its last possible writer left there |
| HaSearch.CleanExactly | tools/toc-linked-check.py:1631-1665 | where executions come to everything, a use is clean if and only if every execution gets the register from an addis of the target |
| FlowSeeding.Reach | tools/toc-linked-check.py:1150-1158 | the set found is exactly what the starts reach |
| FlowSettling.WithEdges | tools/toc-linked-check.py:1129-1140 | every list is the static predecessors and then the computed jumps that lead there, in their order |
| FlowSettling.Mend | tools/toc-linked-check.py:1203-1221 | pass after pass every broken proof, and no other, makes way for another one over the edges proven so far or is dropped, until none is broken; past 4 n + 1 passes for n jumps all go |
| FlowSettling.SettleFlow | tools/toc-linked-check.py:1182-1240 | settles before its limit, in at most 2 * size/4 + 1 rounds, each as `RoundIs` says: proofs for exactly the jumps that have one, mended until none is broken, exactly those given up that the graph does not bear out, exactly what nothing reaches seeded; then every proof that stands is proved again over the final edges with the r2 of the final graph, is reached by no unknown entry and its table shows no sign of code, and every instruction is reached from an entry; proofs of all computed jumps that bear one another out, before and after the entries their graph brings, all stand |
| FlowSound.DispatchLands | tools/toc-linked-check.py:1182-1240 | every execution of the settled section that comes to a proven dispatch goes to one of its targets |
| FlowSound.StaysInGraph | tools/toc-linked-check.py:1182-1240 | with every computed jump proven, every execution, its computed jumps going where CTR says, follows the edges of the settled graph and never runs a table word |
| FlowSeeding.SeedEntries | tools/toc-linked-check.py:1182-1240 | without proven tables, afterwards every instruction is reached from an entry; what is added is exactly what nothing leads to or reaches; two rounds suffice |
| SiteModel.VerifiedIsRight | tools/toc-linked-check.py:1712-1760 | a verified access: from any registers with r2 the TOC, the linked addis and access compute an address the image answers for |
| SiteModel.JudgedExactly | tools/toc-linked-check.py:1712-1760 | the judgement: the image's own answer to the question the linked access suits, at the address it computes, where addis, form and base register are as modelled; failed where the addis is gone and the access still uses its register; refused otherwise |
| SiteModel.ClassifyForms | tools/toc-linked-check.py:108-119 | which D-form opcodes are classified, and as what, by the bits of the opcode |
| SiteSpec.TableEntryIsGood | tools/toc-linked-check.py:962-982 | what the search finds at an offset is a usable TOC16_HA row on an addis rX,r2 there |
| SiteSpec.SomethingArrives | tools/toc-linked-check.py:1706-1710 | with the seeding, a low-half access never has an empty addis list |
| SiteSpec.VerifiedLowHalf | tools/toc-linked-check.py:1667-1710 | a verified low half: on every execution its base register comes last from an addis of its own target, and the linked pair computes a right address |
| SiteExact.VerifiedAddress | tools/toc-linked-check.py:1667-1760 | on every run of the linked code whose instructions write no more than listed, the address a verified low half computes is one the image answers for |
| SiteSpec.VerifiedAlone | tools/toc-linked-check.py:1667-1710 | the same for an access based on r2 |
| SiteSpec.VerifiedHa | tools/toc-linked-check.py:985-993 | a verified addis is used, and all its accesses are verified |
| SiteExact.LowHalfExactly | tools/toc-linked-check.py:1667-1760 | a low half is verified if and only if it can be looked at, is of a known form on a register of its own, has a target and a linked word, gets the register from an addis of that target on every execution, and the image verifies it with each such addis |
| SiteExact.LowHalfFails | tools/toc-linked-check.py:1667-1760 | it fails if and only if, so supplied, its linked word is gone or the image fails it with one of its addis |
| SiteExact.AloneExactly | tools/toc-linked-check.py:1667-1760 | when an access alone is verified and when it fails, both ways |
| SiteExact.HaExactly | tools/toc-linked-check.py:985-993 | an addis is verified if and only if it is used and all its accesses are; it fails if and only if one does |
| SiteExact.TableHasAll | tools/toc-linked-check.py:962-982 | every TOC16_HA row on an addis rX,r2 is in the table the search uses, unless a later one at its offset is |
| SiteCheck.Checker.Dispose | tools/toc-linked-check.py:1762-1768 | records one outcome; every caller proves the site had none |
| SiteCheck.Checker.CheckAccess | tools/toc-linked-check.py:1667-1710 | one access gets the outcome it must have, noted at exactly the addis it uses |
| SiteCheck.Checker.CheckSection | tools/toc-linked-check.py:948-993 | every row of the section is disposed of exactly once, with the outcome stated by `Expected`, nothing else touched |
| SiteTally.RunCheck | tools/toc-linked-check.py:1929-1963 | nothing is unaccounted for; FAIL iff some site failed; PASS iff some site is verified and none failed or refused |
| SiteTally.CountOutcomes | tools/toc-linked-check.py:1944-1944 | counts sum to the sites, and a count is positive if and only if the outcome occurs |
| SiteTally.OutcomeIs | tools/toc-linked-check.py:1929-1963 | a section outside the checked code has all its sites refused, any other those it should have |
| CondSafe.WakesReachLiveConds | runtime/lv2/librt/pthread.c:1268-1290 | in every reachable state a signal about to enter the kernel holds a live id of its own cond, and each of the three places that destroy an id has a live one |
| CondSafe.UnbindingIsExact | runtime/lv2/librt/pthread.c:748-778 | after an unbind every binding of another mutex is still there as often as before; without EBUSY none of the mutex is left and each of its conds is destroyed |
| CondSafe.SwapRemovedFacts | runtime/lv2/librt/pthread.c:729-733 | swap-removal takes out that binding and no other |
| CondSafe.RemovedIdIs | runtime/lv2/librt/pthread.c:735-743 | removal by id takes out the first binding with it, or none |
| CondSafe.NoneLeft | runtime/lv2/librt/pthread.c:765-766 | a zero in-flight count means no thread holds a loaded id |
| CondSafe.UnbindKills | runtime/lv2/librt/pthread.c:767-775 | destroying a cond, or putting its id back on EBUSY, keeps the invariant |
| CondSafe.DestroyKills | runtime/lv2/librt/pthread.c:1150-1156 | so does pthread_cond_destroy |
| CondSafe.StepKeeps | runtime/lv2/librt/pthread.c:696-1290 | every step of every thread keeps the invariant |
| CondEffect.SignalCalls | runtime/lv2/librt/pthread.c:1268-1290 | in every run a signal whose cond's word holds an id from its beginning to its end is at the kernel with it in between; it ends without a call only if the word held none at some time |
| CondEffect.SignalAlone | runtime/lv2/librt/pthread.c:1268-1290 | alone, a signal on a created cond gets into the kernel and back with nothing changed |
| CondEffect.ResolveAlone | runtime/lv2/librt/pthread.c:1171-1221 | alone, a first wait makes a kernel cond, binds and publishes it; without memory for the binding the cond goes again |
| CondEffect.DestroyAlone | runtime/lv2/librt/pthread.c:1130-1166 | alone, pthread_cond_destroy takes the kernel cond and its binding and resets the word; refused, it changes nothing |
| CondEffect.UnbindAlone | runtime/lv2/librt/pthread.c:748-778 | alone, unbinding frees every cond of the mutex, withdraws its word and gives the lock back |
| CondEffect.UnbindBusy | runtime/lv2/librt/pthread.c:748-778 | when the kernel refuses, everything is as it was, the cond's word among it |
| ThreadModel.FirstFree | runtime/lv2/librt/pthread.c:350-359 | the first slot not in use |
| ThreadSafe.ReleasedOnce | runtime/lv2/librt/pthread.c:547-590 | a slot is released at most once; after its thread's cleanup at the latest unless a join or detach is still to come, a slot first acquired in a thread_local's destructor included; until then it is the thread's own |
| ThreadSafe.HandlesInvert | runtime/lv2/librt/pthread.c:315-336 | handles are distinct and lead back to their slot if and only if it is in use |
| ThreadSafe.JoinTakesItsOwn | runtime/lv2/librt/pthread.c:2003-2040 | a join releases the slot of the thread it waited for and takes that thread's value |
| ThreadSafe.DataIsStored | runtime/lv2/librt/pthread.c:1743-1790 | getspecific answers with the thread's last value under this creation of the key, NULL for a thread without a slot |
| ThreadSafe.NewKeyReadsNull | runtime/lv2/librt/pthread.c:1685-1718 | a created key reads NULL in every thread |
| ThreadSafe.DetachKeeps | runtime/lv2/librt/pthread.c:2042-2071 | detaching keeps slot ownership, gives the slot back at once if and only if the thread has finished, and touches no other slot |
| ThreadSafe.FinishKeeps | runtime/lv2/librt/pthread.c:577-589 | so does the end of a cleanup |
| ThreadSafe.StepKeeps | runtime/lv2/librt/pthread.c:296-590 | every step of every thread keeps the invariant |
| ThreadEffect.Created | runtime/lv2/librt/pthread.c:1944-2001 | a new thread runs in a slot that was free, blank but for its flags and found by its handle; slots in use are left alone and the table grows only when full |
| ThreadEffect.SelfGiven | runtime/lv2/librt/pthread.c:2084-2095 | the first pthread_self of a foreign thread gives it a detached slot of its own, later ones nothing |
| ThreadEffect.JoinsEnded | runtime/lv2/librt/pthread.c:2003-2040 | joining an ended thread frees its slot and handle and nobody else's |
| ThreadEffect.ExitsWith | runtime/lv2/librt/pthread.c:547-590 | a thread that exits leaves its value in its slot, given back at once if it is detached |
| ThreadEffect.SetIsGot | runtime/lv2/librt/pthread.c:1743-1790 | what is stored is read back, by this thread and under this key only |
| ThreadEffect.KeyCreated | runtime/lv2/librt/pthread.c:1685-1718 | a key takes the first free place unless there is none, and is cleared in every slot |
| ThreadEffect.KeyDeleted | runtime/lv2/librt/pthread.c:1720-1741 | a deleted key reads NULL and the others are as before |
| ThreadTable.PtTable.SlotFromHandle | runtime/lv2/librt/pthread.c:315-330 | the walk over chunks finds the slot of a handle |
| ThreadTable.PtTable.SlotAlloc | runtime/lv2/librt/pthread.c:340-370 | hands out the first free slot, cleared with its handle kept, or the first of a new chunk |
| ThreadTable.PtTable.KeyCreate | runtime/lv2/librt/pthread.c:1685-1718 | takes the first free key and clears it in every slot of every chunk; no key when all are taken |
| ThreadTable.FlatAt | runtime/lv2/librt/pthread.c:315-330 | a slot's number is its chunk times 32 plus its place |
| Once.NeverTwice | runtime/lv2/librt/pthread.c:1644-1679 | routines of one control never overlap, and none runs after one has completed |
| Once.AtMostOneCompletes | runtime/lv2/librt/pthread.c:1644-1679 | at most one routine of a control completes |
| Once.ReturnsAfterCompletion | runtime/lv2/librt/pthread.c:1644-1679 | no caller returns 0 before a routine has completed |
| Once.AbandonedIsIdle | runtime/lv2/librt/pthread.c:1636-1642 | an unwound run leaves the control idle and nobody running |
| Once.FirstRuns | runtime/lv2/librt/pthread.c:1644-1679 | a call that finds the control idle runs the routine |
| Once.RoutineEnds | runtime/lv2/librt/pthread.c:1636-1679 | when the routine returns the control is done and counted; an exception leaves it idle |
| Once.LaterReturns | runtime/lv2/librt/pthread.c:1644-1679 | on a done control a call returns at once; one that finds the routine running looks again |
| Timeouts.UsecUntilIs | runtime/lv2/librt/pthread.c:943-962 | the smaller of 2^63-1 and the larger of 1 and the difference rounded up to microseconds, for all 64-bit seconds |
| Timeouts.TimeLeftIs | runtime/lv2/librt/posix_time.c:40-57 | the request less the elapsed time, never below zero, normalised |
| Timeouts.Nanosleep | runtime/lv2/librt/posix_time.c:59-100 | terminates; uninterrupted, its 32-bit sleeps sum to the request rounded up, all but the last full; errors and the remaining time as specified |
| TwisterModel.SeedsNeverZero | sdk/libmt19937/libmt19937.c:21-27 | a seeded generator never enters the state that only repeats zero |
| TwisterModel.KeysNeverZero | sdk/libmt19937/libmt19937.c:29-60 | nor does one seeded by an array |
| Twister.Generator.Init | sdk/libmt19937/libmt19937.c:21-27 | the table is the linear recurrence from the seed; no term is handed out yet |
| Twister.Generator.InitByArray | sdk/libmt19937/libmt19937.c:29-60 | the table is the two rounds of stirring, with the top bit set in front |
| TwisterArray.ByArrayIs | sdk/libmt19937/libmt19937.c:29-60 | seeding by an array is one recurrence, each word made of the one written before and the one written 623 before; the table is the top bit and the last 623 words |
| Twister.Generator.Regenerate | sdk/libmt19937/libmt19937.c:73-83 | in place, every word becomes the term 624 further on |
| Twister.Generator.RandInt32 | sdk/libmt19937/libmt19937.c:62-92 | the k-th call since seeding returns the tempered k-th generated term; unseeded, of seed 5489 |
| KnownAnswers.DefaultSeed | sdk/libmt19937/libmt19937.c:21-92 | from the seed 5489 the first numbers are 3499211612 and 581869302, given words 397 and 398 |
| Sha1.CodeFIs | tools/sfo-pkg/sha1.c:36-49 | the or-forms of Ch and Maj equal the xor-forms of section 4.1.1 of FIPS 180-4 |
| Sha1.Schedule | tools/sfo-pkg/sha1.c:19-29 | the loop computes the message schedule of section 6.1.2 |
| Sha1.Compress | tools/sfo-pkg/sha1.c:17-64 | the loop computes the compression function of section 6.1.2 |
| Sha1.Context.Update | tools/sfo-pkg/sha1.c:78-108 | the data is appended to the message hashed, however much is in the buffer |
| Sha1.Context.Final | tools/sfo-pkg/sha1.c:111-140 | the digest of the whole padded message; the buffer is cleared |
| Sha1.PaddedShort | tools/sfo-pkg/sha1.c:115-128 | the padding of section 5.1.1 leaves one block when at most 55 bytes are pending |
| Sha1.PaddedLong | tools/sfo-pkg/sha1.c:117-128 | and fills two otherwise |
| Sha1.PaddedFold | tools/sfo-pkg/sha1.c:113-128 | the fold over the padded message is the fold so far and one more block, or two |
| Sha1.OneShot | tools/sfo-pkg/sha1.c:142-148 | one call gives the digest |
| Sha1.Streamed | tools/sfo-pkg/sha1.c:67-140 | however a message is cut into calls, the digest is that of the whole |
| KnownAnswers.ConstantsAreRoots | tools/sfo-pkg/sha1.c:30-46 | the round constants are the first 32 bits of the square roots of 2, 3, 5 and 10 |
| KnownAnswers.ScheduledAbc | tools/sfo-pkg/sha1.c:19-29 | words 16, 18, 23 and 29 of the schedule of "abc" |
| KnownAnswers.CompressedIs | tools/sfo-pkg/sha1.c:17-64 | words by the recurrence and states by the rounds end after eighty in what compression adds to the state |
| KnownAnswers.Round0 | tools/sfo-pkg/sha1.c:30-60 | the first round of "abc"; seven more at the ends of the stages |
| PkgCipher.CryptTwice | tools/sfo-pkg/pkg.c:148-168 | the cipher undoes itself |
| PkgCipher.CryptSplit | tools/sfo-pkg/pkg.c:151-168 | after whole blocks the text is enciphered from a counter advanced by their number |
| PkgCipher.CryptPrefix | tools/sfo-pkg/pkg.c:151-168 | a prefix is enciphered as if nothing followed |
| PkgFormat.CryptByte | tools/sfo-pkg/pkg.c:116-168 | every byte is enciphered with its byte of the hash under its block's counter, modulo 2^64 |
| Pkg.SetContextNum | tools/sfo-pkg/pkg.c:125-135 | writes the counter's eight bytes, leaving the key's |
| Pkg.ManipulateContext | tools/sfo-pkg/pkg.c:137-146 | advances the counter modulo 2^64 |
| Pkg.PkgCrypt | tools/sfo-pkg/pkg.c:151-168 | the loop enciphers, and leaves the counter advanced by the number of blocks |
| PkgSelf.EndsExactly | tools/sfo-pkg/pkg.c:1269-1278 | the walk along a SELF's digest headers ends if and only if there is no chain of headers from its start, none of type 3, each announcing the next, whose last has length zero |
| PkgSelf.SomeSelfIsEndless | tools/sfo-pkg/pkg.c:1269-1278 | a SELF on which the walk never ends |
| PkgSelf.FindDigest | tools/sfo-pkg/pkg.c:1269-1278 | the loop finds what the walk over the headers defines |
| PkgSelf.Detect | tools/sfo-pkg/pkg.c:1256-1311 | the patch made in a file: by magic, application type and digest, with its meta data |
| PkgSelf.DetectedOk | tools/sfo-pkg/pkg.c:1279-1288 | a detected patch begins within the file |
| PkgSelf.PatchedBytes | tools/sfo-pkg/pkg.c:1287-1315 | outside the 0x80 bytes of meta data a patched file keeps its own bytes, in place |
| PkgLayout.PlanIsKept | tools/sfo-pkg/pkg.c:1191-1324 | a planned file offset is never beyond the emitted one, and equal if and only if every earlier patch fits |
| PkgSelf.SomePlanMisses | tools/sfo-pkg/pkg.c:1191-1324 | two files of which the first makes the second lie behind its planned offset |
| PkgLayout.SizeHolds | tools/sfo-pkg/pkg.c:762-764 | the size given to a file, EBOOT.BIN's rounding included, holds its bytes |
| PkgLayout.EbootSize | tools/sfo-pkg/pkg.c:762-764 | EBOOT.BIN is given the one size within 63 bytes above its own that is 48 over a multiple of 64 |
| PkgLayout.NamePart | tools/sfo-pkg/pkg.c:1191-1234 | a name lies where its descriptor says |
| PkgLayout.FilePart | tools/sfo-pkg/pkg.c:1238-1324 | a file's bytes lie where they were emitted |
| Pkg.PlanFiles | tools/sfo-pkg/pkg.c:1202-1210 | the first pass fills in the planned offsets |
| Pkg.Pack | tools/sfo-pkg/pkg.c:1184-1505 | writes the whole package, as long as its header says |
| KnownAnswers.HeaderSizes | tools/sfo-pkg/pkg.c:1184-1505 | the magic and the package size in the header are right for every package |
| KnownAnswers.MiddleParts | tools/sfo-pkg/pkg.c:1184-1505 | the checksums and their pads, which decipher to zeros and to one another |
| KnownAnswers.CipherBlock | tools/sfo-pkg/pkg.c:116-146 | the cipher's block holds each half of the key twice, zeros and the counter |
| Pkg.UnpackPkg | tools/sfo-pkg/pkg.c:990-1158 | reads descriptors, names and contents, failing on a name outside |
| Pkg.ListPkg | tools/sfo-pkg/pkg.c:849-985 | reads descriptors and then name after name with the counter going on |
| PkgFormat.UnpackedExactly | tools/sfo-pkg/pkg.c:990-1158 | any file is unpacked to a list of items if and only if it is of type 1, its data begin within it, and the deciphered data hold the descriptors and names of these items; a file whose bytes are not there comes out empty |
| PkgFormat.ListedExactly | tools/sfo-pkg/pkg.c:849-985 | any file is listed if and only if it is of type 1 and holds its descriptors; the lines are its names in order, up to the first that lies outside |
| PkgFile.DescRead | tools/sfo-pkg/pkg.c:835-844 | a descriptor reads back as it was written |
| PkgFile.RoundTrip | tools/sfo-pkg/pkg.c:1043-1121 | unpacking a package yields its content id and every path, in order, with flags and emitted bytes |
| PkgFile.RawComesBack | tools/sfo-pkg/pkg.c:1314-1321 | a file without NPDRM data comes back byte for byte, EBOOT.BIN zero-padded to its size |
| PkgFile.InStep | tools/sfo-pkg/pkg.c:926-980 | the lister's counter is always that of the next name's place |
| PkgFile.ListRoundTrip | tools/sfo-pkg/pkg.c:926-980 | listing a package yields every name, size and flags |
| SfoModel.RoundTrip | tools/sfo-pkg/sfo.c:112-194 | parsing what was written gives every key, type, value and place back |
| SfoModel.RegionsApart | tools/sfo-pkg/sfo.c:535-561 | keys and values never overlap, values have room, and 16-bit key offsets never wrap |
| SfoModel.AlignUp | tools/sfo-pkg/sfo.c:62-65 | rounding up gives the multiple that is not below and less than one unit above |
| Sfo.Layout | tools/sfo-pkg/sfo.c:525-556 | the first pass fills in every offset and length |
| Sfo.Write | tools/sfo-pkg/sfo.c:558-614 | the second pass emits the layout |
| Sfo.ParseSfo | tools/sfo-pkg/sfo.c:112-194 | the parser's loop, its refusals included |
| SfoFormat.FileExactly | tools/sfo-pkg/sfo.c:112-194 | any file is read as a list of pairs if and only if it has the magic, the version and at most 256 pairs and each entry and the places it points at lie in the file; and that list is what they hold |
| SfoFormat.CStringIs | tools/sfo-pkg/sfo.c:151-175 | a string ends at the first zero, at the end of the file or after as many bytes as fit |
| SfoFormat.RoomsAreLeast | tools/sfo-pkg/sfo.c:525-556 | values begin at the first multiple of 4 behind the keys, and a string's room is the least multiple of its alignment |
| SfoFormat.FilledWithZeros | tools/sfo-pkg/sfo.c:558-614 | the file is no longer than its layout, and zero wherever no key or value lies |
| PathModel.NormalReachable | runtime/lv2/librt/globfile.c:58-93 | every normalised path is absolute, shorter than PATH_MAX and made of names |
| PathModel.Idempotent | runtime/lv2/librt/globfile.c:58-93 | normalising a normalised path changes nothing, from any directory |
| PathModel.JoinIsRelative | runtime/lv2/librt/globfile.c:95-123 | normalising the verbatim join gives what normalising the relative path gives |
| PathModel.SplitTail | runtime/lv2/librt/globfile.c:74-92 | a rendered path followed by more splits into its names and the rest's components |
| PathModel.DotsVanish | runtime/lv2/librt/globfile.c:58-93 | empty components and dots may be left out anywhere |
| PathModel.ParentUndoes | runtime/lv2/librt/globfile.c:58-93 | a name that fits and the dots behind it undo each other; the root is its own parent |
| WorkingDir.AppendComponent | runtime/lv2/librt/globfile.c:22-39 | appends in place, refusing exactly what the buffer cannot hold |
| WorkingDir.PopComponent | runtime/lv2/librt/globfile.c:41-56 | removes the last name in place, the root staying |
| WorkingDir.NormalizePath | runtime/lv2/librt/globfile.c:58-93 | the buffer ends up holding the fold over the components, or the fold's error |
| WorkingDir.Cwd.Chdir | runtime/lv2/librt/globfile.c:125-145 | moves to the normal form when the kernel opens it; otherwise nothing changes |
| WorkingDir.Cwd.GetCwd | runtime/lv2/librt/globfile.c:147-169 | copies the directory when it and its terminator fit |
| WorkingDir.Cwd.ResolvePath | runtime/lv2/librt/globfile.c:95-123 | absolute paths stand; a joined one names from anywhere what the relative one names here |

## Left out
- HeapAllocator.HeapCntrl.AllocateAligned: carving out the block only for sizes and alignments that meet `PageGrid`; off it the invariant cannot hold (`OffGridIsUnsound`), and headers would lie across the words memory is made of. The search, its NULL and its bounds are stated for every alignment by `FindStart`.
- HeapAllocator.HeapCntrl.Free: only for NULL, pointers outside the heap, and pointers to the start of a block's area, free or used; other pointers into the heap read tags that are client data.
- ReturnModel.StepSound: the stack pointer is an integer that does not wrap, and calls keep the slot, as the source assumes at lines 1273-1277.
- ReturnProof.ReturnsToCaller: not at a `blr` come to with LR tainted, where some run does return elsewhere (`StraysExactly`).
- ReturnProof.ProveReturns: a refusal means that the settled facts are no certificate; a section that loses facts where ways meet may return all the same.
- SwitchProof.PathSound: nothing is claimed of a path whose answer rests on a misjudged step; the step is unsound, the answer may still be right. A nop behind a call counts as a nop; the TOC restore the linker may put there writes r2 alone, and the run has forgotten every register at the call.
- SwitchProof.TargetsComplete: not for tables a relocation reaches into from before, as the cases are others there (`CasesHoldExactly`), nor for listed paths that are not `Confirmed`.
- TocRegister.LandsAtTarget: calls give r2 back, as the source assumes; an execution enters with the TOC pointer in r2.
- FlowSound.StaysInGraph: an execution starts at an entry that is no table word, a function with the TOC pointer in r2; a word a relocation rewrites goes where its own edges lead.
- FlowSeeding.SeedEntries: sections without proven switch tables; `FlowSettling.SettleFlow` is the loop with them.
- SiteTally.RunCheck: sections are given as one list; a section outside code is refused whole like a misplaced one.
- Pkg.UnpackPkg: a malformed package whose descriptors or 32-bit name sums reach outside the data counts as refused; file system outcomes are not modelled.
- Pkg.ListPkg: a data offset whose 64-bit sum with the descriptors wraps passes the source's test, which then reads behind the file; here it is refused.
- PkgSelf.Search: a digest or application offset whose sum wraps in 64 bits counts as outside the file.
- PkgFile.RoundTrip: for name areas below 2^32 and data areas below 2^64, and files that do not change between being collected and being read.
- Sfo.ParseSfo: a 32-bit sum of offsets that wraps makes the source read behind the file; here such a place is refused.
- SfoModel.RoundTrip: for pairs within the writer's own arrays (keys below 128, strings below 2048 bytes, at most 256 pairs).
- ThreadSafe.ReleasedOnce: a detach never races a join of the same thread, which POSIX leaves undefined; a thread that exits by a route around its cleanup may keep its slot, as the source says.
- Heap on 32-bit words; the spinlock around each call; the asserts.
- The opcode tables `gpr_writes`, `stack_write` and `may_write_cr`: an instruction's write set is given with it.
- Object, map and trace parsing, symbol resolution and the comparison of section contents in the checker: answers of `resolve` and of the image are parameters.
- Deadlocks, fairness and weak memory orders in the thread protocols; ids of the kernel are never used again.
- The number and order of rounds of thread-specific destructors: any sequence of them is covered.
- Mutexes, rwlocks, barriers, attributes and scheduling in the threads shim.
- Directory walking, console output, the XML half of the SFO tool, allocation failures.
- The real and 31-bit outputs of the Mersenne Twister; the value of PATH_MAX comes from a header outside the repository and is taken as 1024.
