# RT-Thread kernel and shell: models and proofs

This project models the parts of the RT-Thread 3.0.4 kernel and of its finsh shell whose
correctness spans many functions and unbounded runs, and proves what they promise. It is a set of
Dafny modules; `dafny verify dfyconfig.toml` checks all of it.

The code modelled is imperative, and so are the models: objects are classes whose methods update
fields in place, and every method is tied by its contract to a value (a layout, a list, a deque, a
set of pages) whose properties are proved as lemmas. Memory that C reaches through pointers is a map
from address to field. A stretch of code that runs with interrupts disabled, or under the heap lock,
is one method; a run over all interleavings is a method that takes an arbitrary sequence of such
steps.

- `FinshMachine`, `FinshCompiler`, `FinshProof`, `FinshStale`, `FinshShell`: the expression compiler of
  the shell and the stack machine that runs its byte code. The main result, `RunLine`, says that
  compiling and running a list of statements computes exactly their left-to-right evaluation, down to
  the bytes of memory, and is undefined exactly when the evaluation is. `FinshStale` covers every mix of
  operand widths, where the bytes left over in the stack show.
- `Ring`, `HeapLayout`, `Payload`, `MemHeap`: the memory heap object. `HeapLayout` is the tiling of a
  pool by blocks and what splitting, merging and carving do to it; `Payload` is what becomes of the
  bytes in the blocks; `MemHeap` is the code on headers chained into two rings.
- `SmallHeap`: the small memory heap, on the same `HeapLayout` and `Payload`.
- `PageList`, `SlabZone`, `SlabSpace`, `Slab`: the page allocator and the slab allocator on top of it.
- `TimerOrder`, `TimerQueue`: the hard timer list, a skip list ordered by wrapping 32-bit ticks. True
  time and true deadlines are unbounded ghost state.
- `WaitList`, `Mailbox`, `MessageQueue`, `MessageRuns`, `Mutexes`, `Events`: the IPC objects with their
  waiting threads; `MessageRuns` has what holds over whole runs of a message queue.
- `ReadyBits`, `Scheduler`: the ready bitmap, the ready lists and round robin.
- `Sequences`, `Words`: what the modules share about lists without repetition and machine words.

Runs are given by a function: what one event does is a function of the state before it and the event
(`Next` in `Mailbox`, `MessageQueue`, `Mutexes`, `Events` and `Scheduler`), a run is that function over a
sequence of events (`Traced`), and the code is proved to do just that, event by event, with the promises
proved of every such run: what comes out is what was called for (`AcceptedIsSent`, `LinkedIsSent`,
`GivenIsTaken`, `ReportedIsAsked`, `RunBalances`), in the right order, and none is lost. Priorities may change
between the events of a run.

Where a natural property fails, the code is kept as it is and the exact condition is proved, with an
input or a run that fails it: mixed operand widths in the shell (`OperandWidthExact`, `AssignCharExact`,
`DerefCharExact`, `AssignAtCharExact`, `LineGoesWrong`), the fitting block that `rt_malloc` passes over
(`BoundExcludes`, `NoFitFromLowest`, `WholeHeapRefused`), the lowest-free pointer after `rt_realloc`
(`Shrink` and `Realloc` in `SmallHeap`, `ShrinkUndercuts`), priority inheritance outside its safe use
(`RunExact`, `OwnRunExact` and the four runs after them), a one-shot timer that restarts itself (`Fire`,
`OneShotRestarts`), alignment of chunks above a page (`ChunksAligned`, `OddZone`).

## Model

| member | source | states |
|---|---|---|
| `FinshMachine.ToWordOfFromInt` | components/finsh/finsh.h:42-60 | splitting a 32-bit number into little-endian bytes and joining them again is the identity |
| `FinshMachine.LoadOfStore` | components/finsh/finsh_ops.c:327-434 | a load after a store of the same width returns the stored low bytes; no other byte of memory changes |
| `FinshMachine.ArithIsExact` | components/finsh/finsh_ops.c:54-162 | where the mathematical result fits the operand width, each arithmetic operator computes it, with sign and operand order as in C |
| `FinshMachine.DivModLaw` | components/finsh/finsh_ops.c:99-140 | quotient and remainder satisfy the C law: truncation toward zero, remainder with the sign of the dividend |
| `FinshMachine.ArithBits` | components/finsh/finsh_ops.c:54-293 | bit by bit, at every width and with whatever overflow: sums, differences and products have the low bits of the mathematical result, and, or and exclusive or work on each bit alone, shifts move bits by the count and are undefined exactly outside 0 to 31 |
| `FinshMachine.ComplementBits` | components/finsh/finsh_ops.c:231-250 | the complement flips every bit of the width |
| `FinshMachine.StoredBits` | components/finsh/finsh_ops.c:404-434 | a stored value lies in memory with its least significant byte first |
| `FinshMachine.ArithOfLow` | components/finsh/finsh_ops.c:32-45 | an operator of a width depends only on the low bytes of its operands that the width covers |
| `FinshCompiler.OnLiterals` | components/finsh/finsh_ops.c:32-45 | an operator on two literals is the operator on their values, left operand first |
| `FinshCompiler.LeftComesFirst` | components/finsh/finsh_compiler.c:43-757 | the left operand is evaluated before the right one: v - ++v is -1 for every 32-bit variable |
| `FinshCompiler.AssignedIsRead` | components/finsh/finsh_compiler.c:311-370 | after an assignment the variable holds the low bytes of the value, and no other byte has changed |
| `FinshCompiler.StepsByOne` | components/finsh/finsh_compiler.c:373-713 | increment and decrement leave the variable one up or down in the bits of its width; the prefix form has the new value, the postfix form the old one |
| `FinshCompiler.ThroughAddress` | components/finsh/finsh_compiler.c:718-755 | reading and writing through the address of a variable is reading and writing the variable |
| `FinshProof.TreeCode` | components/finsh/finsh_compiler.c:43-757 | type checking the tree of any supported expression and walking it emits the code the expression stands for, between the code of its siblings |
| `FinshProof.EvalKeepsKeys` | components/finsh/finsh_ops.c:404-434 | evaluation never changes which addresses are mapped |
| `FinshStale.BumpInstrs` | components/finsh/finsh_compiler.c:373-713 | the increment and decrement sequence loads, steps and stores the variable at its width through the address below, in the cells it uses |
| `FinshStale.RunOn` | components/finsh/finsh_compiler.c:43-757 | for every supported expression at any mix of widths, every memory and every old contents of the stack: the code does exactly what evaluation over those cells does, faults included |
| `FinshStale.SafeOn` | components/finsh/finsh_ops.c:32-441 | if no operator reads more of an operand than was written, evaluation over the cells is plain evaluation, whatever the cells held |
| `FinshStale.RunExpr` | components/finsh/finsh_compiler.c:43-901 | semantic preservation: with safe widths the code of an expression pushes one cell equal to its left-to-right value and leaves the evaluated memory, or faults exactly when evaluation is undefined |
| `FinshShell.StatementsCode` | components/finsh/finsh_compiler.c:903-937 | the compiler's output on a statement list is the code of each statement with a pop after every one but the last |
| `FinshShell.RunStatements` | components/finsh/finsh_compiler.c:903-937 | running a statement list leaves only the last value above the stack as it was, and the memory of evaluating all in order |
| `FinshShell.RunStatementsOn` | components/finsh/finsh_compiler.c:903-937 | for every statement list at any mix of widths, the code does exactly what evaluating the statements in turn over the cells of the stack does |
| `FinshShell.RunPadding` | components/finsh/finsh_vm.c:47-72 | the zero bytes behind the code leave the state alone up to the end of the text segment |
| `FinshShell.OperandWidthExact` | components/finsh/finsh_ops.c:32-45 | an operator of a width ignores stale bytes of its right operand if and only if that operand is at least as wide |
| `FinshShell.AssignCharExact` | components/finsh/finsh_compiler.c:311-370 | assigning a character to a variable stores what evaluation says if and only if the stale bytes above it are zero |
| `FinshShell.DerefCharExact` | components/finsh/finsh_compiler.c:718-741 | going through a character as an address reaches that address if and only if the stale bytes are zero; otherwise it loads from, or faults at, another |
| `FinshShell.AssignAtCharExact` | components/finsh/finsh_compiler.c:311-370 | storing through a character as an address reaches that address if and only if the stale bytes are zero |
| `FinshShell.LineGoesWrong` | components/finsh/finsh_compiler.c:903-937 | the line v = x; v = c, with c a character, leaves x with its low byte replaced, from every memory and stack; right if and only if x has no other byte set |
| `FinshShell.Shell.Put` | components/finsh/finsh_compiler.c:36-41 | appends to the text segment in place and leaves every other byte alone |
| `FinshShell.Shell.Compile` | components/finsh/finsh_compiler.c:43-757 | the recursive walk appends exactly the specified code of the tree |
| `FinshShell.Shell.CompilerRun` | components/finsh/finsh_compiler.c:903-937 | the text segment holds the code of all statements followed by zeros; of the stack only cell 0 is cleared |
| `FinshShell.Shell.DoBin` | components/finsh/finsh_ops.c:32-45 | a binary operation on the stack array is the machine's step, faults included |
| `FinshShell.Shell.DoNot` | components/finsh/finsh_ops.c:231-250 | bitwise complement on the stack array is the machine's step |
| `FinshShell.Shell.DoLd` | components/finsh/finsh_ops.c:297-325 | loading an operand from the text segment is the machine's step |
| `FinshShell.Shell.DoLdValue` | components/finsh/finsh_ops.c:327-387 | loading from an address operand is the machine's step |
| `FinshShell.Shell.DoLdValueStack` | components/finsh/finsh_ops.c:341-397 | loading through the address on the stack is the machine's step |
| `FinshShell.Shell.DoSt` | components/finsh/finsh_ops.c:404-434 | storing through the address below the top is the machine's step |
| `FinshShell.Shell.DoPop` | components/finsh/finsh_ops.c:437-441 | popping is the machine's step |
| `FinshShell.Shell.Dispatch` | components/finsh/finsh_vm.c:63-71 | fetching and executing one opcode is one step of the machine |
| `FinshShell.Shell.VmRun` | components/finsh/finsh_vm.c:47-72 | the fetch loop runs the text segment to its end, from an empty stack |
| `FinshShell.Shell.RunLine` | components/finsh/finsh_compiler.c:903-937 | end to end: compiling and running any supported line leaves the memory and the stack of evaluating it over the old stack; with safe widths that is one cell, the value of the last statement, and the memory of plain evaluation, and it fails exactly when that is undefined |
| `Ring.Unlinked` | include/rtservice.h:100-106 | unlinking a node leaves a circular list of the other nodes, in order, with matching next and prev |
| `Ring.Inserted` | include/rtservice.h:72-79 | inserting a node behind another leaves a circular list with the node in that place |
| `HeapLayout.TakeIsProper` | src/memheap.c:195-243 | splitting a free block keeps the exact tiling and no two free neighbours, costs the request and a header, and exchanges one free block for another |
| `HeapLayout.MarkIsProper` | src/memheap.c:244-265 | serving a whole block keeps the tiling and takes just its payload from the free bytes |
| `HeapLayout.ReleaseIsProper` | src/memheap.c:536-592 | releasing with merges on either side keeps the tiling maximal, and gains the payload and a header per merge |
| `HeapLayout.CarveIsProper` | src/memheap.c:332-489 | resizing in place, up into or down before a free neighbour, keeps the tiling maximal and the free bytes right |
| `HeapLayout.TakeKeepsLive` | src/memheap.c:195-243 | every live block survives a split at its size, outside the header written, and the new block was not live |
| `HeapLayout.MarkKeepsLive` | src/memheap.c:244-265 | every live block survives serving a whole block |
| `HeapLayout.ReleaseKeepsLive` | src/memheap.c:536-592 | every other live block survives a release with its merges |
| `HeapLayout.CarveKeepsLive` | src/memheap.c:332-489 | every other live block survives resizing in place, outside the header written |
| `HeapLayout.ReleaseUndoesTake` | src/memheap.c:499-596 | releasing what was just taken, split or whole, restores the layout |
| `MemHeap.Heap.constructor` | src/memheap.c:60-131 | the pool starts as one free block and the used tail, with both rings and the counters right |
| `MemHeap.Heap.UnlinkFree` | src/memheap.c:222-226 | the free ring loses one node and stays a ring |
| `MemHeap.Heap.LinkFree` | src/memheap.c:228-232 | the free ring gains a node at its front and stays a ring |
| `MemHeap.Heap.InsertBlock` | src/memheap.c:216-220 | the block ring stays in address order after a header is put in |
| `MemHeap.Heap.RemoveBlock` | src/memheap.c:550-552 | the block ring stays in address order after a header is taken out |
| `MemHeap.Heap.FindFit` | src/memheap.c:176-187 | the walk of the free ring finds the first block in list order that is large enough, or all are smaller |
| `MemHeap.Heap.SplitBlock` | src/memheap.c:195-243 | refines splitting on the layout and keeps all invariants; overwrites only the bytes of the new header |
| `MemHeap.Heap.TakeWhole` | src/memheap.c:244-265 | refines serving a whole block and keeps all invariants |
| `MemHeap.Heap.Alloc` | src/memheap.c:146-288 | null exactly if the rounded size is not below the available size or every free block is smaller; otherwise first fit in list order, a block not live before that holds at least the rounded size and less than a header and the smallest block more; every live block keeps its bytes; the high-water mark is right |
| `MemHeap.Heap.MergeLeft` | src/memheap.c:536-558 | the block is marked free and joined to a free left neighbour, with the bytes accounted |
| `MemHeap.Heap.MergeRight` | src/memheap.c:560-579 | a free right neighbour is joined and leaves both rings |
| `MemHeap.Heap.Free` | src/memheap.c:499-596 | refines releasing: tiling, rings, marks and counters stay right, the block is dead, every other live block keeps its bytes |
| `MemHeap.Heap.Grow` | src/memheap.c:354-405 | growing into the free block behind moves its header up; rings, marks and counters stay right |
| `MemHeap.Heap.AbsorbRight` | src/memheap.c:458-477 | the split-off block swallows a free right neighbour |
| `MemHeap.Heap.Shrink` | src/memheap.c:436-489 | cutting a block down frees the rest, merged; rings, marks and counters stay right |
| `Payload.CopyBytes` | src/memheap.c:416 | the bytes now at the destination are those that were at the source, and no other byte changes |
| `Payload.MoveKeeps` | src/memheap.c:412-420 | allocating, copying and freeing moves the payload and leaves the bytes of every other live block alone |
| `Payload.CarveKeeps` | src/memheap.c:332-489 | resizing in place keeps the common prefix of the payload and the bytes of every other live block |
| `Payload.ReleaseFrees` | src/memheap.c:536-592 | after a release nothing is live at its address, and every other live block has its bytes |
| `MemHeap.Heap.Move` | src/memheap.c:412-420 | the block moves to a place not live before with its payload, or nothing changes |
| `MemHeap.Heap.Realloc` | src/memheap.c:291-496 | in place exactly if it fits or the free neighbour is large enough; otherwise moved, or null with everything intact; keeps the first min(old, new) bytes; the block then holds at least the rounded size and at most a header and the smallest block more; resized in place it holds exactly that size and the available size grows by what it gives up, unless too little is left to split, when nothing changes; every other live block's bytes stay |
| `MemHeap.Heap.AllocThenFree` | src/memheap.c:146-596 | freeing a just-allocated block restores the tiling and the available size |
| `Payload.LiveDisjoint` | src/memheap.c:146-596 | two live payloads never overlap |
| `SmallHeap.UsedOfTake` | src/mem.c:350-354 | a split adds the request and a header to the used bytes |
| `SmallHeap.UsedOfMark` | src/mem.c:366-370 | marking a block used or free changes the used bytes by its whole length |
| `SmallHeap.ReleaseIsPlugged` | src/mem.c:157-195 | plugging holes to the right, then to the left, is the release of the layout |
| `SmallHeap.CarveIsPlugged` | src/mem.c:472-494 | splitting off the end of a block and plugging is the resize of the layout |
| `SmallHeap.JoinedLowest` | src/mem.c:166-194 | moving the lowest-free pointer with a merge keeps it on a free block, and keeps it lowest |
| `SmallHeap.Heap.constructor` | src/mem.c:205-258 | one free block and the end header; nothing used; the pointer at the lowest free block |
| `SmallHeap.Heap.Plug` | src/mem.c:157-195 | merges a free block with its free neighbours, keeps links and used bytes, and the pointer free or at the end, and lowest if it was |
| `SmallHeap.Heap.Search` | src/mem.c:306-313 | finds the first block from the lowest free one on that the bound admits, or none is left but blocks too small or a last exact fit |
| `SmallHeap.Heap.Split` | src/mem.c:317-355 | refines splitting on the layout; links and used bytes stay right |
| `SmallHeap.Heap.TakeWhole` | src/mem.c:356-371 | refines serving a whole block; used bytes stay right |
| `SmallHeap.Heap.Advance` | src/mem.c:381-388 | moves the pointer to the next free block or the end, the lowest if all before are used |
| `SmallHeap.Heap.Malloc` | src/mem.c:273-411 | null exactly if the size is zero or too large or no block from the lowest free one on fits; first fit by address; the block holds at least the rounded size and less than a header and the smallest block more; live blocks stay; the lowest-free pointer stays lowest; the high-water mark is right |
| `SmallHeap.NoFitFromLowest` | src/mem.c:306-313 | with the pointer lowest, failing means every free block is too small or is the last one and fits exactly |
| `SmallHeap.BeyondBound` | src/mem.c:307 | every block beyond the search bound is used, too small, or the last one and fits exactly |
| `SmallHeap.BoundExcludes` | src/mem.c:307 | of the blocks large enough, the bound excludes exactly a last one that fits exactly |
| `SmallHeap.WholeHeapRefused` | src/mem.c:306-313 | on every fresh heap a request for all of it is refused although the one free block holds just that |
| `SmallHeap.ShrinkUndercuts` | src/mem.c:472-499 | after two allocations, shrinking the first leaves the lowest-free pointer above a free block |
| `SmallHeap.Heap.Free` | src/mem.c:549-611 | refines releasing: tiling, links, used bytes and the lowest-free pointer stay right; other live blocks keep their bytes; a pointer from outside the heap area changes nothing |
| `SmallHeap.Heap.Shrink` | src/mem.c:472-499 | refines resizing; the pointer stays lowest if and only if it was below the block or at the free block behind it |
| `SmallHeap.Heap.Move` | src/mem.c:502-510 | the block moves to a place not live before with its payload, or there is no fit and nothing changes |
| `SmallHeap.Heap.Realloc` | src/mem.c:422-511 | stays in place exactly if it fits exactly or the rest makes a block, and then holds exactly the rounded size with the used bytes lowered by the rest; otherwise moves, or null with everything intact exactly if nothing fits; keeps the first min(old, new) bytes and every other live block's; the lowest-free pointer stays lowest if and only if the call does not free memory below it |
| `PageList.OneRun` | src/slab.c:246-280 | consecutive free pages always lie in one run |
| `PageList.TooShortMeansNoRoom` | src/slab.c:246-280 | no run is long enough if and only if there are not that many free pages in a row |
| `PageList.TakenIsProper` | src/slab.c:256-274 | taking pages from a run keeps the list sorted, disjoint and maximal, and removes exactly those pages |
| `PageList.FreedIsProper` | src/slab.c:296-327 | freeing pages with merges keeps the list sorted, disjoint and maximal, and adds exactly those pages |
| `PageList.FreedUndoesTaken` | src/slab.c:246-332 | freeing the pages just taken restores the list |
| `PageList.Pages.constructor` | src/slab.c:337-344 | the page list starts empty |
| `PageList.Pages.Alloc` | src/slab.c:246-280 | fails exactly if no page is asked for or there is no run of that many free pages; otherwise the lowest such pages leave the list and no other |
| `PageList.Pages.GrowRun` | src/slab.c:301-310 | the run before the freed pages grows over them and over the run behind them |
| `PageList.Pages.Free` | src/slab.c:282-332 | adds exactly the freed pages and keeps the list sorted and coalesced |
| `SlabZone.ChunkLeast` | src/slab.c:411-469 | a chunk is the least multiple of the granularity around the request that holds it |
| `SlabZone.IndexGivesSize` | src/slab.c:411-469 | the zone index is in range and determines the chunk size, also where two granularities meet |
| `SlabZone.SameListSameSize` | src/slab.c:411-469 | two requests are served from one list if and only if they get the same chunk size |
| `SlabZone.LittleWaste` | src/slab.c:411-469 | rounding loses less than eight bytes or an eighth of the request |
| `SlabZone.LiveDisjoint` | src/slab.c:571-583 | live chunks of a zone do not overlap |
| `SlabZone.OpenedIsSound` | src/slab.c:655-663 | a new zone has exactly its first chunk live |
| `SlabZone.TakeIsSound` | src/slab.c:556-583 | taking a chunk keeps the free count equal to the never issued plus the listed chunks, and makes exactly one chunk live that was not |
| `SlabZone.GiveIsSound` | src/slab.c:859-875 | giving a chunk back keeps the count and kills exactly that chunk |
| `SlabZone.AllFreeMeansNoneLive` | src/slab.c:883-884 | the free count never exceeds the chunks, and equals them if and only if no chunk is live |
| `SlabZone.OffsetIsLeast` | src/slab.c:643-653 | chunks begin at the first multiple behind the header of a power-of-two chunk size, or else of eight |
| `SlabZone.ChunksFit` | src/slab.c:643-663 | a zone holds at least three chunks and all of them end inside it |
| `SlabZone.AlignedWithZone` | src/slab.c:646-653 | power-of-two chunks are aligned to their size if and only if their zone is |
| `Slab.Heap.ChunksAligned` | src/slab.c:646-663 | in every reachable heap, power-of-two chunks of up to a page are aligned to their size, and larger ones if and only if the page number of their zone is |
| `Slab.OddZone` | src/slab.c:617-653 | a chunk of two pages that is not aligned: the only zone of this heap begins on page 1 |
| `SlabSpace.BlocksDisjoint` | src/slab.c:488-682 | no two live blocks overlap, small or large |
| `SlabSpace.ListsTaken` | src/slab.c:554-563 | after a chunk is taken, each list still holds exactly the zones of its index with free chunks |
| `SlabSpace.ListsGiven` | src/slab.c:871-875 | after a chunk comes back, each list still holds exactly the zones of its index with free chunks |
| `SlabSpace.ListsSpared` | src/slab.c:883-901 | after a zone is retired, each list still holds exactly the zones of its index with free chunks |
| `SlabSpace.ListsOpened` | src/slab.c:665-667 | after a zone is opened, each list still holds exactly the zones of its index with free chunks |
| `SlabSpace.LiveOnce` | src/slab.c:824-857 | a chunk is a chunk of one zone only and of no large block |
| `Slab.Heap.constructor` | src/slab.c:354-405 | no block is live, all lists are empty, and the pages of the heap are those on the page list |
| `Slab.Heap.TakeChunk` | src/slab.c:554-592 | hands out a chunk of the first zone of the list that was not live; every other block stays live at its size |
| `Slab.Heap.MarkZone` | src/slab.c:630-637 | memusage leads from every page of the new zone back to its first |
| `Slab.Heap.GetZone` | src/slab.c:605-638 | a spare zone, or fresh pages that belonged to nobody; null only with neither |
| `Slab.Heap.NewZone` | src/slab.c:602-674 | opens a zone and hands out its first chunk, every other block staying live at its size; fails exactly with no spare zone and no run of pages |
| `Slab.Heap.AllocLarge` | src/slab.c:508-536 | a large block of whole pages that belonged to nobody, every other block staying live at its size; fails exactly with no run of that many |
| `Slab.Heap.Malloc` | src/slab.c:488-682 | null exactly if nothing is asked for, or no page run serves a large request, or no zone with a free chunk, no spare zone and no page run serves a small one; otherwise exactly one more block is live, of a size at least the request and at most a page, seven bytes or an eighth above it, and every other block keeps its size; no page is lost |
| `Slab.Heap.AliveDisjoint` | src/slab.c:488-933 | blocks in use never overlap |
| `Slab.Heap.FreeLarge` | src/slab.c:826-849 | exactly the pages of the block go back to the page list, and every other block stays live at its size |
| `Slab.Heap.GiveChunk` | src/slab.c:859-875 | exactly that chunk dies; counts and lists stay right |
| `Slab.Heap.ReleaseZone` | src/slab.c:905-929 | exactly the pages of the zone go back to the page list; nothing live is touched |
| `Slab.Heap.RetireZone` | src/slab.c:883-930 | a zone without live chunks becomes the first spare one, or its pages go back to the page list if two are spare already |
| `Slab.Unhook` | src/slab.c:891-894 | the walk removes exactly the zone from its list |
| `Slab.FindOwner` | src/slab.c:824-857 | memusage leads from every live pointer to its large block or its zone |
| `Slab.Heap.Free` | src/slab.c:791-933 | exactly that block dies; the pages of a large block go back, a chunk goes to its zone, and a zone that became empty is retired exactly if another has free chunks; of the pages of the heap, exactly those without an owner stay on the page list |
| `TimerOrder.SubOfWrapped` | src/timer.c:356-360 | unsigned subtraction of wrapped ticks gives the true difference, wrapped |
| `TimerOrder.LaterIsBreak` | src/timer.c:356-363 | the 32-bit test of the insertion scan decides the order of the true deadlines |
| `TimerOrder.ArrivedIsSmall` | src/timer.c:506-510 | the 32-bit test of the expiry check decides whether the true deadline has come |
| `TimerOrder.InsertedSorted` | src/timer.c:339-388 | a timer started last, put where its deadline cuts the row, keeps it sorted with ties in start order |
| `TimerOrder.SortedIsUnique` | src/timer.c:488-546 | a row sorted by deadline and start order is determined by its timers |
| `TimerOrder.LinearScanCuts` | src/timer.c:339-367 | a plain scan stops where the deadline cuts the row |
| `TimerOrder.ContainedIsSubsequence` | src/timer.c:376-388 | of two sorted rows, one containing the other, the smaller is a subsequence |
| `TimerQueue.Timers.constructor` | src/timer.c:671-679 | all rows empty, at any tick and insert counter |
| `TimerQueue.Timers.Remove` | src/timer.c:123-131 | the timer leaves every row |
| `TimerQueue.Timers.ScanRow` | src/timer.c:342-364 | the scan of a row stops exactly where the true deadline cuts it |
| `TimerQueue.Timers.Search` | src/timer.c:339-367 | the descending search finds in every row the cut of the true deadline, in the bottom row that of a plain scan, for every number of levels |
| `TimerQueue.Timers.Link` | src/timer.c:373-388 | for every insert counter the timer enters the bottom row and an unbroken stretch of rows above it |
| `TimerQueue.Timers.Insert` | src/timer.c:320-390 | the timer gets its deadline and its place; rows stay sorted and nested |
| `TimerQueue.Timers.Start` | src/timer.c:294-409 | the bottom row is the old one without the timer, with it inserted where its true deadline cuts, across any number of tick wrap-arounds |
| `TimerQueue.Timers.Stop` | src/timer.c:419-442 | a timer that is active leaves the list; for one that is not, listed or not, the call is refused and changes nothing |
| `TimerQueue.RowsAreSubsequences` | src/timer.c:376-388 | each skip-list row is a subsequence of the row below |
| `TimerQueue.RowsInserted` | src/timer.c:376-388 | inserting at the cuts of the lower rows keeps all rows sorted and nested |
| `TimerQueue.Timers.Fire` | src/timer.c:510-537 | the first timer runs its function, which may start and stop any timer, itself included; afterwards it is listed, one period from now, if and only if its function left it started or it is periodic and its function did not stop it, and active if and only if it is listed and periodic; every other timer is as the last command on it says |
| `TimerQueue.Timers.Check` | src/timer.c:488-546 | terminates with nothing due listed; what fired was due and came in order of true deadline and start; each that fired and that no other function acted on is listed and active as its own function left it; every other timer is as the last command of the functions that ran says, and as it was if none |
| `TimerQueue.DrainedAll` | src/timer.c:488-546 | everything due fires unless the timeout function of another timer stopped or restarted it; if none did, exactly the due prefix of the list fires |
| `TimerQueue.Timers.Tick` | src/clock.c:83-105 | one tick fires exactly what has become due, in order, leaves only later deadlines, and carries out the commands of the timeout functions |
| `TimerQueue.DoneThen` | src/timer.c:488-546 | the commands of two timeout functions run one after the other come to what both together say, the later one deciding |
| `TimerQueue.OneShotRestarts` | src/timer.c:525-536 | a run in which a one-shot timer starts itself again from its function: it is listed but not active, and stopping it is refused |
| `WaitList.Suspend` | src/ipc.c:92-135 | suspending adds exactly the thread to the list |
| `WaitList.SuspendByUrgency` | src/ipc.c:105-131 | a list in priority order stays so |
| `WaitList.RankIsFirst` | src/ipc.c:110-122 | the walk stops before the first less urgent thread, behind all equally urgent ones |
| `WaitList.SuspendedWhere` | src/ipc.c:92-135 | in arrival order the thread is last; in priority order it is behind all as urgent and before the first less urgent one; the others keep their order |
| `WaitList.RemovedBetween` | src/thread.c:714-735 | a thread that leaves a list leaves the others in their order |
| `WaitList.Place` | src/ipc.c:92-135 | the walk puts the thread where the order says |
| `WaitList.RemoveByUrgency` | src/thread.c:714-735 | a list in priority order stays so when a thread leaves it |
| `Mailbox.StoredPut` | src/ipc.c:1503-1509 | a mail written at the in-offset is appended to the stored ones, wrap-around included |
| `Mailbox.Box.constructor` | src/ipc.c:1259-1287 | an empty mailbox with every thread outside |
| `Mailbox.Box.Put` | src/ipc.c:1503-1509 | appends to the stored mails; in-offset stays out-offset plus entry around the ring |
| `Mailbox.Box.Get` | src/ipc.c:1650-1657 | takes the oldest stored mail |
| `Mailbox.Box.WakeReceiver` | src/ipc.c:1511-1514 | the first suspended receiver is resumed and no other |
| `Mailbox.Box.WakeSender` | src/ipc.c:1659-1662 | the first suspended sender is resumed and no other |
| `Mailbox.Box.Send` | src/ipc.c:1410-1528 | with room the mail goes behind the others and exactly the first waiting receiver is woken; else the thread goes to its place among the senders with its mail, or reports full and nothing changes; keeps the mailbox valid |
| `Mailbox.Box.SendAgain` | src/ipc.c:1432-1522 | a woken sender sends the mail it came with if there is room, else waits again with it or reports full; no wakeup is lost |
| `Mailbox.Box.Recv` | src/ipc.c:1557-1680 | takes the oldest mail if there is one and wakes exactly the first waiting sender, else goes to its place among the receivers or times out |
| `Mailbox.Box.RecvAgain` | src/ipc.c:1577-1672 | a woken receiver takes a mail if one is left, else waits again or times out with the error noted; no wakeup is lost |
| `Mailbox.Box.Timeout` | src/thread.c:714-735 | the thread leaves its list with a timeout error; no wakeup is lost |
| `Mailbox.Box.Fail` | src/ipc.c:1482-1487 | a thread resumed by a timeout or a reset returns that error |
| `Mailbox.Box.Reset` | src/ipc.c:1692-1721 | empties the mailbox and its lists; every waiting thread is resumed with an error, and no other thread changes |
| `Mailbox.Box.Step` | src/ipc.c:1410-1721 | every event does exactly the one specified thing to the mails, the lists and the threads |
| `Mailbox.Box.Run` | src/ipc.c:1410-1721 | every interleaving is, event by event, the specified run; without a reset, stored plus accepted mails are delivered plus stored ones, in order, none lost or duplicated; while threads wait, mails and free slots are all promised to woken threads |
| `Mailbox.NextFlows` | src/ipc.c:1410-1721 | an event appends the mail it accepts, takes the one it delivers from the front, empties on a reset, and otherwise leaves the mails alone; never more than fit |
| `Mailbox.TraceIsFifo` | src/ipc.c:1503-1657 | over every run without a reset the mailbox is a first-in first-out queue |
| `Mailbox.FifoSinceReset` | src/ipc.c:1692-1721 | after the last reset of a run, what is delivered is what was accepted since, in order |
| `Mailbox.AcceptedIsSent` | src/ipc.c:1410-1528 | over every run, what is accepted from a thread is the value of its last send, however often it waited |
| `Mailbox.SendThenReceive` | src/ipc.c:1500-1526 | a mail sent to an empty mailbox is delivered to the first thread that waits for one |
| `Mailbox.ReceiveThenSend` | src/ipc.c:1638-1672 | a mail taken from a full mailbox lets the first waiting sender store the mail it has |
| `Mailbox.TimedOutReturns` | src/thread.c:714-735 | a call whose time is up returns the timeout; the mails stay and the thread is off its list |
| `Mailbox.ResetReturns` | src/ipc.c:1692-1721 | after a reset every thread that waited returns an error |
| `Mailbox.Box.QuietMeansBlocked` | src/ipc.c:1432-1672 | with no wakeup outstanding, receivers wait only on an empty and senders only on a full mailbox |
| `MessageQueue.NodeMove` | src/ipc.c:1930-2227 | moving a node between free, queued and held keeps every node in exactly one place with one holder |
| `MessageQueue.Queue.constructor` | src/ipc.c:1744-1791 | all nodes of the pool are on the free chain, once each, and every thread is outside |
| `MessageQueue.Queue.Acquire` | src/ipc.c:1940-1962 | takes a free node out of sight of everybody else; full or too long messages change nothing |
| `MessageQueue.Queue.CopyIn` | src/ipc.c:1966-1967 | the node begins with exactly the message the send was called with, the bytes behind it and every other node stay, and the thread keeps message and urgency; the queue is not affected |
| `MessageQueue.Queue.LinkTail` | src/ipc.c:1964-1985 | the node becomes the last of the queue; tail and entry stay right |
| `MessageQueue.Queue.LinkHead` | src/ipc.c:2058-2067 | the node becomes the first of the queue; tail and entry stay right |
| `MessageQueue.Queue.LinkUp` | src/ipc.c:1969-2003 | the node, which begins with the message, is appended, or prepended if urgent, and exactly the first waiting receiver is woken |
| `MessageQueue.Queue.Unlink` | src/ipc.c:2198-2208 | the front node leaves the queue for its receiver; tail and entry stay right |
| `MessageQueue.Queue.Recv` | src/ipc.c:2101-2211 | takes the front message, or suspends, or times out |
| `MessageQueue.Queue.RecvAgain` | src/ipc.c:2133-2211 | a woken receiver takes the front message if there still is one; no wakeup is lost |
| `MessageQueue.Queue.CopyOut` | src/ipc.c:2213-2214 | returns the first bytes of exactly the message that was taken, whatever ran in between: as many as asked for or the whole message, whichever is shorter |
| `MessageQueue.Queue.GiveBack` | src/ipc.c:2216-2222 | the node is free again; the queue is not affected |
| `MessageQueue.Queue.Timeout` | src/thread.c:714-735 | the receiver leaves the list with a timeout error |
| `MessageQueue.Queue.Discard` | src/ipc.c:2255-2270 | the front node goes to the free chain |
| `MessageQueue.Queue.Reset` | src/ipc.c:2240-2284 | empties the queue; every queued node is free, every waiting receiver is resumed with an error, and no other node or thread changes |
| `MessageQueue.Queue.Step` | src/ipc.c:1930-2284 | every event does exactly the one specified thing to nodes, lists and threads, and to the queue seen as a deque |
| `MessageQueue.Queue.Run` | src/ipc.c:1930-2284 | every interleaving is, event by event, the specified run, and its outputs are a run of a deque: linking a message appends it, or prepends it if urgent, a receive pops the front, a reset empties |
| `MessageQueue.RefinesThen` | src/ipc.c:1930-2284 | runs of a deque compose |
| `MessageQueue.Queue.QuietMeansEmpty` | src/ipc.c:2125-2196 | with no wakeup outstanding, a receiver waits only on an empty queue |
| `MessageRuns.NextGood` | src/ipc.c:1930-2284 | every event keeps every node in one place with one holder, and every thread in one role |
| `MessageRuns.LinkedIsSent` | src/ipc.c:1930-2070 | over every run, what enters the queue begins with the message of the last send of the thread that links it, and enters at the front exactly if that send was urgent |
| `MessageRuns.GivenIsTaken` | src/ipc.c:2198-2222 | over every run, a buffer gets the start of the very message its thread took off the queue |
| `MessageRuns.SendRuns` | src/ipc.c:1940-2003 | a send with a free node: two steps out of sight, then the message is in the queue and the first waiting receiver woken |
| `MessageRuns.ReceiveRuns` | src/ipc.c:2198-2222 | a receive: the front message is popped, copied out, and its node is free again |
| `MessageRuns.WokenRuns` | src/ipc.c:2133-2196 | a woken receiver takes the front message, or waits again, or gives up with a timeout |
| `MessageRuns.TimedOutReturns` | src/thread.c:714-735 | a receive whose time is up returns the timeout; the queue stays |
| `MessageRuns.ResetReturns` | src/ipc.c:2240-2284 | after a reset every receiver that waited returns an error |
| `Mutexes.System.constructor` | src/ipc.c:525-544 | every mutex is free, every thread runs at its own priority, and inheritance holds |
| `Mutexes.System.Take` | src/ipc.c:642-765 | nests for the owner, takes a free mutex and records the priority, else boosts the owner to the urgency of the new waiter and waits, or times out; keeps mutual exclusion, and priority inheritance unless the thread owns another mutex |
| `Mutexes.System.Wait` | src/ipc.c:703-733 | the owner becomes as urgent as the new waiter and the waiter is queued by priority |
| `Mutexes.System.LastRelease` | src/ipc.c:810-853 | the owner is put back to the priority on record, and the first waiting thread becomes the owner, held once with its priority on record, or the mutex is free; no other mutex changes |
| `Mutexes.System.Release` | src/ipc.c:776-863 | only the owner can release; a nested release lowers the count by one and changes nothing else; the last one restores the priority and hands over; keeps mutual exclusion and priority inheritance |
| `Mutexes.System.Timeout` | src/thread.c:714-735 | a waiting thread leaves exactly its list with a timeout error and is not the owner; inheritance is kept |
| `Mutexes.System.FinishTake` | src/ipc.c:741-755 | a blocked take returns without an error if and only if the thread has been made the owner |
| `Mutexes.System.Step` | src/ipc.c:642-863 | every event does exactly the one specified thing, keeps mutual exclusion and, with one mutex per thread, priority inheritance |
| `Mutexes.System.Run` | src/ipc.c:642-863 | every interleaving is the specified run; a mutex is free with no waiter or owned by one thread that does not wait for it; with priority-ordered lists and one mutex per thread, owners are as urgent as all their waiters and other threads at their own priority |
| `Mutexes.WaitInherits` | src/ipc.c:707-714 | boosting the owner restores inheritance for its mutex and disturbs no other |
| `Mutexes.HandoverInherits` | src/ipc.c:810-843 | handing over to the first of a priority-ordered list keeps inheritance |
| `Mutexes.ReleaseExact` | src/ipc.c:810-843 | after a last release nobody waits for a less urgent owner if and only if the released list had its most urgent thread first, the priority on record covers every other mutex of the thread, and the rest was right |
| `Mutexes.WaitExact` | src/ipc.c:707-719 | after waiting for a mutex nobody waits for a less urgent owner if and only if the owner does not itself wait for someone less urgent than the new waiter |
| `Mutexes.NextExact` | src/ipc.c:642-863 | an event keeps owners as urgent as their waiters if and only if it is harmless in these two ways |
| `Mutexes.RunExact` | src/ipc.c:642-863 | over every run, with any lists and any number of mutexes per thread, nobody ever waits for a less urgent owner if and only if every event is harmless at its moment |
| `Mutexes.NextReached` | src/ipc.c:642-863 | every event keeps mutual exclusion |
| `Mutexes.RunBalances` | src/ipc.c:642-863 | over every run, the hold count of a mutex is what its owner has taken and not released, and other threads have released all they took |
| `Mutexes.OwnedWhileUnbalanced` | src/ipc.c:642-863 | from the start, a thread back from its takes owns a mutex exactly while it has taken it more often than released it, by the hold count |
| `Mutexes.TakeThenRelease` | src/ipc.c:675-690 | a free mutex taken and released is as before, and so are the priorities |
| `Mutexes.ReleaseLetsIn` | src/ipc.c:824-843 | a release wakes the first waiting thread, whose take returns with the mutex its own |
| `Mutexes.TimedOutReturns` | src/thread.c:714-735 | a take whose time is up returns the timeout, with nothing changed but its place in the list |
| `Mutexes.OwnExact` | src/ipc.c:815-821 | threads without a mutex stay at their own priority if and only if no last release of a thread's only mutex finds another priority on record |
| `Mutexes.OwnRunExact` | src/ipc.c:776-863 | over every run, threads without a mutex are at their own priority throughout if and only if no event of it is a last release that leaves its thread at a borrowed one |
| `Mutexes.FifoRunInverts` | src/ipc.c:834-837 | a run from the start in arrival order after which an urgent thread waits for a less urgent owner |
| `Mutexes.NestedRunInverts` | src/ipc.c:816-821 | a run with two mutexes after which the owner has given up a boost that a waiter still needs |
| `Mutexes.ChainRunInverts` | src/ipc.c:708-714 | a run with a chain of waiters after which the boost has not been passed on |
| `Mutexes.StaleRecordRun` | src/ipc.c:685 | a run after which a thread without a mutex keeps a borrowed priority |
| `Events.ShrinkUnsatisfied` | src/ipc.c:1061-1062 | clearing bits satisfies nobody |
| `Events.SweepUnsatisfied` | src/ipc.c:1024-1071 | after a walk that clears bits as it goes, nobody left waiting is satisfied by what is left |
| `Events.SweepInOrder` | src/ipc.c:1024-1071 | the walk goes from front to back: who waits first has first choice, and those left over keep their order |
| `Events.Event.constructor` | src/ipc.c:893-910 | no events, nobody waiting, every thread running |
| `Events.Event.Satisfy` | src/ipc.c:1042-1069 | the thread is told exactly the bits it asked for that are set, and they are cleared if it wants that |
| `Events.Event.Send` | src/ipc.c:1002-1081 | the in-place walk is the specified one; everybody it passed over still has an unmet condition, everybody else is woken |
| `Events.Event.Recv` | src/ipc.c:1097-1183 | reports the requested bits that are set if all of them are, or one if one is enough, clearing exactly those on request; else waits or times out |
| `Events.Event.FinishRecv` | src/ipc.c:1185-1204 | a woken receive reports the requested bits that were set when its condition was met: all of them if all were asked for, else at least one |
| `Events.Event.Timeout` | src/thread.c:714-735 | the thread leaves with a timeout error |
| `Events.Event.Reset` | src/ipc.c:1217-1242 | no events, nobody waiting, and every thread that waited is resumed with an error |
| `Events.Event.Step` | src/ipc.c:1002-1242 | every event does exactly the one specified thing, and keeps the event set valid |
| `Events.Event.Run` | src/ipc.c:1002-1242 | every interleaving is, event by event, the specified run, and after it no suspended thread has its condition met by the current event set |
| `Events.ReportedIsAsked` | src/ipc.c:1097-1204 | over every run, the bits a receive reports answer what its thread last asked for: some of the bits, and all of them if all were asked for |
| `Events.SendLetsGo` | src/ipc.c:1024-1071 | a send that satisfies the first waiting thread lets its receive report what it asked for and is set |
| `Events.TimedOutReturns` | src/thread.c:714-735 | a receive whose time is up returns the timeout; the events stay |
| `Events.ResetReturns` | src/ipc.c:1217-1244 | after a reset no event is set and every thread that waited returns an error |
| `ReadyBits.ByteLowest` | src/kservice.c:1249-1267 | the table entry of a byte is its lowest set bit |
| `ReadyBits.FfsIsLowest` | src/kservice.c:1279-1293 | zero exactly for an empty word, else one more than the lowest set bit |
| `Scheduler.HighestIsFirst` | src/scheduler.c:205-217 | the one-level and the two-level bitmap lead to the lowest-numbered non-empty list |
| `Scheduler.BitsSet` | src/scheduler.c:316-319 | setting the masks of a thread keeps each ready bit equal to its list being non-empty |
| `Scheduler.BitsCleared` | src/scheduler.c:355-368 | clearing the masks of an emptied list keeps each ready bit right, in both levels |
| `Scheduler.Kernel.constructor` | src/scheduler.c:120-147 | all lists and bitmaps empty, every thread not yet started |
| `Scheduler.Kernel.Append` | src/scheduler.c:286-323 | the thread goes to the end of the list of its priority; bitmaps stay right |
| `Scheduler.Kernel.Detach` | src/scheduler.c:332-372 | the thread leaves its list; bitmaps stay right |
| `Scheduler.Kernel.SuspendThread` | src/thread.c:630-662 | a ready thread leaves the ready lists, the others keeping their order; others are refused |
| `Scheduler.Kernel.SuspendOn` | src/ipc.c:92-135 | a ready thread leaves its ready list for its place in that suspend list and no other |
| `Scheduler.UnlinkedIs` | include/rtservice.h:100-106 | removing the node of a thread changes only the one suspend list the thread is on |
| `Scheduler.Kernel.ResumeThread` | src/thread.c:672-705 | a suspended thread leaves its suspend list, if it is on one, and is ready as the last of its ready list, all others keeping their order; others are refused |
| `Scheduler.Kernel.TimeoutThread` | src/thread.c:714-735 | a thread whose time is up leaves its suspend list and is ready as the last of its ready list, all others keeping their order |
| `Scheduler.Kernel.OnOneList` | src/thread.c:630-735 | a thread is on at most one of all ready and suspend lists, at most once, and on a ready list exactly if it is ready |
| `Scheduler.Kernel.Run` | src/thread.c:453-735 | every interleaving of these steps is the specified run, and keeps every thread on at most one list |
| `Scheduler.ResumeUndoesSuspend` | src/thread.c:630-735 | however a ready thread is suspended and resumed, it is on no ready list in between and afterwards ready again, last of its priority, with all else as it was |
| `Scheduler.ChangedRuns` | src/thread.c:561-602 | a ready thread made more urgent than all others runs at the next switch, unless the scheduler is locked |
| `Scheduler.StartedRuns` | src/thread.c:273-304 | a thread started above all others runs at the next switch, unless the scheduler is locked |
| `Scheduler.YieldGoesOn` | src/thread.c:453-487 | the running thread yields to the next of its priority and goes behind them all |
| `Scheduler.Kernel.Startup` | src/thread.c:273-304 | a new thread is ready with the given priority, as the last of its list |
| `Scheduler.Kernel.ChangePriority` | src/thread.c:561-602 | the thread has the new priority and the state it had; if ready it is the last of the list of that priority and on no other, all others keeping their order; if not, no list changes |
| `Scheduler.Kernel.Schedule` | src/scheduler.c:191-277 | with the scheduler unlocked, the first thread of the lowest-numbered non-empty list runs |
| `Scheduler.Kernel.Yield` | src/thread.c:453-487 | the running thread goes behind the others of its priority and the first of them runs |
| `Scheduler.Kernel.Tick` | src/clock.c:83-101 | a tick is one step of round robin among the most urgent threads |
| `Scheduler.Kernel.RunTicks` | src/clock.c:83-101 | any number of ticks is that many steps of round robin |
| `Scheduler.SliceEnds` | src/clock.c:83-101 | after the rest of its slice the first thread is last, with a full slice |
| `Scheduler.TurnComes` | src/clock.c:83-101 | a thread's turn comes after exactly the ticks left to the threads before it |
| `Scheduler.BoundedWait` | src/clock.c:83-101 | that is never more than the slices of the other threads together |
| `Scheduler.Kernel.UntilTurn` | src/clock.c:83-101 | each of the most urgent ready threads runs after a number of ticks that is at most the sum of the other threads' slices |

## Left out

- Word sizes other than 32 bits: addresses and sizes are those of a 32-bit target.
- `finsh` parser, tokenizer, symbol tables, node heap, system calls, system variables, casts and strings: foreign code and text handling around the modelled fragment.
- `finsh` node attributes: the type check is a function to a new tree, not a walk that writes attributes in place.
- `finsh` variables of type void and void pointer: the code generator has no case for them, so expressions that load them are not in the fragment.
- FinshShell.Shell.RunLine: requires the code to fit the 128-byte text segment and the operands to fit the 64-cell stack, which the shell does not check.
- FinshStale.RunExpr: the plain evaluation of an expression is stated for safe widths; RunOn covers the others, and the lemmas on stale bytes show why the condition is there.
- `finsh` undefined behaviour: division by zero, shifts out of range and accesses outside mapped memory are one outcome, undefined; what a particular machine then does is not modelled.
- Heap objects: sizes are required not to wrap in 32 bits when rounded and given a header; lock failure is not modelled.
- `memheap.c` as the system heap over several heap objects, and detaching.
- MemHeap.Heap.Free: requires a live pointer, as the assertions of the source do.
- SmallHeap.Heap.Free: requires a pointer into the heap area to be live, as the assertions of the source do.
- SmallHeap.Heap.constructor: requires room for the smallest block, without which the search bound of the source wraps around.
- `slab.c` reallocation and the choice of the zone size at start-up; zone sizes of 32, 64 and 128 KiB are all covered.
- MemHeap.Heap.Realloc: one call is one step; the source gives up the heap lock between the test, the allocation, the copy and the release.
- SmallHeap.Heap.Realloc: one call is one step; the source gives up the heap lock between the test, the allocation, the copy and the release.
- MemHeap.Heap.Alloc: one call is one step; the source reads the available size before it takes the heap lock.
- Slab.Heap.Malloc: one call is one step; the source gives up the heap lock around the page allocator.
- Soft timers, timer detach and delete, and setting the tick: user callbacks run unlocked there, and detach leaves the active flag set.
- TimerQueue.Timers.Start: one step; the source enables interrupts between removing and inserting the timer.
- TimerQueue.Timers.Check: timeout functions start timers for a later tick only, and a periodic timer has a period of at least one tick; without that the drain loop need not end.
- Semaphores, memory pools and signals: easier than the objects modelled, or without a clean invariant.
- IPC detach and delete, and deleting threads that own or wait for objects: ownership is not repaired there.
- Waiting times: whether time is left when a thread runs on is a parameter of the step; the tick arithmetic is in the timer model.
- MessageQueue.Queue.LinkUp: the clearing of the node's link, done by the sender alone before the copy, is part of the linking step.
- Mutexes.System.Take: requires a nesting count below 255.
- Mutexes.System.Run: priority inheritance with every thread at its own priority is stated for threads that take one mutex at a time; RunExact and OwnRunExact cover all others.
- Event masks are sets of bit numbers, not machine words.
- Scheduler.Kernel.Schedule: requires some thread to be ready, as the idle thread always is; the bitmap of an empty system has no first bit.
- Scheduler.Kernel.SuspendOn: requires a ready thread, which the callers of the source always pass.
- List nodes: a list of threads is a sequence; that unlinking a node is removal from the sequence it is on is what Ring proves of the pointers.
- Context switching, interrupt primitives, stack checks, hooks, names and object containers.
