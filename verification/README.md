# Majorana: what the simulated cores mean

Majorana simulates one RISC-V instruction set on ever more elaborate cores: sequential MVP-1 and MVP-2, MVP-3 behind a
write-back L1D, pipelined MVP-4 and MVP-5, dual-issue MVP-6.0 and MVP-6.1. This project models them and proves that they
mean the same, or exactly when they do.

Two kinds of members stand beside each other. Functions on values say what one cycle of a unit does (`Sequential`, `Cache`,
`Mmu`, `Pipeline`, `Scoreboard`, `Control`, `OutOfOrder`, `Lockstep`); the theorems are about them. Classes update their
fields in place as the simulator's objects do (`Cache.LRUCache`, `Machine`, `PipelineUnits`, `PipelineCore`,
`SequentialCores`, `OutOfOrderUnits`), and every method is proved to do what its function says. Loops that run until a
program ends are given, as a precondition, that the sequential machine stops after n instructions, and are proved to stop.

| files | subject |
|---|---|
| `Words`, `Isa`, `Bits`, `InstructionLaws`, `MemoryLaws`, `Footprint`, `Declarations`, `Permutation` | words, instructions, what they compute, where they load and store, what they declare |
| `Cache`, `Mmu`, `Recency`, `Coherence`, `Faults`, `CoherentRun`, `CacheLaws`, `CachePrograms` | LRU cache, L1D, when the L1D is invisible, and programs that see it |
| `Sequential`, `Lockstep`, `Clocks`, `CacheClock`, `FetchLines`, `SequentialCores` | MVP-1, MVP-2, MVP-3, their clocks and the L1I |
| `Pipeline`, `PipelineUnits`, `PipelineCore`, `Draining`, `BranchTargets` | MVP-4 and MVP-5 |
| `PipelineInvariant`, `PipelineProof`, `PipelineRegisters`, `PipelineExecute`, `PipelineRun` | why they follow the sequential core |
| `PipelineGuard`, `PipelineExact`, `PipelineCovered` | the state in which they do, exactly, and programs that keep it |
| `PipelineDepartures`, `PipelineJumps`, `PipelineLoads` | programs on which they do not |
| `Latency`, `Prediction`, `PipelineClock` | how long they take, what they predict, and straight code to the cycle |
| `EndToEnd` | MVP-4 and MVP-5 against MVP-1 |
| `BufferedBus`, `Scoreboard`, `Control`, `OutOfOrder*`, `InFlight*`, `ForwardingChain` | MVP-6.0 and MVP-6.1 |
| `IssueLaws`, `Throughput` | what they issue in a cycle, and how fast they are |
| `Machine` | shared objects: buses, context, memory management unit |

All of it rests on what the instructions compute, which `InstructionLaws` and `MemoryLaws` say of a step of MVP-1 in terms of
numbers: division with remainder, sums modulo 2^32, single bits, where branches go and where loads and stores reach. The
clocks stand on their own too, with no core compared to another: what every instruction costs on MVP-1, MVP-2 and MVP-3, what
a fetch hits, how long MVP-4 and MVP-5 take over an instruction and over straight code, which jumps make them flush, and that
MVP-6 issues, executes and retires two independent instructions in every cycle.

The chain of results for the pipelines is: a turn of MVP-4 or MVP-5 follows MVP-3 with the write-back of `risc/app.go` if
and only if the state before it is guarded (`PipelineGuard.Guard`, `PipelineExact.GuardIsExact`); over guarded states whole
runs agree and end (`PipelineRun`); that write-back agrees with the plain one exactly while nothing negative is written; and
MVP-3 agrees with MVP-1 on flat memory exactly while every load and store is safe for the L1D, and where MVP-1 ends on a
bad address stops with it exactly when the L1D refuses the access too (`CoherentRun`, `Faults`). Registers agree when every
register reads the same: an absent one reads as 0.
`EndToEnd.GuardedMeansMvp1` joins them. The guard speaks of the state of the core. `PipelineCovered` has a condition on the
sequential run alone that keeps every state guarded: no lh, no taken bltu, no store past the L1D, no jump out of the program,
and, with jal about, no instruction that names ra as its destination. Real programs show what happens outside the guard.

What the code does that one would not expect, each with a lemma that shows it:

- MVP-6.1 keeps one field for the register of both ends of a forward. An instruction that receives a value and is then made
  to forward its own has the name of the received register overwritten (`proc/mvp6-1/cu.go:132-137`), and computes with the
  old value: `ForwardingChain.ChainGoesWrong` runs three dependent instructions through the core.
  `InFlightChains.UnchainedMeansMvp1` says which programs are safe from it.
- When the L1D is full, the line just fetched is written to memory, not the one that is dropped
  (`proc/mvp3/mmu.go:103-109`), so a byte stored in the dropped one is lost: `CachePrograms.VictimRun`. Lines start at the
  missed address and may overlap, so a store updates one of two copies (`CachePrograms.OverlapRun`), and a line fetched
  from memory may hide a byte that only an older one holds (`CachePrograms.WindowRun`).
- A load outside memory panics in MVP-1 and reads zeros behind its end in MVP-3, but for the addresses that
  `Faults.FaultingLoad` gives. A store outside memory panics in MVP-1 and goes into the tail of a line in MVP-3, if one
  covers it, and the final write-back cuts it off (`Faults.FaultingStore`, `CachePrograms.OutsideRun`).
- A program that runs off its end with something in ra begins again at 0, not at ra: the jump back to the loop declares the
  program counter anew (`proc/mvp1/cpu.go:31-32`, `:60-63`; `Clocks.RunsAgain`).
- The write-back of MVP-4 and MVP-5 deletes the register instead of its pending count (`risc/app.go:93-100`), so a negative
  value reads as 0: `EndToEnd.NegativeWriteIsLost`.
- `lh` and `jal` write registers they do not declare: `Footprint.WritesAreComplete`. In MVP-4 and MVP-5 the instruction
  after an lh reads the old value (`PipelineLoads.HalfIsUnseen`), and jal writes ra before an older write to it that is
  still queued (`PipelineJumps.RaIsOvertaken`).
- A load takes 50 cycles in their execute unit before its access to the L1D or to memory begins
  (`risc/risc.go:252`, `proc/mvp5/eu.go:51-57`), so 51 in all on a hit and 100 on a miss (`Latency.InstructionTakes`).
- What the branch target buffer of MVP-5 saves is the flush, not the wait for the jump: the decode unit waits for every
  jump (`proc/mvp5/du.go:14-37`), and the fetch unit turns to its target once it has run, known or not
  (`Prediction.FlushesExactly`).
- Their branch unit does not know bltu, so a taken one runs on into the instructions after it
  (`PipelineDepartures.BltuFallsThrough`), unless its target is the next instruction or, in MVP-4, the check that the last
  branch left behind is due and expects something else (`PipelineGuard.Lands`).
- A jump behind the last instruction ends MVP-1's run and panics in theirs (`PipelineJumps.JumpToEndPanics`); MVP-4 takes a
  jump to -1 for one it predicted (`PipelineJumps.MinusOneIsMissed`).
- Their ret gives the write unit one more cycle. Behind a store to memory the last result is lost
  (`PipelineDepartures.ResultIsLost`), or the panic of a store outside memory (`PipelineDepartures.ErrorIsLost`).

What the model takes as given: a program is a sequence of instructions with a map of labels; memory size, registers and
memory at the start are arbitrary unless stated; Go's walk over a map of memory changes is a parameter (`order`, `orders`)
that may be any permutation; an index out of range, a nil memory and a blocked channel are outcomes, not preconditions. In
MVP-6.1 a forwarded value belongs to one delivered instruction. In the code it is a field of the program's one copy of that
instruction (`risc/opcodes.go:65-67`), which decoding clears (`proc/mvp6-1/du.go:65-66`); the two are the same as long as an
instruction is not decoded again while an earlier delivery of it still waits to run.

## Model

| member | source | states |
|---|---|---|
| Footprint.ReadsAreComplete | risc/opcodes.go:19-33 | the outcome of an instruction and its load addresses depend only on the registers it lists as read, forwarded or not |
| Footprint.WritesAreComplete | risc/opcodes.go:598-788 | an instruction changes nothing but its declared registers, on every input, if and only if it is neither lh with a real destination nor jal to another register than ra |
| Declarations.ReadsAreNeeded | risc/opcodes.go:29-33 | and every register listed as read is read: on registers that differ there alone the instruction does something else, for every instruction with a destination, operands that differ and a number that does not decide on its own; lh, which lists its destination, is left out |
| Declarations.WritesAreMade | risc/opcodes.go:27-33 | every register declared as written is written whenever the instruction runs at all |
| Declarations.BranchesAreListed | risc/risc.go:373-391 | the unconditional branches are the instructions that always change the program counter, the conditional ones those that may or may not, but for bltu |
| InstructionLaws.SumsAndProducts | risc/opcodes.go:42-926 | add, sub and mul, with a register or a number, leave the sum, difference and product modulo 2^32 in their register and change nothing else |
| InstructionLaws.SubUndoesAdd | risc/opcodes.go:1541-1577 | two steps: a sub of what an add has added restores the first operand |
| InstructionLaws.Division | risc/opcodes.go:523-562 | div and rem leave q and r with a = b q + r, r smaller than b and of a's sign; only -2^31 / -1 wraps, to -2^31; by zero div fails and rem panics |
| InstructionLaws.Comparisons | risc/opcodes.go:1260-1389 | slt, slti and sltu leave 1 if and only if the first operand is less, as signed numbers, and else 0 |
| InstructionLaws.BitsOfLogic | risc/opcodes.go:110-146 | bit k of and, or and xor comes from bit k of both operands, for every k |
| InstructionLaws.Shifts | risc/opcodes.go:1185-1539 | sll multiplies by a power of two modulo 2^32, 0 on a negative count; sra and srl divide by it, rounding down, and panic on one |
| InstructionLaws.Constants | risc/opcodes.go:185-216 | li, lui, auipc and mv: the number, 4096 times it, that from the program counter on, and the other register |
| InstructionLaws.Branches | risc/opcodes.go:218-521 | each branch goes to its label if and only if the comparison in its name holds of the registers, and else to the next instruction, and changes nothing else; without the label it fails |
| InstructionLaws.ZeroBranches | risc/opcodes.go:261-300 | beqz likewise |
| InstructionLaws.Jumps | risc/opcodes.go:564-678 | where j, jal and jalr go, jalr to register plus number modulo 2^32, and what they leave: the next address, and for jal its own address in ra if it names another register |
| Permutation.AnyPermutation | risc/app.go:129-155 | register code whose instructions are pairwise free of the three hazards leaves the same registers, or fails, in every order |
| Bits.BytesFromLowBits | risc/bit.go:3-39 | the bit loops yield the four two's-complement bytes of the word, lowest first |
| Bits.I32FromBytes | risc/bit.go:41-74 | the bit loops yield the little-endian two's-complement word of four bytes |
| Bits.PackUnpack | risc/bit.go:3-74 | packing the bytes of a word gives the word, for all words |
| Bits.UnpackPack | risc/bit.go:3-74 | the bytes of a packed word are the bytes packed, for all bytes |
| Bits.LoadOfStored | risc/opcodes.go:713-863 | a load of stored bytes gives the word, the sign-extended low byte, or for lh the zero-extended low half |
| MemoryLaws.Loads | risc/opcodes.go:713-863 | each byte of a load is at base + offset + k modulo 2^32; what lands in the register is the signed byte, the unsigned half or the word there; outside memory it stops |
| MemoryLaws.Stores | risc/opcodes.go:1105-1624 | a store goes through exactly when its bytes, from base + offset on, are inside memory, and then puts the low bytes of its register there and changes nothing else |
| MemoryLaws.StoreThenLoad | risc/opcodes.go:823-863 | two steps: a load with the base, offset and width of the store before it reads the stored register back, cut to the width |
| Cache.LRUCache.Read | proc/comp/cache.go:46-54 | the first line that covers the address answers and moves to the front |
| Cache.LRUCache.Write | proc/comp/cache.go:56-66 | the first line that covers the address is overwritten in place; where that does not fit or no line covers it, the source panics |
| Cache.LRUCache.PushLine | proc/comp/cache.go:68-81 | a new line goes first, the last one falls out beyond the capacity, and what is returned is the last line that stays |
| Recency.OrderIsRecency | proc/comp/cache.go:46-81 | after every history the lines are strictly ordered by last hit or insertion and at most the capacity many |
| Recency.DroppedIsLeastRecent | proc/comp/cache.go:68-81 | a push drops a line only from a full cache, and it is the least recently used one |
| Recency.HitChangesNoLookup | proc/comp/cache.go:46-54 | a hit permutes the lines, and with disjoint lines changes no lookup |
| Coherence.GetAllPermutes | proc/mvp3/mmu.go:40-50 | reading several addresses only permutes the lines, and hits exactly when each address is resident |
| Coherence.MissIsCoherent | proc/mvp3/mmu.go:91-109 | a miss keeps the cache coherent with flat memory if and only if memory is up to date under the new line and wherever the dropped line was the only copy |
| Coherence.HitIsCoherent | proc/mvp3/mmu.go:61-81 | a store into the L1D keeps it coherent if and only if every other copy of a written byte already holds it |
| Coherence.BypassIsCoherent | proc/mvp3/cpu.go:65-72 | a store past the L1D keeps it coherent if and only if every resident copy of a written byte already holds it |
| CoherentRun.CachedStepAgrees | proc/mvp3/cpu.go:41-82 | where MVP-1 stops, MVP-3 stops for the same reason, unless that is a bad address which the L1D does not refuse, and then it goes on; where MVP-1 goes on, MVP-3 reaches its state with a coherent cache if and only if the step is safe |
| CoherentRun.CachedRunAgrees | proc/mvp3/cpu.go:41-82 | over any run, MVP-3 stays in MVP-1's states with a coherent cache if and only if every step is safe |
| CoherentRun.LoadOnlyRunsAgree | proc/mvp3/cpu.go:105-130 | a program without stores runs on MVP-3 exactly as on MVP-1, whatever lines overlap or are evicted, up to MVP-1's last state, and there MVP-3 stops with it unless the L1D serves a load outside memory |
| Faults.FaultingLoad | proc/mvp3/cpu.go:105-130 | where MVP-1 panics on a load outside memory, MVP-3 panics if and only if some byte is not resident and the line would start below zero or end beyond the largest address; else it goes on, on a miss with the bytes of memory and zeros behind its end |
| Faults.FaultingStore | proc/mvp3/cpu.go:61-72 | where MVP-1 panics on a store outside memory, MVP-3 goes on if and only if all its addresses are resident and the first line that covers the first one has room for the bytes, which are then in that line and nowhere else; otherwise it panics too |
| Faults.SwallowedIsDropped | proc/mvp3/mmu.go:115-122 | such a store behind the end of memory leaves the L1D coherent with memory as it was: nothing of it is written back |
| Faults.FaultIsShared | proc/mvp3/cpu.go:41-130 | over both: MVP-3 shares a panic of MVP-1 on an address if and only if the L1D refuses the access, and otherwise goes on |
| CacheLaws.LoadLeaves | proc/mvp3/cpu.go:105-130 | a load of MVP-3 changes no memory; if all its bytes are resident it only reorders the lines, and else it opens the 64 bytes at its first address, zeros behind the end, and drops a line only from a full L1D |
| CacheLaws.StoreLeaves | proc/mvp3/cpu.go:61-72 | a store opens no line; if all its bytes are resident it changes one line and no memory, and else memory and no line |
| CacheLaws.L1dIsOfTheRun | proc/mvp3/mmu.go:40-113 | over every run of MVP-3 from an empty L1D its lines are those of the least-recently-used cache of sixteen after the reads, fetched lines and stores of the run, in order, so that `Recency.DroppedIsLeastRecent` says which line falls out |
| CoherentRun.AlignedStoreIsSafe | proc/mvp3/mmu.go:52-81 | with disjoint lines a store inside one line, or clear of all, is safe |
| CoherentRun.FlushedByte | proc/mvp3/mmu.go:115-133 | after the final write-back every byte is that of the last line that holds one, and otherwise unchanged |
| CoherentRun.DisjointFlush | proc/mvp3/mmu.go:115-133 | with disjoint lines a byte is its line's after the write-back if resident, and otherwise unchanged |
| CoherentRun.FlushPublishes | proc/mvp3/mmu.go:115-133 | the write-back of a coherent cache leaves exactly the flat memory |
| CoherentRun.DirtyVictimIsLost | proc/comp/cache.go:75-79 | a coherent full cache, and a load after which a stored byte reads as 0 |
| CoherentRun.OverlapGoesStale | proc/mvp3/cpu.go:114-116 | two overlapping lines, and a store after which a load reads the old byte |
| CachePrograms.OverlapRun | proc/mvp3/cpu.go:113-121 | a program with two overlapping lines, a store into the front one and a load that brings the other to the front, whose last load reads 0 in MVP-3 and 1 in MVP-1 |
| CachePrograms.WindowRun | proc/mvp3/mmu.go:91-101 | a program of five instructions that fetches a line over a byte that only the L1D holds, and reads 0 for 1 |
| CachePrograms.VictimRun | proc/mvp3/mmu.go:103-109 | a program that stores 1, fills the L1D, and reads 0 where it stored |
| CachePrograms.OutsideRun | proc/mvp3/cpu.go:61-72 | a program on one byte of memory that stores to address 10: MVP-1 panics, MVP-3 returns |
| Machine.MemoryManagementUnit.GetFromL1D | proc/mvp3/mmu.go:40-50 | the loop reads the addresses in turn, moving lines, and gives up at the first miss |
| Machine.MemoryManagementUnit.FetchCacheLine | proc/mvp3/mmu.go:91-101 | the bytes from the address on, zeros past the end of memory |
| Machine.MemoryManagementUnit.PushLineToL1D | proc/mvp3/mmu.go:103-122 | the new line goes into the L1D and, when it was full, also to memory, cut at its end |
| Machine.MemoryManagementUnit.FetchAndRead | proc/mvp3/cpu.go:113-121 | what a missing load leaves in cache and memory, or that it panics |
| Machine.MemoryManagementUnit.Flush | proc/mvp3/mmu.go:124-133 | the repeated writes equal one write per line, front to back, and cost one memory access a line: 51 cycles in MVP-3, 50 from MVP-4 on |
| Machine.SimpleBus.Get | proc/comp/bus.go:18-26 | returns the current entry and moves the pending one up, even from an empty slot |
| Machine.TimedBus.Connect | proc/comp/bus.go:135-152 | the loop moves to the queue what the function Connect moves |
| BufferedBus.MovedIsLongest | proc/comp/bus.go:135-152 | a connect moves the longest prefix that is available and fits |
| BufferedBus.RefinesTimedFifo | proc/comp/bus.go:82-152 | over every history with cycles in order: what came out, the queue and the buffer are what went in, in order; the queue keeps its length; nothing leaves the buffer before the cycle after its addition |
| Machine.Context.WriteMemory | risc/app.go:45-49 | the changed bytes and no others, or a panic exactly when one is outside memory, after which each byte is the old one or the changed one |
| Machine.Context.AddPendingWriteRegisters | risc/app.go:66-70 | each listed register counts one more pending write |
| Machine.Context.DeletePendingWriteRegisters | risc/app.go:93-100 | each listed register counts one less, and is deleted from the registers when its value is not positive |
| Machine.Context.IsWriteDataHazard | risc/app.go:104-114 | true exactly when a listed register other than zero has a pending write |
| Machine.Context.AddPendingRegisters | risc/app.go:51-64 | the read and written registers of an instruction, but zero, count one more |
| Machine.Context.DeletePendingRegisters | risc/app.go:72-91 | they count one less, and vanish when nothing is left |
| Machine.Context.IsDataHazard3 | risc/app.go:129-155 | the list of hazards the function Hazards gives |
| Scoreboard.HazardsAreExact | risc/app.go:129-155 | a hazard is reported if and only if the register is read with a pending write, or written with a pending write or read |
| Scoreboard.IssueKeepsExact | risc/app.go:51-64 | an issue keeps each count equal to the register's occurrences among the instructions in flight |
| Scoreboard.RetireKeepsExact | risc/app.go:72-91 | so does a retirement, which releases each instruction's registers exactly once |
| Scoreboard.PendingMeansInFlight | risc/app.go:129-155 | a register is pending if and only if an instruction in flight names it |
| SequentialCores.SimpleCore.Run | proc/mvp1/cpu.go:30-66 | the loop with its restart through ra ends in the state and with the clock of the step function, or with its error |
| SequentialCores.SimpleCore.FetchInstruction | proc/mvp2/cpu.go:79-103 | the cost of a fetch and the window it leaves, for MVP-1 and MVP-2 |
| Lockstep.RunsInStep | proc/mvp2/cpu.go:36-121 | for every program MVP-2 has MVP-1's registers, memory and pc at every turn, and cycles2 + 49 hits = cycles1 + misses + data reads + data writes |
| Clocks.ClockIsPrices | proc/mvp1/cpu.go:30-97 | over every run MVP-1's clock is the sum of what it has executed at 152 a load, 102 a store, 53 any other instruction that writes a register, and 52 the rest |
| Clocks.Mvp2HitsNearLastMiss | proc/mvp2/cpu.go:79-103 | over every run of MVP-2 as built a fetch costs 1 if and only if it lies within 64 bytes, both ends included, behind the last miss, and else 51, and its clock is the sum of these prices |
| Clocks.RunsAgain | proc/mvp1/cpu.go:60-66 | a program that runs off its end with something in ra runs again from the start on the same memory and registers, ra being 0 |
| SequentialCores.CachedCore.Run | proc/mvp3/cpu.go:41-82 | the loop ends for the reason, in the state and with the clock of the timed step function, with every line written back at 51 cycles |
| CacheClock.CachesSave | proc/mvp3/cpu.go:10-18 | as long as both execute the same instructions, cycles3 + 49 (fetch, load and store hits) = cycles1 + fetch misses + 2 load misses + store misses |
| CacheClock.SafeRunSaves | proc/mvp3/cpu.go:41-130 | so they do on every run whose steps are safe for the L1D |
| FetchLines.Mvp3IsPrices | proc/mvp3/cpu.go:41-130 | over every run MVP-3's clock is the sum of its prices: 1 or 51 to fetch, to load and to store as one of the last sixteen lines holds the program counter, and the L1D all the bytes; and the L1I is the least-recently-used cache of the fetches |
| FetchLines.LinesAreOfTheRun | proc/mvp5/fu.go:33-75 | over every run of MVP-4 and MVP-5 the L1I is the least-recently-used cache of sixteen lines of the fetches begun |
| FetchLines.FetchTakes | proc/mvp5/fu.go:44-75 | a fetch is over in the turn that begins it if one of those lines holds it, and else in the fiftieth, and hands its program counter over as soon as the bus has room |
| PipelineUnits.FetchUnit.Cycle | proc/mvp5/fu.go:33-75 | a cycle of the fetch unit, its L1I and its bus is that of FetchCycle (MVP-4 is the case without cleaning) |
| PipelineUnits.DecodeUnit.Cycle | proc/mvp5/du.go:14-37 | a cycle of the decode unit is that of DecodeCycle, or indexes outside the program |
| PipelineUnits.BranchTargetBuffer.Add | proc/mvp5/btb.go:17-36 | replaces a known entry in place, and otherwise appends and drops the first when full |
| PipelineUnits.BranchTargetBuffer.Get | proc/mvp5/btb.go:38-45 | the first entry for the pc, or none |
| BranchTargets.BufferIsBoundedMap | proc/mvp5/btb.go:17-36 | after every history the buffer holds the last four insertions, unique, each with its latest target; adding again does not refresh |
| BranchTargets.GetIsLatest | proc/mvp5/btb.go:38-45 | a lookup returns the latest target of a pc among the last four insertions and nothing for any other |
| PipelineUnits.BranchUnit.Assert | proc/mvp5/bu.go:23-43 | what the branch unit expects of an instruction and where it sends the fetch unit |
| PipelineUnits.BranchUnit.ShouldFlushPipeline | proc/mvp5/bu.go:45-54 | a flush exactly when a check was due and the expectation was wrong; the check is then spent |
| PipelineUnits.BranchUnit.NotifyJumpAddressResolved | proc/mvp5/bu.go:56-60 | remembers the target, redirects the fetch unit and unblocks the decode unit |
| PipelineUnits.WriteUnit.Cycle | proc/mvp5/wu.go:13-35 | a cycle of the write unit is that of WriteCycle, or panics |
| PipelineCore.ExecuteUnit.Cycle | proc/mvp5/eu.go:28-107 | a cycle of the execute unit, over all the objects it changes, is that of ExecuteCycle |
| PipelineCore.ExecuteUnit.Run | proc/mvp5/eu.go:109-141 | running an instruction is what RunNow says: errors, return, a store that hits, and results queued with their branch resolution |
| PipelineCore.Core.DrainAll | proc/mvp5/cpu.go:93-96 | the drain loop ends, in the state and after the turns of Drain |
| PipelineCore.Core.Flush | proc/mvp5/cpu.go:121-129 | what a flush leaves in every unit |
| PipelineCore.Core.Turn | proc/mvp5/cpu.go:62-110 | one turn of the cycle loop is CycleOnce: cycles, result and state |
| PipelineCore.Core.Run | proc/mvp5/cpu.go:60-113 | when the sequential core stops after n instructions, a run through guarded states ends, for the same reason, with registers that read as its own, its cache and memory and the cache written back, in the cycles of its turns and exactly 50 a line, within 158 n + 157 cycles and 50 for each store past the L1D and each line |
| Latency.InstructionTakes | proc/mvp5/eu.go:28-106 | with no write queued before it an instruction runs in the turn in which the execute unit takes it, a load in exactly the 51st if all its bytes are resident, and else in the hundredth |
| Latency.LoadTakes | proc/mvp4/eu.go:86-104 | once it has its operands any instruction runs in that turn, a load exactly one turn later if all its bytes are resident, and else fifty |
| Latency.WaitsExactly | proc/mvp5/eu.go:62-78 | an instruction that is due, no load, runs if and only if the write bus has room and no queued write declares a register that it reads |
| Latency.EndsExactly | proc/mvp5/cpu.go:103-109 | a turn that neither fails, returns nor flushes ends the run if and only if everything is fetched and no unit or bus holds anything, a memory write under way included |
| Prediction.BufferIsOfTheRun | proc/mvp5/bu.go:56-60 | over every run the branch target buffer is that of the jumps the run has resolved |
| Prediction.FlushesExactly | proc/mvp5/bu.go:23-54 | an instruction that runs flushes if and only if it changes the program counter to another place than expected: of a branch the next instruction, of a jump -1, and nothing of one MVP-5 knows |
| Prediction.JumpFlushesUnlessKnown | proc/mvp5/btb.go:17-45 | over every run: the turn in which a jump runs flushes if and only if its program counter is not among the last four inserted by the jumps before it, or the core is MVP-4, and its target is not -1 |
| Prediction.WaitingJumpIsPredicted | proc/mvp5/bu.go:24-34 | while a known jump waits for its register the fetch unit stands at the target it had last |
| Prediction.FullBusNotesNothing | proc/mvp5/eu.go:62-70 | while the write bus is full the branch unit has not been asked |
| Prediction.FlushCosts | proc/mvp5/cpu.go:90-101 | a turn costs one cycle, and with a flush the exact time of the drain on top |
| PipelineClock.StraightCodeTakes | proc/mvp5/cpu.go:60-113 | n instructions of straight code that do not read what the one before writes take exactly 65 ((n - 1) / 16) + (n - 1) mod 16 + 53 cycles from power-up, and how many have run is known for every turn |
| Draining.DrainIsFifo | proc/mvp4/cpu.go:84-92 | for any write bus, memory writes included, the drain applies every entry in order, in exactly its time, or meets the entry that panics |
| Draining.FlushIsExact | proc/mvp4/cpu.go:110-117 | a flush leaves the drained registers and memory, nothing in flight, an empty scoreboard, and fetch at the target |
| PipelineProof.FetchDecodeKeepsInv | proc/mvp5/fu.go:33-75 | fetch and decode keep the chain of in-flight pcs that starts at the reference's pc, cut after an unresolved jump, and come closer to its next instruction; they panic only where the reference does |
| PipelineExecute.ExecuteFollows | proc/mvp5/eu.go:28-141 | in a guarded state a cycle of the execute unit stalls, or runs exactly the reference's next instruction and queues its entry, or stops for its reason |
| PipelineRun.WriteKeepsRegisters | proc/mvp4/wu.go:13-35 | a cycle of the write unit keeps what the registers read as with the write bus applied equal to the reference's, and the pending counts equal to the bus |
| PipelineRun.FlushKeepsInv | proc/mvp4/cpu.go:83-93 | the drain before a flush retires all that is queued, the branch's own entry last, and restores the invariant at the branch target |
| PipelineRun.TurnIsFollowed | proc/mvp5/cpu.go:62-110 | every turn from a guarded state runs the reference's next instruction, or lowers the rank, or ends the run for the reference's reason |
| PipelineExact.GuardIsExact | proc/mvp5/eu.go:28-141 | a turn whose instruction sees its operands follows the sequential core, as far as any register reads, if and only if the state before it is guarded: ra in order, nothing that counts stuck behind a memory write at ret, the front end at the target of a change of the pc, a store past the L1D inside memory, a fetched line not behind the queued stores |
| PipelineRegisters.OnlyUndeclaredIsUnseen | risc/app.go:104-114 | past the scoreboard an instruction sees its operands if and only if no lh has a different value queued for one of them |
| PipelineRegisters.JalSettles | risc/opcodes.go:604-619 | after jal's early write of ra every register comes to read as in program order if and only if jal names ra itself or no queued write to ra leaves another value to be read |
| PipelineRun.PipelineRefinesSequential | proc/mvp5/cpu.go:60-113 | after any number of turns from guarded states with the write bus applied every register of MVP-4 or MVP-5 reads as the reference's after as many instructions, whatever was predicted; memory so applied and the L1D are the reference's; and all this without the bus at the end |
| PipelineRun.EveryTurnKeeps | proc/mvp4/cpu.go:56-104 | while such a run goes on: with the write bus applied registers read as the reference's and memory is its memory, the L1D is its L1D, pending counts are exactly the declared writes on the bus, and what the execute unit and its bus hold is what the reference executes next |
| PipelineRun.PipelineTerminates | proc/mvp4/cpu.go:56-104 | when the reference stops after n instructions so does such a run, in its state, within 158 n + 157 cycles and 50 for each store past the L1D |
| PipelineCovered.CoveredRunIsGuarded | proc/mvp5/cpu.go:60-113 | a covered run of the sequential core keeps every state of the pipelines guarded, with at most one write queued |
| PipelineCovered.CoveredTerminates | proc/mvp5/cpu.go:60-113 | so the pipelines stop as a covered sequential run does, within 158 n + 157 cycles |
| PipelineDepartures.BltuFallsThrough | proc/mvp5/bu.go:23-43 | a program with a taken bltu after which both cores run on, and hold another value than the reference |
| PipelineDepartures.ResultIsLost | proc/mvp5/cpu.go:80-88 | a store past the L1D, an li and a ret after which the register is unchanged in both cores |
| PipelineDepartures.ErrorIsLost | proc/mvp5/cpu.go:80-88 | a store outside memory behind one inside, on which the reference fails and both cores return |
| PipelineJumps.JumpToEndPanics | proc/mvp5/du.go:14-37 | a jump behind the last instruction, where the reference ends and both cores panic |
| PipelineJumps.MinusOneIsMissed | proc/mvp4/bu.go:12-34 | a jump to -1, where the reference never ends and MVP-4 does |
| PipelineJumps.RaIsOvertaken | risc/opcodes.go:604-619 | an li to ra and a jal after which MVP-4 holds the older value |
| PipelineLoads.HalfIsUnseen | risc/opcodes.go:758-785 | an lh and a move of its result that reads the old value in both cores |
| EndToEnd.WriteBackAgrees | risc/app.go:93-100 | both write-backs leave the same registers if and only if the instruction writes nothing negative to a declared register |
| EndToEnd.RunsAlike | risc/app.go:93-100 | over a run they agree at every step if and only if no instruction does |
| EndToEnd.NegativeWriteIsLost | risc/app.go:96-98 | a one-instruction program after which they differ |
| EndToEnd.GuardedMeansMvp1 | proc/mvp5/cpu.go:60-113 | over guarded states, when the sequential run writes nothing negative and is safe for the L1D, MVP-4 and MVP-5 stop as MVP-1 does, with its registers, and its memory after the final write-back, if and only if MVP-1 does not stop on a bad address that the L1D lets pass; then they never do |
| EndToEnd.PipelineMeansMvp1 | proc/mvp5/cpu.go:60-113 | they do stop so under a condition on the sequential run in place of the guard, when the L1D refuses the address on which MVP-1 ends, if it ends on one |
| EndToEnd.LoadOnlyPipelineMeansMvp1 | proc/mvp5/cpu.go:60-113 | the same for programs without stores, with every condition said of MVP-1's own run, but for what the L1D holds behind the end of memory where that run ends on a load outside it |
| EndToEnd.PremisesAreMet | proc/mvp1/cpu.go:33-59 | the premises of that theorem, this one included, hold of a program, from any start |
| Control.CycleIsInOrder | proc/mvp6-1/cu.go:48-154 | issued, pending and queued instructions stay one sequence, at most one is pending, a branch is issued only first in its cycle, the execute bus keeps its length even unasked, and the skipped-runner check never fires |
| IssueLaws.ForwardsExactly | proc/mvp6-1/cu.go:201-220 | MVP-6.1 forwards to an instruction if and only if one operand that is still to be written is its only conflict, and an instruction pushed in the previous cycle writes something it reads; it takes the first of these |
| IssueLaws.PushesExactly | proc/mvp6-1/cu.go:106-154 | with nothing skipped before it a candidate is pushed if and only if it is no branch behind another issue, the bus has room where the core asks, and it meets no conflict or, in MVP-6.1, can be forwarded to |
| IssueLaws.IssuesAllItMay | proc/mvp6-0/cu.go:41-96 | every cycle issues exactly the instructions at hand up to the first that may not be issued behind the ones before it |
| IssueLaws.IssuesTwo | proc/mvp6-0/cu.go:78-107 | two instructions that conflict with nothing in flight nor with each other, the second no branch, go in one cycle |
| Throughput.FullSpeed | proc/mvp6-0/cpu.go:79-117 | whatever register code without loads is delivered, up to two instructions a cycle: if what comes within three cycles does not conflict, each is issued one cycle after, executes two cycles after and has retired three cycles after its delivery, with the registers of program order in between |
| Throughput.UnitWaitsExactly | proc/mvp6-1/eu.go:56-80 | an execute unit with an instruction waits if and only if the write bus is full or the value it is to receive has not been sent, and else starts with it |
| Throughput.UnitLoads | proc/mvp6-0/eu.go:56-91 | a load is done in exactly the next cycle if the L1D holds all its bytes, and else in the fiftieth, whatever the other units do |
| OutOfOrderUnits.ControlUnit.HandleRunner | proc/mvp6-1/cu.go:106-154 | a candidate is pushed, held or wired to a producer as Handle says |
| OutOfOrderUnits.ControlUnit.ShouldUseForwarding | proc/mvp6-1/cu.go:201-220 | the walk finds the producer that ShouldForward finds |
| OutOfOrderUnits.ControlUnit.IssuePendings | proc/mvp6-0/cu.go:61-79 | the first loop, over a snapshot of the pending instructions, is FromPendings |
| OutOfOrderUnits.ControlUnit.Cycle | proc/mvp6-0/cu.go:41-96 | both loops together are one cycle of the control unit, for MVP-6.0 and MVP-6.1 |
| OutOfOrderUnits.ExecuteUnit.Cycle | proc/mvp6-1/eu.go:47-164 | a cycle of an execute unit, with its checkpoint, cache and channels, is EuCycle |
| OutOfOrderUnits.WriteUnit.Cycle | proc/mvp6-0/wu.go:21-59 | a cycle of a write unit retires the oldest result and releases its registers |
| OutOfOrderUnits.Core.Cycle | proc/mvp6-0/cpu.go:79-117 | one cycle of the core in its order: connect, control, both execute units, both write units |
| InFlightIssue.ChosenProducer | proc/mvp6-1/cu.go:201-220 | the chosen producer is the one instruction in flight that writes the hazarded register, still on the execute bus, without another consumer, and its result is what program order reads |
| InFlightIssue.ForwardIsSound | proc/mvp6-1/cu.go:132-147 | a forward leaves every instruction on the execute bus with the right operands if and only if the chosen producer is not itself a receiver |
| InFlightIssue.CrossedComputes | proc/mvp6-1/eu.go:62-73 | an instruction made to forward r while it is to receive q runs as if r held the value it is handed and q were as it is, which is q's old value as long as the instruction that hands it over has not retired |
| InFlightIssue.NoHazardIsClear | proc/mvp6-0/cu.go:98-113 | without a reported hazard nothing in flight conflicts with the next instruction, and its operands are final |
| InFlightControl.UnitKeeps | proc/mvp6-1/cu.go:48-154 | a cycle of the control unit keeps scoreboard, hazard order, operands and channels right |
| InFlightExecute.EuKeeps | proc/mvp6-1/eu.go:56-164 | a cycle of an execute unit computes the sequential results, received operands included, and never blocks on a full channel |
| InFlightRun.RetireKeeps | proc/mvp6-0/wu.go:21-59 | a retirement disturbs no operand still to be read and keeps the scoreboard exact |
| InFlightRun.CycleKeeps | proc/mvp6-0/cpu.go:79-117 | every cycle of the core keeps the invariant and gets through |
| InFlightTheorems.AnyOrderWillDo | proc/mvp6-0/wu.go:21-59 | the instructions in flight may finish in any order: the registers end up as in program order |
| InFlightTheorems.Mvp60IsSequential | proc/mvp6-0/cpu.go:79-117 | from power-up or any flush, bytes not yet written back included, for whatever register code without lh is delivered and when: as long as every miss is safe, MVP-6.0's registers with all work in flight finished, in any order, are those of the issued sequence, its scoreboard is exact, its L1D coherent with what the flush left to be seen, and memory itself as it was |
| InFlightTheorems.CleanIsSafe | proc/mvp6-0/eu.go:79-96 | from an L1D that holds only what is in memory, as at power-up, every miss is safe |
| InFlightMisses.UnitIsExact | proc/mvp6-0/eu.go:79-96 | a cycle of an execute unit leaves the L1D coherent if and only if its miss, if it has one, finds in memory what the L1D holds and drops no only copy |
| InFlightMisses.SafeMissesAreExact | proc/mvp6-0/cpu.go:79-117 | over any uncrossed run both execute units get through every cycle with a coherent L1D if and only if every miss is safe |
| InFlightTheorems.Mvp60IsHazardFree | proc/mvp6-0/cu.go:98-119 | instructions in flight in MVP-6.0 are pairwise free of the three hazards |
| InFlightTheorems.HazardOnlyThrough | proc/mvp6-1/cu.go:117-147 | in MVP-6.1 the only hazard between two of them is a read of the register that the one hands to the other |
| InFlightTheorems.Mvp61IsSequential | proc/mvp6-1/eu.go:56-164 | the same as for MVP-6.0, as long as no instruction both receives and forwards and every miss is safe |
| InFlightExact.NeverCrossesIsExact | proc/mvp6-1/cu.go:48-154 | in every cycle of a run MVP-6.1 gives each instruction on the execute bus its operands of program order, under the name by which they come, if and only if it never makes an instruction forward that itself receives |
| InFlightExact.CycleIsExact | proc/mvp6-1/cu.go:132-147 | the same for one cycle of the control unit |
| InFlightTheorems.OutOfOrderMeansMvp1 | proc/mvp6-0/cpu.go:79-117 | once MVP-1's register code has gone through, from any flush and with safe misses, the registers are MVP-1's, and its memory is what a write-back of the L1D leaves |
| InFlightAlive.CycleLively | proc/mvp6-1/cu.go:48-154 | a cycle of the control unit leaves every instruction that waits for a value alone on its channel, and the channel full or its maker unfinished and wired to it; the execute bus stays in issue order |
| InFlightAlive.EuLively | proc/mvp6-1/eu.go:56-164 | so does a cycle of an execute unit, which empties and fills channels |
| InFlightProgress.StuckIsIdle | proc/mvp6-1/eu.go:62-73 | with room for results, two execute units that cannot go on have nothing to do: there is no circular wait for values |
| InFlightProgress.CycleWorks | proc/mvp6-0/cpu.go:79-117 | in each cycle the work left grows by at most 58 for each instruction delivered, and without deliveries it falls until nothing is left |
| InFlightProgress.EverythingRetires | proc/mvp6-1/eu.go:56-164 | no deadlock: from power-up or any flush, whatever register code without lh is delivered and when, with safe misses all of it has retired 58 cycles an instruction after the last delivery, with the registers of program order |
| InFlightProgress.OutOfOrderFinishes | proc/mvp6-0/cpu.go:79-117 | total correctness: given the register code MVP-1 executes, MVP-6.0, or MVP-6.1 without a crossing, ends with MVP-1's registers and, once the L1D is written back, memory, as long as every miss is safe |
| InFlightChains.HandleWired | proc/mvp6-1/cu.go:106-154 | an instruction is made to receive only if it reads what one of the four before it writes, and to forward only if one of the four after it reads what it writes |
| InFlightChains.UnchainedNeverCrosses | proc/mvp6-1/cu.go:132-147 | in a program where no instruction does both, no forward is crossed in any run |
| InFlightChains.UnchainedMeansMvp1 | proc/mvp6-1/cu.go:48-154 | for such register code, however it is delivered, MVP-6.1 finishes with MVP-1's registers and memory, and MVP-6.0 for all of it, as long as every miss is safe |
| ForwardingChain.ChainGoesWrong | proc/mvp6-1/cu.go:132-137 | three dependent instructions, fetched as the fetch unit fetches them, after which MVP-6.1 is about to write 1 where program order gives 2 |

## Left out

- GuardIsExact: leaves out turns whose instruction reads a register with an lh still queued; it may compute the reference's result by chance, as a comparison does whose outcome the old value does not change. `PipelineRegisters.OnlyUndeclaredIsUnseen` says exactly which turns these are.
- CoveredRunIsGuarded: the condition on the sequential run is sufficient, not necessary; whether a store past the L1D, say, does harm depends on when the write unit gets to it, so that the exact condition is the guard on the state.
- EverythingRetires: for MVP-6.1 holds, like Mvp61IsSequential, of runs without a crossed forward; after one, a load may use a wrong address and panic. In both versions it speaks of runs whose misses are safe (`InFlightMisses.SafeMissesAreExact`); after an unsafe one a load may read a wrong byte and the next use it as an address. `InFlightChains.UnchainedNeverCrosses` gives a condition on the program under which there is none, which is sufficient but not necessary.
- Mvp61IsSequential: is one-way; after a crossed forward the registers may still come out right, when the register read in place of the handed value has been written in time. The equivalence is on the operands: `InFlightExact.NeverCrossesIsExact`.
- GuardedMeansMvp1: compares registers and memory with MVP-1's only where the run ends without an error; after one the source returns it without writing the L1D back.
- Memory sizes within 64 bytes of the largest address are left out of all L1D results, because line ends would wrap.
- ReadsAreNeeded: leaves out instructions whose result a destination of zero, equal operands, zero or their number decides, as of `and t0, t1, zero`; of these some listed register is not needed.
- FullSpeed: the exact timetable is that of instructions that do not conflict; with conflicts `IssueLaws.IssuesAllItMay` says what each cycle issues, and EverythingRetires bounds the rest.
- Turn: says nothing about the core after an error, which the simulator does not use.
- MVP-6.0 and MVP-6.1 across a flush: flushing discards older loads in an execute unit; only the code between two flushes is modelled, without branches, stores, ret, and lh, whose write the scoreboard does not see; it starts from whatever registers, cycle and L1D, written back or not, the flush before it left.
- The fetch and decode units of MVP-6.0 and MVP-6.1: what they deliver, and when, is a parameter.
- Memory ordering in MVP-6.0 and MVP-6.1: their hazard check looks only at registers.
- The restart through ra is modelled in MVP-1 and MVP-2 (`Lockstep`), not in the reference of the pipelines.
- Parsing, logging, gauges, statistics and debug printing.
- `BufferedBus.Revert` and `BufferedBus.DeleteLast` of proc/comp/bus.go, which no core uses.
- `Queue` of proc/comp/queue.go is a sequence that a pass walks by snapshot; its linked list is not modelled.
- Conformance of the instruction set to RV32I where the code departs from it: lh without sign, and sltu, bltu, bgeu and srl as signed operations, are modelled as coded.
