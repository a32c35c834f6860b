# A desktop RISC-V Linux machine on a microcontroller, in Dafny

The repository boots Linux on an emulated RV32IMA processor whose RAM is two SPI PSRAM chips behind a write-back
cache and whose disks are files on a FAT volume. It also carries a small C compiler with its own virtual machine, a
board router, and a few self-contained algorithms. This project models those parts and proves what they promise, on
all inputs for which they promise it. Procedures that update state are methods on classes with the same fields,
proved against functions on values; the promises are then lemmas about those functions and postconditions of methods
that compose them.

- **The c4 compiler and its machine.** `C4Tokens`, `C4ParserSpec` and `C4Parser` hold the token order, the parser as
  a transition function on tokens and code, and the parser as the procedure that advances tokens, emits words and
  patches jumps in place. `C4Lang` gives int expression and statement trees, how they are printed with the fewest
  parentheses, and what they mean; `C4Code` gives their code. `C4ParserProof` and `C4StmtParserProof` show that the
  parser turns the printed tree into the code, `C4ExprSim` and `C4StmtSim` that the machine of `C4Vm` running the
  code does what the tree means, and `C4Theorems` puts the two together. `C4Grouping` is C's precedence as the parser
  has it, `C4Calls` calls with their arguments and parameters, and `C4Pointers` the laws of pointers, sizes and array
  elements. `C4Scanner` is the scanner with its symbol table, `C4Layout` shows that every layout of tokens scans back to
  them, `C4Literal` does so for strings, characters and numbers in every base, and `C4Source` goes all the way from text
  to behaviour.
- **The memory hierarchy.** `Psram` has the byte protocol of a chip and `psram_access` over two chips; `Cache` the
  two-way write-back cache with its history of accesses, down to a run of accesses that equals flat byte memory.
- **Petit FatFs.** `PetitFat` has volumes, chains and the bytes of a file as functions of the disk's sectors;
  `PetitFs` the open file with its position fields; `Directory` the directory search.
- **The emulator.** `Emulator` is the block device between guest RAM and a file, `Hibernation` the snapshot of RAM and
  processor through a file and across a loss of power.
- **The processor.** `RvSpec` is an interpreter of single instructions with explicit next pc, ISA immediates, exact
  arithmetic and 64-bit counters. `RvCpu` is the batch loop with its pc bookkeeping, masks and halves, proved equal
  to it for every environment of devices; `RvCached` is the processor over the cache instead of flat memory; `RvBits`
  has the mask arithmetic; `RvFrame` and `RvRun` the invariants of runs and the VM loop with its counters. What the
  interpreter's own definitions mean is said apart from them: `RvValues` for values in memory and arithmetic, `RvIsa`
  for every instruction by its name and encoding, `RvTraps` for faults, interrupts and what a handler finds.
- **Smaller cores.** `Astar` (the router's search, in exact arithmetic), `Vt` (the VT102 terminal) and `VtText` (what
  text and sequences typed into it do), `Crc` (the two CRC-16 loops), `Numbers` (integer printing and reading), `Gfx`
  (lines and circles).

`Words` holds shared arithmetic with its meaning bit by bit and modulo 2^32, `Wrappers` the optional value.
`dafny verify dfyconfig.toml` checks everything.

## What the code does not do

Some promises hold only under a condition. But for the router with several goals, where a bound takes its place, the
project states it exactly.

- A write that starts inside a sector first goes back to the sector's start without moving back along the chain;
  `PetitFs.RoundingIff` says when the position fields stay right: exactly when that start is the start of the file or
  the sector is not the first of its cluster. `PetitFs.RoundingLost` is a file where they do not.
- The batch loop returns 0 without counting its instructions when the guest stores 0 to the SYSCON register:
  `RvRun.ZeroNotCounted`. `RvRun.RunCounts` says that the count of a run is right exactly when that did not happen.
- The router aims at the mean of the goal cells, so with several goals the route is not always the cheapest overall:
  `Astar.NearestMissed` is a row of cells where it is not. `Astar.NearlyCheapest` is a bound on how much dearer it is,
  and `Astar.CheapestOfAll` a condition under which it is cheapest, but not the only one.
- The router takes a route that costs 1e9 or more for none: `Astar.TooFar` is a row of cells with such a route.
  `Astar.SmallGrid` is a bound on the grid below which nothing is found only if there is no route.
- A line whose last major-axis coordinate is 32767 never ends, as the loop variable is 16 bits wide:
  `Gfx.LoopEndsExactly`.
- A circle of radius 16557 or more, 16642 and 16643 excepted, is none, as the error term wraps and its sign is lost:
  `Gfx.CircleExactly`, and `Gfx.NoCircle` for the first of them.
- A cursor restored to outside the scroll region in origin mode reports a row that does not lead back to it:
  `Vt.ReportReadsBack`, and `VtText.RestoredOutside` for how that comes about.
- A 0 printed in base 16 without its prefix and followed by an x and a hexadecimal digit is read together with them:
  `Numbers.ReadTogether`. `Numbers.RoundTrip` says exactly what may follow a number.
- The compiler's symbol table can take one name for another when a name of 65 characters or more is involved:
  `C4Scanner.NamesConfused` is such a pair and `C4Layout.ScannedAlike` a text with it. `C4Scanner.SafeExactly` says
  that 64 is exactly the limit.


## Model

| member | source | states |
|---|---|---|
| `C4ParserProof.ParsePrint` | apps/c4/c4.c:139-287 | For every well-formed int expression tree, printed with the fewest parentheses the token order allows, `expr` reaches its climbing loop having consumed exactly the tree's tokens and emitted exactly the tree's code, whatever follows |
| `C4ParserProof.ParseWhole` | apps/c4/c4.c:139-287 | The same with a following token that ends the climbing: `expr` returns there; so precedence and associativity are those of the printed tree |
| `C4StmtParserProof.ParseStmt` | apps/c4/c4.c:289-355 | For every well-formed statement tree (nested if/else, while, for, return, blocks, empty and expression statements) `stmt` consumes exactly its printed tokens and emits its code with every jump patched; a dangling else binds to the nearest if |
| `C4StmtParserProof.ParseStmts` | apps/c4/c4.c:343-347 | A block's statements up to its closing brace |
| `C4Parser.Parser.Expr` | apps/c4/c4.c:139-287 | The recursive procedure that advances the tokens, emits and backpatches in place accepts exactly the inputs that the transition function accepts, with the same tokens left, the same code and the same type |
| `C4Parser.Parser.Infix` | apps/c4/c4.c:223-286 | One turn of the climbing loop, for every operator, assignment, conditional, short circuit, index and post-increment branch, including the pointer scalings |
| `C4Parser.Parser.Stmt` | apps/c4/c4.c:289-355 | The statement procedure agrees with the transition function on every token sequence |
| `C4Parser.Parser.ForStmt` | apps/c4/c4.c:318-336 | The three jumps of `for` are emitted and patched as the transition function says |
| `C4Vm.Machine.Cycle` | apps/c4/c4.c:501-530 | One turn of the machine's loop on its registers and memory is one step of the pure machine, whose operations C4Vm.AluComputes characterizes |
| `C4Vm.Machine.Run` | apps/c4/c4.c:498-539 | The loop run for a number of cycles, or until it cannot go on, is that many pure steps |
| `C4ExprSim.ExprSim` | apps/c4/c4.c:139-287 | Running the code of any int expression tree ends just past that code with the left-to-right value in `a`, `sp` and `bp` unchanged, variables updated as the tree's evaluation says, nothing below the stack's floor touched, and the program counter inside the code until then |
| `C4ExprSim.ShortSim` | apps/c4/c4.c:239-240 | The short-circuit operators run their right operand only when needed and leave the last operand evaluated |
| `C4ExprSim.ChooseSim` | apps/c4/c4.c:230-238 | A conditional runs exactly one branch and both ends meet |
| `C4StmtSim.StmtSim` | apps/c4/c4.c:289-355 | Running a statement's code has the statement's meaning: it ends past the code with the new variable values, or leaves the frame through return with the value, or is still inside after as many steps as fuel was spent |
| `C4StmtSim.ForLoopSim` | apps/c4/c4.c:318-336 | The loop of `for` runs test, body, step in that order although the step's code stands before the body's |
| `C4StmtSim.WhileSim` | apps/c4/c4.c:307-317 | The loop of `while` from its test on |
| `C4StmtSim.ReturnSim` | apps/c4/c4.c:337-342 | A return leaves the frame with the value, the caller's frame pointer and the return address |
| `C4Theorems.FuelMonotone` | apps/c4/c4.c:289-355 | A statement's outcome does not depend on the fuel once it is enough |
| `C4Theorems.ForMeansWhile` | apps/c4/c4.c:318-336 | `for (init; cond; step) body` means `init; while (cond) { body; step }`, for absent parts too |
| `C4Theorems.ForRunsAsWhile` | apps/c4/c4.c:318-336 | The two code layouts of such a loop, run from the same variables, have the same outcome |
| `C4Theorems.ExprBranches` | apps/c4/c4.c:230-240 | Every jump inside an expression's code leads into that code or just past it |
| `C4Theorems.StmtBranches` | apps/c4/c4.c:293-336 | Every patched jump target of a statement lies in the statement or one past its end |
| `C4Theorems.TerminatesTogether` | apps/c4/c4.c:498-530 | The machine gets out of a statement's code if and only if the statement terminates |
| `C4Theorems.CompileAndRun` | apps/c4/c4.c:289-355 | From tokens to behaviour: the parser accepts the printed statement, and what it emitted, run by the machine, does what the statement means |
| `Psram.Chip.SpiWrite` | harness/hal_psram.h:40-55 | The first write after a select is command and 24-bit address; what follows goes to memory from that address on |
| `Psram.Chip.SpiRead` | harness/hal_psram.h:57-72 | Reading returns memory from the current address, or the chip's identification after that command |
| `Psram.Memory.Address` | upstream/pico-rv32ima/tiny-rv32ima/psram/psram.c:69-90 | The chosen chip gets the command for writing or fast reading and its own 24-bit address, with one dummy byte more before reading |
| `Psram.AddressOfBytes` | upstream/pico-rv32ima/tiny-rv32ima/psram/psram.c:84-86 | The three address bytes give back the chip-local address |
| `Psram.Memory.Write` | upstream/pico-rv32ima/tiny-rv32ima/psram/psram.c:67-96 | A write inside one chip changes exactly those bytes of the 16 MB that the two chips make up |
| `Psram.Memory.Read` | upstream/pico-rv32ima/tiny-rv32ima/psram/psram.c:67-96 | A read inside one chip returns exactly those bytes and changes none |
| `Cache.AddressParts` | upstream/pico-rv32ima/tiny-rv32ima/cache/cache.c:11-14 | An address is its tag, index and offset, and its line lies in the RAM |
| `Cache.InLine` | upstream/pico-rv32ima/tiny-rv32ima/cache/cache.c:11-14 | Two addresses share tag and index exactly when they are in the same line |
| `Cache.SeenAfterWriteBack` | upstream/pico-rv32ima/tiny-rv32ima/cache/cache.c:45-54 | Writing a line back changes nothing that a program sees, at any address |
| `Cache.SeenAfterFill` | upstream/pico-rv32ima/tiny-rv32ima/cache/cache.c:113-118 | Replacing a line that memory agrees with by the fetched one changes nothing that a program sees |
| `Cache.Cache.WriteBack` | upstream/pico-rv32ima/tiny-rv32ima/cache/cache.c:45-54 | After a write-back the line agrees with memory, every line that agreed still does, and what is seen is the same |
| `Cache.Cache.Fetch` | upstream/pico-rv32ima/tiny-rv32ima/cache/cache.c:65-118 | The lookup returns the way that holds the line; a miss takes the way that was not accessed last; at most one way holds a line and dirty lines are valid |
| `Cache.Cache.Read` | upstream/pico-rv32ima/tiny-rv32ima/cache/cache.c:65-131 | A read inside a line returns what flat memory holds there and changes nothing that is seen |
| `Cache.Cache.Write` | upstream/pico-rv32ima/tiny-rv32ima/cache/cache.c:133-200 | A write inside a line changes exactly those bytes of what is seen |
| `Cache.Cache.Run` | upstream/pico-rv32ima/tiny-rv32ima/cache/cache.c:65-200 | Any sequence of reads and writes inside lines returns what flat byte memory would, down to the two chips, and leaves the same bytes |
| `Cache.Cache.Flush` | upstream/pico-rv32ima/tiny-rv32ima/cache/cache.c:56-63 | After a flush the backing chips hold what is seen, at every address |
| `Cache.Cache.Reset` | upstream/pico-rv32ima/tiny-rv32ima/cache/cache.c:40-43 | After a reset what is seen is what the chips hold |
| `Cache.Cache.ReadRam` | upstream/pico-rv32ima/tiny-rv32ima/emulator/emulator.c:390-393 | Reading the chips past the cache changes nothing that is seen |
| `Cache.Cache.WriteRam` | upstream/pico-rv32ima/tiny-rv32ima/emulator/emulator.c:212-222 | Writing the chips past an empty cache changes exactly those bytes of what is seen |
| `PetitFat.ClusterSplit` | upstream/pico-rv32ima/tiny-rv32ima/pff/pff.c:951-964 | An offset is its cluster number, its sector in the cluster and the rest |
| `PetitFat.SectorOnDisk` | upstream/pico-rv32ima/tiny-rv32ima/pff/pff.c:479-489 | Every byte of a file with a good chain is in the data area, in the sector that its chain cluster says |
| `PetitFat.SectorsApart` | upstream/pico-rv32ima/tiny-rv32ima/pff/pff.c:479-489 | Different sectors of a file are different sectors of the disk |
| `PetitFat.ContentsAfterWrite` | upstream/pico-rv32ima/tiny-rv32ima/pff/pff.c:1030-1040 | Writing the sector that holds an offset changes exactly that sector's bytes of the file and keeps its chain |
| `PetitFat.OtherFileKept` | upstream/pico-rv32ima/tiny-rv32ima/pff/pff.c:985-1045 | A write that touches only sectors of one file keeps the chain and the bytes of every file that shares no cluster with it |
| `PetitFs.FatFs.GetFat` | upstream/pico-rv32ima/tiny-rv32ima/pff/pff.c:430-470 | Reading two or four bytes of a FAT sector gives the entry of a FAT16 or FAT32 volume, and 1 for a cluster number out of range |
| `PetitFs.FatFs.EnterSector` | upstream/pico-rv32ima/tiny-rv32ima/pff/pff.c:950-964 | At a sector boundary the code steps to the chain cluster and sector that hold the position, and fails exactly when that is no data cluster, so never on a good chain |
| `PetitFs.FatFs.Read` | upstream/pico-rv32ima/tiny-rv32ima/pff/pff.c:928-975 | From any sound open file without a write in progress a read returns exactly the file's bytes from the position on, cut off at the end, and the position invariant still holds; an error closes the file |
| `PetitFs.FatFs.Lseek` | upstream/pico-rv32ima/tiny-rv32ima/pff/pff.c:1055-1095 | A seek ends at the requested offset, cut to the size, with the same cluster and sector that walking the chain from the start gives, also when it started from the current cluster; on any chain it succeeds if and only if every link that it follows leads to a data cluster |
| `PetitFs.FatFs.Write` | upstream/pico-rv32ima/tiny-rv32ima/pff/pff.c:985-1045 | A write changes exactly the written bytes and the zero fill of an unfinished sector, returns the number written, keeps the invariant, and changes no sector that is not the file's; with no bytes it finalizes |
| `PetitFs.RoundingIff` | upstream/pico-rv32ima/tiny-rv32ima/pff/pff.c:1008-1010 | Rounding a mid-sector position down keeps the position invariant if and only if the position is in the first sector of the file or not in the first sector of its cluster |
| `PetitFs.RoundingLost` | upstream/pico-rv32ima/tiny-rv32ima/pff/pff.c:1008-1010 | On a volume with one sector per cluster, at offset 700, it does not: the position goes to 512 while the cluster stays the file's second, behind which the chain ends |
| `PetitFs.WrittenWhole` | upstream/pico-rv32ima/tiny-rv32ima/pff/pff.c:1030-1041 | A write that ends at a sector boundary replaces exactly the bytes written |
| `PetitFs.SameOrLater` | upstream/pico-rv32ima/tiny-rv32ima/pff/pff.c:1072-1076 | The test for a forward seek holds only when the target is beyond the start of the current cluster |
| `PetitFs.Disk.Finalize` | upstream/pico-rv32ima/tiny-rv32ima/pff/mmcbbp.c:304-315 | Finalizing fills the rest of the sector with zeros |
| `Directory.Dir.DirNext` | upstream/pico-rv32ima/tiny-rv32ima/pff/pff.c:543-575 | The next entry's place along the directory's chain or the static table, or how the table ended |
| `Directory.Dir.Find` | upstream/pico-rv32ima/tiny-rv32ima/pff/pff.c:584-607 | The search stops within 65536 entries on every disk image; on success it is at the first entry that is no volume label and has the name, with no end marker before it; otherwise the table ended, or its chain was broken |
| `Emulator.Emulator.LoadBlock` | upstream/pico-rv32ima/tiny-rv32ima/emulator/emulator.c:467-471 | 128 word loads through the cache fill the buffer with the RAM block |
| `Emulator.Emulator.StoreBlock` | upstream/pico-rv32ima/tiny-rv32ima/emulator/emulator.c:479-483 | 128 word stores through the cache put the buffer into RAM |
| `Emulator.Emulator.Transfer` | upstream/pico-rv32ima/tiny-rv32ima/emulator/emulator.c:459-487 | All whole blocks of the transfer size go from RAM to the file or back, across clusters, with nothing else changed |
| `Emulator.Emulator.CsrWrite` | upstream/pico-rv32ima/tiny-rv32ima/emulator/emulator.c:439-492 | The CSR handler of the block device: each register's effect, and that the others leave file, RAM and registers alone |
| `Emulator.Emulator.BlockRequest` | upstream/pico-rv32ima/tiny-rv32ima/emulator/emulator.c:443-487 | A guest write of any number of blocks changes exactly the file's bytes at the offset, to what RAM holds; a guest read is the converse |
| `Emulator.Emulator.WriteThenRead` | upstream/pico-rv32ima/tiny-rv32ima/emulator/emulator.c:443-487 | What was written from one RAM address is what a read of the same range puts at another |
| `Hibernation.SavePowerState` | upstream/pico-rv32ima/tiny-rv32ima/emulator/emulator.c:161-174 | The state byte is written at the start of its file and nothing outside that file changes |
| `Hibernation.GetPowerState` | upstream/pico-rv32ima/tiny-rv32ima/emulator/emulator.c:145-159 | The state byte, or unknown for an empty file |
| `Hibernation.LoadFile` | upstream/pico-rv32ima/tiny-rv32ima/emulator/emulator.c:204-231 | RAM gets the rest of the open file, at most a RAM's worth |
| `Hibernation.SaveSnapshot` | upstream/pico-rv32ima/tiny-rv32ima/emulator/emulator.c:373-418 | After flush, save loop and finalization the snapshot file starts with all RAM as the guest saw it and the core struct |
| `Hibernation.RestoreSnapshot` | upstream/pico-rv32ima/tiny-rv32ima/emulator/emulator.c:254-276 | RAM and core are read back from the file whatever RAM and cache held before |
| `Hibernation.Hibernate` | upstream/pico-rv32ima/tiny-rv32ima/emulator/emulator.c:373-418 | Power state and snapshot are both in place; neither write disturbs the other file |
| `Hibernation.PowerCycle` | upstream/pico-rv32ima/tiny-rv32ima/emulator/emulator.c:233-418 | A new machine with fresh chips on the same disk finds the hibernation state and restores the same RAM contents and core struct |
| `RvCore.RestoreSave` | upstream/pico-rv32ima/tiny-rv32ima/emulator/mini-rv32ima.h:71-99 | The core struct is determined by its 192 bytes |
| `RvBits.MaskedIIs` | upstream/pico-rv32ima/tiny-rv32ima/emulator/mini-rv32ima.h:189-190 | The I immediate by mask and sign fill is that of section 2.3 of the RISC-V Unprivileged ISA |
| `RvBits.MaskedSIs` | upstream/pico-rv32ima/tiny-rv32ima/emulator/mini-rv32ima.h:261-262 | The S immediate |
| `RvBits.MaskedBIs` | upstream/pico-rv32ima/tiny-rv32ima/emulator/mini-rv32ima.h:197-198 | The B immediate |
| `RvBits.MaskedJIs` | upstream/pico-rv32ima/tiny-rv32ima/emulator/mini-rv32ima.h:181-182 | The J immediate |
| `RvBits.MaskedUIs` | upstream/pico-rv32ima/tiny-rv32ima/emulator/mini-rv32ima.h:173-178 | The U immediate |
| `RvCpu.MixedProduct` | upstream/pico-rv32ima/tiny-rv32ima/emulator/mini-rv32ima.h:319 | The upper half of the signed-unsigned product by 64-bit unsigned arithmetic is the exact one |
| `RvCpu.Cpu.MulCode` | upstream/pico-rv32ima/tiny-rv32ima/emulator/mini-rv32ima.h:312-329 | The eight RV32M operations: halves of the exact products, quotients toward zero and remainders of the dividend's sign, with the results for zero divisors and overflow of sections 7.1 and 7.2 |
| `RvCpu.Cpu.AluCode` | upstream/pico-rv32ima/tiny-rv32ima/emulator/mini-rv32ima.h:330-343 | The register and immediate operations: sums, shifts, comparisons and gates |
| `RvCpu.Cpu.BranchCode` | upstream/pico-rv32ima/tiny-rv32ima/emulator/mini-rv32ima.h:195-215 | A taken branch goes to pc plus its immediate after the loop's step of 4, an untaken one to pc + 4, an undefined one faults |
| `RvCpu.Cpu.LoadCode` | upstream/pico-rv32ima/tiny-rv32ima/emulator/mini-rv32ima.h:216-256 | Loads from RAM, timer and devices, and the access fault with its address |
| `RvCpu.Cpu.StoreCode` | upstream/pico-rv32ima/tiny-rv32ima/emulator/mini-rv32ima.h:257-302 | Stores to RAM, timer, SYSCON and devices, and the access fault; in RAM exactly the addressed bytes change, to those of the word, the lowest first |
| `RvCpu.Cpu.CsrCode` | upstream/pico-rv32ima/tiny-rv32ima/emulator/mini-rv32ima.h:349-415 | The CSR instructions read, combine and write as their encoding says |
| `RvCpu.Cpu.ReturnCode` | upstream/pico-rv32ima/tiny-rv32ima/emulator/mini-rv32ima.h:426-436 | MRET restores the interrupt enable and the mode and continues at mepc |
| `RvCpu.Cpu.AtomicCode` | upstream/pico-rv32ima/tiny-rv32ima/emulator/mini-rv32ima.h:451-496 | LR.W, SC.W and the nine read-modify-write operations |
| `RvCpu.Cpu.InstructionCode` | upstream/pico-rv32ima/tiny-rv32ima/emulator/mini-rv32ima.h:168-508 | The whole switch on the opcode leaves what the single-instruction interpreter says |
| `RvCpu.Cpu.TrapCode` | upstream/pico-rv32ima/tiny-rv32ima/emulator/mini-rv32ima.h:515-540 | Trap and interrupt entry: cause, value, return address, status stack, machine mode, handler address |
| `RvCpu.Cpu.TimerCode` | upstream/pico-rv32ima/tiny-rv32ima/emulator/mini-rv32ima.h:120-131 | The timer is a 64-bit counter, and its interrupt is pending exactly when it has passed a nonzero match value |
| `RvCpu.Cpu.Step` | upstream/pico-rv32ima/tiny-rv32ima/emulator/mini-rv32ima.h:114-546 | One call, for every count and elapsed time, is the clock tick followed by a sleep, an interrupt, or iterating the single-instruction interpreter until count, the first trap, WFI or SYSCON, with a 64-bit cycle counter |
| `RvCached.Board.Turn` | upstream/pico-rv32ima/tiny-rv32ima/emulator/emulator.c:67-113 | With every fetch, load, store and atomic going through the cache, one instruction does what it does over the flat memory that the cache shows, if its access is inside a line |
| `RvCached.Board.Step` | upstream/pico-rv32ima/tiny-rv32ima/emulator/emulator.c:67-113 | So does a call: the processor over cache and chips goes through the same states and returns the same value as over flat memory |
| `RvCached.SideBySide` | upstream/pico-rv32ima/tiny-rv32ima/emulator/emulator.c:67-113 | The batch loop over flat memory and the processor over the cache, started in the same state, end in the same state with the same result |
| `RvCached.AlignedNear` | upstream/pico-rv32ima/tiny-rv32ima/cache/cache.c:65-77 | Accesses at multiples of their size are inside a line |
| `RvFrame.InstructionFrame` | upstream/pico-rv32ima/tiny-rv32ima/emulator/mini-rv32ima.h:150-513 | One instruction leaves x0 and the cycle counter alone, and changes the reservation only if it is an LR.W |
| `RvRun.RunTracks` | upstream/pico-rv32ima/tiny-rv32ima/emulator/mini-rv32ima.h:114-546 | On every run from power-on (instructions, traps, timer interrupts, WFI, MRET) x0 stays 0 and `extraflags >> 3` is the offset of the most recent LR.W, or 0 |
| `RvRun.StoreConditional` | upstream/pico-rv32ima/tiny-rv32ima/emulator/mini-rv32ima.h:478-493 | At any point of such a run SC.W stores and returns 0 exactly when its offset is that of the most recent LR.W; otherwise it returns 1 and changes nothing |
| `RvRun.CallCycles` | upstream/pico-rv32ima/tiny-rv32ima/emulator/mini-rv32ima.h:542-543 | A call adds the loop turns it counts to the 64-bit cycle counter |
| `RvRun.ZeroCounts` | upstream/pico-rv32ima/tiny-rv32ima/emulator/mini-rv32ima.h:276-280 | A call counts the loop turns that it made when it returns 0, and none when it returns something else, if and only if the guest did not store 0 to the SYSCON in it |
| `RvRun.ZeroNotCounted` | upstream/pico-rv32ima/tiny-rv32ima/emulator/mini-rv32ima.h:276-280 | A machine about to store 0 to the SYSCON: the call returns 0 after one loop turn and counts none |
| `RvRun.RunCounts` | upstream/pico-rv32ima/tiny-rv32ima/emulator/emulator.c:334-355 | Over any number of turns of the VM loop the count is the loop turns of the calls that returned 0, if and only if none of them stored 0 to the SYSCON |
| `RvRun.VmLoop.Flip` | upstream/pico-rv32ima/tiny-rv32ima/emulator/emulator.c:334-372 | One turn of the VM loop keeps cycles equal to idle cycles plus counted loop turns modulo 2^64 |
| `RvRun.VmLoop.Loop` | upstream/pico-rv32ima/tiny-rv32ima/emulator/emulator.c:331-372 | Over the whole loop, up to the turn that ends it, cycles stay idle cycles plus the count modulo 2^64, and the count grows by the loop turns of the calls that returned 0 if and only if none of them stored 0 to the SYSCON |
| `RvRun.VmLoop.GetInstret` | upstream/pico-rv32ima/tiny-rv32ima/emulator/emulator.c:137-143 | While the counters have not wrapped, the displayed instruction count is exactly the counted loop turns |
| `Astar.Neighbours` | hardware/carrier/checks/finish_routes.py:182-190 | All legal moves of a cell, eight steps and a via, and their costs |
| `Astar.EstimateConsistent` | hardware/carrier/checks/finish_routes.py:164-165 | 0.9 of the straight line never drops by more than a step or a via costs |
| `Astar.Frontier` | hardware/carrier/checks/finish_routes.py:175-196 | A route to a cell that is not expanded has a cell in the queue that is no worse than it |
| `Astar.Search` | hardware/carrier/checks/finish_routes.py:167-197 | The loop terminates; with no result no legal route costs less than the limit, and on every grid of at most 2.5e8 places no goal has a route at all; otherwise the chain of predecessors is a legal route from a start cell to a goal that no other route beats once each end's estimate is added |
| `Astar.Shortened` | hardware/carrier/checks/finish_routes.py:159-197 | To every route there is one without a repeated cell that leads to the same cell and costs no more |
| `Astar.CheapRoute` | hardware/carrier/checks/finish_routes.py:167-190 | On a grid of at most 2.5e8 places every cell that can be reached at all can be reached below the cost that an unseen cell counts as |
| `Astar.TooFar` | hardware/carrier/checks/finish_routes.py:191-196 | On a row of 10^10 cells nothing is found although there is a route: its cost is not below that limit |
| `Astar.Astar` | hardware/carrier/checks/finish_routes.py:159-197 | With the straight-line estimate: the result is cheapest among all routes to the goal cell where it ends |
| `Astar.NearlyCheapest` | hardware/carrier/checks/finish_routes.py:159-197 | Another route, to whatever goal, is cheaper by no more than its goal is estimated to be farther away |
| `Astar.CheapestOfAll` | hardware/carrier/checks/finish_routes.py:159-197 | When the goals' estimates differ by less than 0.00002, of which every cost is a multiple, and so for a single goal, the result is cheapest among all routes to any goal |
| `Astar.NearestMissed` | hardware/carrier/checks/finish_routes.py:160-165 | Without that it need not be: a row of cells where the nearest goal is passed over |
| `Crc.Firmware` | firmware/sdtest/main.c:47-57 | The byte-wise loop computes the remainder of bitwise division |
| `Crc.CardEmulator` | experiments/pi4-sdcard-emulator/sdcard_emu.py:74-85 | So does the loop with masked integers |
| `Crc.Agree` | experiments/pi4-sdcard-emulator/sdcard_emu.py:74-85 | The two programs give the same number for every message |
| `Crc.BurstDetected` | firmware/sdtest/main.c:43-57 | Two messages of equal length that differ only in a burst of at most 16 bits have different check values, at any length |
| `Crc.Residue` | experiments/pi4-sdcard-emulator/sdcard_emu.py:74-76 | A message followed by its check value, high byte first, has check value 0 |
| `Crc.DamageDetected` | firmware/sdtest/main.c:43-57 | A frame damaged in at most 16 adjacent bits does not check to 0 |
| `Numbers.OStream.FmtNum` | upstream/pico-linux/no-OS-FatFS-SD-SPI-RPi-Pico/include/iostream/ostream.h:300-310 | The digits are written backwards into the buffer, which has room for every 32-bit number |
| `Numbers.OStream.PutNum` | upstream/pico-linux/no-OS-FatFS-SD-SPI-RPi-Pico/include/iostream/ostream.h:312-346 | Sign or base prefix, digits and fill in the three adjustments |
| `Numbers.OStream.PutInt` | upstream/pico-linux/no-OS-FatFS-SD-SPI-RPi-Pico/include/iostream/ostream.cpp:128-131 | A signed number shows a sign only in base 10 |
| `Numbers.ValueOfDigits` | upstream/pico-linux/no-OS-FatFS-SD-SPI-RPi-Pico/include/iostream/ostream.h:300-310 | The digits of a number have its value |
| `Numbers.CutTest` | upstream/pico-linux/no-OS-FatFS-SD-SPI-RPi-Pico/include/iostream/istream.cpp:286-306 | The test before the multiplication is exact: it stops if and only if the next value would exceed the limit |
| `Numbers.IStream.GetNumber` | upstream/pico-linux/no-OS-FatFS-SD-SPI-RPi-Pico/include/iostream/istream.cpp:257-318 | On any input: the number and the stop position, or failure; a digit string succeeds exactly when its value is within the limit, and nothing wraps |
| `Numbers.UnsignedRoundTrip` | upstream/pico-linux/no-OS-FatFS-SD-SPI-RPi-Pico/include/iostream/ostream.h:312-346 | Every unsigned 32-bit number printed in base 8, 10 or 16, with or without base prefix and upper case, reads back as itself, stopping just after its last digit, if and only if what follows is neither a further digit nor, behind a 0 in base 16 without prefix, an x with a hexadecimal digit |
| `Numbers.ReadTogether` | upstream/pico-linux/no-OS-FatFS-SD-SPI-RPi-Pico/include/iostream/istream.cpp:275-284 | A 0 printed in base 16 with x1 behind it is read as 1, with the stream behind all three characters |
| `Numbers.SignedRoundTrip` | upstream/pico-linux/no-OS-FatFS-SD-SPI-RPi-Pico/include/iostream/ostream.cpp:128-131 | Every signed 32-bit number in base 10 reads back as itself if and only if no further digit follows |
| `Numbers.PrintThenRead` | upstream/pico-linux/no-OS-FatFS-SD-SPI-RPi-Pico/include/iostream/istream.cpp:257-318 | Printing and then reading through the two stream objects gives the number back |
| `Gfx.Display.DrawLine` | upstream/pico-linux/pico-displayDrivs/gfx/gfx.c:81-130 | With 16-bit variables, as the program has them, the error-term loop issues exactly the rounded points of the ideal line, one per step of the major axis, and paints exactly the visible ones |
| `Gfx.LineHasEnds` | upstream/pico-linux/pico-displayDrivs/gfx/gfx.c:81-130 | Both end points are drawn |
| `Gfx.LineIsClose` | upstream/pico-linux/pico-displayDrivs/gfx/gfx.c:81-130 | Every pixel is within half a pixel of the ideal line |
| `Gfx.LoopEndsExactly` | upstream/pico-linux/pico-displayDrivs/gfx/gfx.c:113 | With its wrapping 16-bit variable, which is the one of the loop method, the loop's test fails at some turn if and only if the line does not end at the largest coordinate |
| `Gfx.DrawnAt` | upstream/pico-linux/pico-displayDrivs/gfx/gfx.c:68-79 | A pixel of the screen has the colour if it was drawn, and is unchanged otherwise |
| `Gfx.DrawCircle` | upstream/pico-linux/pico-displayDrivs/gfx/gfx.c:395-431 | For every 16-bit radius and centre: the four axis points and eight mirror images, at 16-bit coordinates, of the rows that the loop's wrapping variables give, column by column until the diagonal |
| `Gfx.CircleExactly` | upstream/pico-linux/pico-displayDrivs/gfx/gfx.c:395-431 | Every column of the octant satisfies that x*x + y*y is within y of r*r, rows going down by at most one a column as far as the diagonal, if and only if the radius is at most 16556, or 16642 or 16643 |
| `Gfx.NoCircle` | upstream/pico-linux/pico-displayDrivs/gfx/gfx.c:413-419 | At radius 16557 the error term wraps at the first step down, and column 130 is drawn a row too low |
| `Vt.Terminal.constructor` | upstream/pico-rv32ima/pico-rv32ima/console/terminal/vt.c:659-664 | The terminal starts in a state that keeps all bounds |
| `Vt.NextOk` | upstream/pico-rv32ima/pico-rv32ima/console/terminal/vt.c:617-629 | A byte that keeps the parameter it goes to below 10^9 keeps all parameters in range, 16 of them at most |
| `Vt.Terminal.Feed` | upstream/pico-rv32ima/pico-rv32ima/console/terminal/vt.c:553-657 | Over every byte stream whose control-sequence parameters stay below 10^9: cursor and saved cursor on the 53x30 screen, 0 <= top < bot <= 29, at most 16 parameters and colours in 0..7, and the escape state is what the parser function says; all other state (cursor, pen, modes, region, saved cursor, pending wrap, parser and replies) and every cell of the screen are what a function of the start and the bytes says, of which the rows of VtText say what it means |
| `Vt.Terminal.PutC` | upstream/pico-rv32ima/pico-rv32ima/console/terminal/vt.c:553-657 | One byte keeps all of that, leaves cursor, pen, modes, region, saved cursor, pending wrap, parser and replies and the whole screen exactly as functions of the state before it say, and changes no cell outside the scroll region and the cursor's rows unless it erases the display |
| `Vt.Terminal.RunCsi` | upstream/pico-rv32ima/pico-rv32ima/console/terminal/vt.c:288-492 | A control sequence with an unknown prefix changes nothing; for any other the state and the screen afterwards are exact: a cursor sequence moves to its column and row, an editing sequence leaves the edited screen, and the rest no cell |
| `Vt.Terminal.EscFinal` | upstream/pico-rv32ima/pico-rv32ima/console/terminal/vt.c:494-551 | The escape's next state; index, reverse index and full reset leave exactly the expected screen and state; save and restore exchange cursor, colours and origin mode |
| `Vt.Terminal.ScrollUp` | upstream/pico-rv32ima/pico-rv32ima/console/terminal/vt.c:75-83 | Rows of the region move up by n, blank ones come in below, and no other row changes |
| `Vt.Terminal.ScrollDown` | upstream/pico-rv32ima/pico-rv32ima/console/terminal/vt.c:85-93 | The mirror image, copied from the bottom so that no row is overwritten before it has moved |
| `Vt.Terminal.EditedOutside` | upstream/pico-rv32ima/pico-rv32ima/console/terminal/vt.c:351-435 | Of the editing sequences only ED reaches beyond the scroll region and the cursor's row |
| `Vt.Terminal.EditLines` | upstream/pico-rv32ima/pico-rv32ima/console/terminal/vt.c:387-402 | Insert and delete line move only rows from the cursor's to the region's end, and nothing when the cursor is outside the region |
| `Vt.Terminal.PutGlyph` | upstream/pico-rv32ima/pico-rv32ima/console/terminal/vt.c:133-158 | A pending wrap goes to the next line first, scrolling at the region's bottom; then the glyph, the row moved right in insert mode, and the next pending wrap |
| `Vt.Terminal.SetCursor` | upstream/pico-rv32ima/pico-rv32ima/console/terminal/vt.c:95-115 | The cursor goes inside the region in origin mode and on the screen otherwise |
| `Vt.Terminal.CursorCsi` | upstream/pico-rv32ima/pico-rv32ima/console/terminal/vt.c:299-350 | The column and row after each cursor sequence, with the margins that stop vertical moves |
| `Vt.Terminal.Sgr` | upstream/pico-rv32ima/pico-rv32ima/console/terminal/vt.c:205-243 | The parameters apply to the colours from left to right, the arguments of extended colours skipped |
| `Vt.Terminal.SetMode` | upstream/pico-rv32ima/pico-rv32ima/console/terminal/vt.c:245-267 | The parameters apply to the modes in turn, and switching origin mode sends the cursor home |
| `Vt.Terminal.PutUint` | upstream/pico-rv32ima/pico-rv32ima/console/terminal/vt.c:270-280 | The digits of a 32-bit number, highest first, in a buffer of ten |
| `Vt.ParsedDigits` | upstream/pico-rv32ima/pico-rv32ima/console/terminal/vt.c:619-625 | Decimal digits typed into an empty parameter give their number |
| `Vt.ReportReadsBack` | upstream/pico-rv32ima/pico-rv32ima/console/terminal/vt.c:466-484 | A reported cursor position sent back as a cursor sequence returns to the same column, and to the same row if and only if the cursor was not outside the region in origin mode |
| `VtText.RestoredOutside` | upstream/pico-rv32ima/pico-rv32ima/console/terminal/vt.c:160-179 | A new terminal fed ESC[?6h, ESC 7, ESC[6;11r and ESC 8 has its cursor outside the region, and the row that it then reports does not lead back |
| `C4Scanner.Scanner.Next` | apps/c4/c4.c:53-137 | One call of `next` on any text: position, token, number, identifier, symbol table and string data afterwards are those of a function on values, through names with their rolling hash, numbers in three bases with 32-bit wrap-around, literals with escapes, comments and operators |
| `C4Scanner.MatchIsName` | apps/c4/c4.c:76-83 | A symbol-table entry that agrees in hash and in the compared prefix is the name itself, for all names of at most 64 characters: the hash's low six bits are the length |
| `C4Scanner.SafeExactly` | apps/c4/c4.c:76-83 | Among names of at most n characters agreement in hash and compared prefix is equality for all of them if and only if n is at most 64 |
| `C4Scanner.FindOwn` | apps/c4/c4.c:80-84 | A search that reaches the end of the table has missed no entry with the name, however long |
| `C4Scanner.FindExact` | apps/c4/c4.c:80-84 | For names of at most 64 characters the search finds the name's entry if and only if the table has one |
| `C4Scanner.NamesConfused` | apps/c4/c4.c:79-83 | Beyond that it does not: a name of 65 characters that starts with a has the hash of the name a, and a search for a ends at its entry |
| `C4Scanner.LexKeepsTable` | apps/c4/c4.c:75-89 | Over every text, with names of any length, no name is ever entered twice, and entries stay where they are |
| `C4Layout.ScannedAlike` | apps/c4/c4.c:75-84 | The text of that long name, a blank and a: both calls of `next` give the first entry |
| `C4Layout.GapSkipped` | apps/c4/c4.c:57-74 | Blanks, line comments and `#` lines make no difference to the next token |
| `C4Layout.NameScans` | apps/c4/c4.c:75-84 | A name of the table followed by a blank scans to its entry's token and index |
| `C4Layout.NumScans` | apps/c4/c4.c:90-99 | Every 32-bit number scans to itself, in base 10 or, when negative, as its two's complement in base 16 |
| `C4Layout.OpScans` | apps/c4/c4.c:122-135 | Every operator and single-character token scans to itself, the longer one first |
| `C4Layout.ScanLayout` | apps/c4/c4.c:53-137 | Any layout of any tokens, names of at most 64 characters, separated by gaps of blanks and comments that start with a blank, scans back to exactly those tokens |
| `C4Layout.AddKeywords` | apps/c4/c4.c:380-382 | The keyword loop of `main` fills the table with the nine keywords, each under its token and once |
| `C4Source.StmtSpelled` | apps/c4/c4.c:35-40 | Every token of a printed statement has a spelling |
| `C4Source.SourceAndRun` | apps/c4/c4.c:53-355 | From text to behaviour: any layout of a well-formed statement with names of at most 64 characters is scanned, parsed to its last token, and its code, run by the machine, does what the statement means |
| `RvValues.StoreIs` | upstream/pico-rv32ima/tiny-rv32ima/emulator/emulator.c:67-69 | A store of 1, 2 or 4 bytes leaves in RAM, at the place of its i-th byte, the value divided by 256^i modulo 256, and every other byte as it was |
| `RvValues.LoadIs` | upstream/pico-rv32ima/tiny-rv32ima/emulator/emulator.c:71-104 | A load of n bytes is the sum of byte i times 256^i |
| `RvValues.LoadAfterStore` | upstream/pico-rv32ima/tiny-rv32ima/emulator/emulator.c:67-104 | So a load behind a store of the same size gives the value modulo 256^n |
| `RvValues.ExtendedIs` | upstream/pico-rv32ima/tiny-rv32ima/emulator/mini-rv32ima.h:244-252 | LB and LH give the word whose signed reading is that of 8 or 16 bits; the others leave the value |
| `RvValues.MulDivIs` | upstream/pico-rv32ima/tiny-rv32ima/emulator/mini-rv32ima.h:312-329 | For every pair of words: MUL, MULH, MULHSU and MULHU are the lower and upper halves of the products, the dividend is divisor times quotient plus remainder with the remainder smaller than the divisor and of the dividend's sign, and the zero divisors and the one overflow as sections 7.1 and 7.2 have them |
| `RvValues.AluIs` | upstream/pico-rv32ima/tiny-rv32ima/emulator/mini-rv32ima.h:330-343 | Sums and differences modulo 2^32, shifts as products and rounded quotients by powers of two, comparisons, and the three gates bit by bit |
| `RvValues.AmoIs` | upstream/pico-rv32ima/tiny-rv32ima/emulator/mini-rv32ima.h:482-491 | The nine read-modify-write operations: sums modulo 2^32, gates bit by bit, minima and maxima of signed and unsigned readings |
| `RvIsa.Executes` | upstream/pico-rv32ima/tiny-rv32ima/emulator/mini-rv32ima.h:171-498 | Every instruction of RV32IMA, of the privileged ones and of the CSR ones, encoded as the manual's tables have it from its name, its registers and its immediate, does what its name says: registers, RAM bytes, CSRs, devices, faults and the next pc |
| `RvIsa.Fetches` | upstream/pico-rv32ima/tiny-rv32ima/emulator/mini-rv32ima.h:151-512 | With the instruction's encoding in RAM at pc the machine goes through exactly that, the result in its register and x0 unwritten |
| `RvIsa.TrapThenReturn` | upstream/pico-rv32ima/tiny-rv32ima/emulator/mini-rv32ima.h:426-540 | MRET behind a trap leads back to where the trap came from, with the interrupt enable and the mode as they were |
| `RvIsa.CsrReadsBack` | upstream/pico-rv32ima/tiny-rv32ima/emulator/mini-rv32ima.h:361-414 | Each of the eight writable CSRs reads back what was written to it, and none of the others changes |
| `RvTraps.IllegalExactly` | upstream/pico-rv32ima/tiny-rv32ima/emulator/mini-rv32ima.h:171-498 | An instruction word faults as illegal if and only if its opcode is not one of the twelve, or its function code is none of those of its opcode; a load, a store and an atomic look at theirs only for an address in RAM |
| `RvTraps.FetchFaults` | upstream/pico-rv32ima/tiny-rv32ima/emulator/mini-rv32ima.h:154-165 | A pc outside RAM traps with cause 1, one off a word's boundary with cause 0, each with its own address |
| `RvTraps.TrapCsrs` | upstream/pico-rv32ima/tiny-rv32ima/emulator/mini-rv32ima.h:515-540 | The handler finds cause, value and place of the trap in the CSRs 0x342, 0x343 and 0x341, is where 0x305 pointed, and has interrupts off and their old enable in bit 7 of 0x300 |
| `RvTraps.StepTurns` | upstream/pico-rv32ima/tiny-rv32ima/emulator/mini-rv32ima.h:120-149 | One call: the timer goes on as a number of 64 bits; past a nonzero match value it sets bit 7 of mip and wakes the processor and otherwise clears that bit; then a wait, the trap 0x80000007 at pc when all three bits say so, or the batch |
| `RvCore.StructLayout` | upstream/pico-rv32ima/tiny-rv32ima/emulator/mini-rv32ima.h:71-99 | Each field of the core struct is in its four bytes of the snapshot, at the offset that the declaration gives it |
| `C4Vm.AluComputes` | apps/c4/c4.c:524-539 | Each of the machine's sixteen operations on words: gates bit by bit, comparisons, shifts as products modulo 2^32 and rounded quotients, sums, differences and products modulo 2^32, quotient and remainder with the dividend's sign |
| `C4Vm.OperationComputes` | apps/c4/c4.c:524-539 | The machine's turn for an operation pops its left operand and leaves that in `a`, with nothing else changed but pc |
| `C4Vm.ComplementIs` | apps/c4/c4.c:204 | The exclusive or with -1 is the complement |
| `C4Vm.CallEnters` | apps/c4/c4.c:512-515 | JSR and ENT: return address and frame pointer on the stack, locals below them, pc behind the ENT |
| `C4Vm.CallReturns` | apps/c4/c4.c:516-517 | LEV and ADJ give back the caller's frame and stack pointers when the callee kept the two words of its frame |
| `C4Theorems.OperatorComputes` | apps/c4/c4.c:241-265 | A binary operator of the language computes what its instruction does |
| `C4Grouping.OperatorsGroup` | apps/c4/c4.c:223-286 | x op y op z without parentheses is read by C's precedence table, and from the left within a class, for every pair of binary operators |
| `C4Grouping.LogicalGroup` | apps/c4/c4.c:239-240 | && is tighter than the other of the two logical operators, each groups from the left, and both are looser than every other binary operator |
| `C4Grouping.AssignGroups` | apps/c4/c4.c:225-229 | Assignment groups from the right |
| `C4Grouping.ChoiceGroups` | apps/c4/c4.c:230-238 | The conditional groups from the right |
| `C4Grouping.MinusGroups` | apps/c4/c4.c:206-210 | A unary minus takes only what follows it directly |
| `C4Calls.CallParsed` | apps/c4/c4.c:158-170 | A call with any arguments becomes their code from left to right, each value pushed, the jump to the function, and the stack adjustment by their number; its type is the function's |
| `C4Calls.ArgsSim` | apps/c4/c4.c:163 | Running the arguments' code leaves their values on the stack, evaluated from left to right, the first one highest, with variables updated and everything else kept |
| `C4Calls.CallSim` | apps/c4/c4.c:427-464 | Up to the callee's first instruction: the word that each parameter's LEA reaches is its argument's value, and the frame has the caller's frame pointer and the position behind the call |
| `C4Calls.CallBack` | apps/c4/c4.c:466-517 | When the callee kept its frame's two words, its LEV and the ADJ behind the call leave the caller's frame and stack as before the arguments, with the result in `a` |
| `C4Pointers.IndexIsDeref` | apps/c4/c4.c:277-284 | a[i] emits the code and has the type of *(a + i), for every operand i that ends at the bracket |
| `C4Pointers.AddressOfTarget` | apps/c4/c4.c:193-202 | &*p is p |
| `C4Pointers.TargetOfAddress` | apps/c4/c4.c:193-202 | *&v is v for what ends with the load of its type |
| `C4Pointers.SizeofIs` | apps/c4/c4.c:150-157 | sizeof is 1 for char, and 4 for int and for pointers of any depth |
| `C4Pointers.CastIs` | apps/c4/c4.c:179-187 | A cast changes the type, by two for each star, and nothing else |
| `C4Pointers.AddEmits` | apps/c4/c4.c:252-256 | What + emits, by the type of its left operand |
| `C4Pointers.SubEmits` | apps/c4/c4.c:257-262 | The difference of two pointers of one type counts elements; other differences keep the left type |
| `C4Pointers.SumComputes` | apps/c4/c4.c:252-262 | Those words, run by the machine, move a pointer by as many elements as the right operand says, forward or back |
| `C4Pointers.DistanceComputes` | apps/c4/c4.c:257-262 | And the difference of a pointer i elements on and the pointer itself is i |
| `C4Literal.StringScans` | apps/c4/c4.c:110-121 | Any string without zero characters, spelled as a literal, is appended to the data by one call of the scanner, exactly, and the scanner stops behind the closing quote with the position of the data |
| `C4Literal.CharacterScans` | apps/c4/c4.c:110-121 | A character literal gives its character's code, and a line feed is spelled with n |
| `C4Literal.OctalScans` | apps/c4/c4.c:96-98 | The octal spelling of every 32-bit number scans to it |
| `C4Literal.HexScans` | apps/c4/c4.c:92-95 | So does the one in base 16, with digits of either case |
| `C4Literal.LettersAre` | apps/c4/c4.c:75-76 | Names start with a letter or an underscore and go on with those and digits, by character codes |
| `C4Literal.EndScans` | apps/c4/c4.c:53-137 | Where the text ends, and at a character 0, there is no token |
| `C4Layout.StartupText` | apps/c4/c4.c:380-382 | The text that `main` scans first begins with the nine keywords in the order of their tokens |
| `VtText.ColourTyped` | upstream/pico-rv32ima/pico-rv32ima/console/terminal/vt.c:205-243 | ESC [ n m and a printable byte leave a cell with the colours that n gives, for every n: 30 to 37 and 90 to 97 the foreground, 40 to 47 and 100 to 107 the background, 39 and 49 the defaults, 7 and 27 reverse video, 0 all of it |
| `VtText.TypeColoured` | upstream/pico-rv32ima/pico-rv32ima/console/terminal/vt.c:205-243 | A terminal fed ESC [ 3 d m and a character shows it in colour d |
| `VtText.SgrSplits` | upstream/pico-rv32ima/pico-rv32ima/console/terminal/vt.c:205-243 | A list of colour parameters is its first one and then the others, where 38 and 48 take their arguments with them |
| `VtText.TextWraps` | upstream/pico-rv32ima/pico-rv32ima/console/terminal/vt.c:133-158 | n printable bytes from column 0 with autowrap put the k-th at row k / 53 and column k % 53, down to the region's bottom, and touch no other cell |
| `VtText.TypeText` | upstream/pico-rv32ima/pico-rv32ima/console/terminal/vt.c:553-657 | So does a terminal that is fed them |
| `VtText.GlyphTyped` | upstream/pico-rv32ima/pico-rv32ima/console/terminal/vt.c:133-158 | A printable byte where no wrap is pending: its cell, in insert mode the row moved right, and the cursor or the next pending wrap |
| `VtText.GlyphWrapped` | upstream/pico-rv32ima/pico-rv32ima/console/terminal/vt.c:133-158 | A printable byte behind a full row goes to column 0 of the next row, and at the region's bottom the region moves up |
| `VtText.CursorTyped` | upstream/pico-rv32ima/pico-rv32ima/console/terminal/vt.c:299-346 | The cursor sequences with their number typed out, margins included |
| `VtText.PlaceTyped` | upstream/pico-rv32ima/pico-rv32ima/console/terminal/vt.c:347-350 | ESC [ row ; column H goes there, counted from 1, inside the region in origin mode |
| `VtText.UpAndDown` | upstream/pico-rv32ima/pico-rv32ima/console/terminal/vt.c:299-319 | Up and down again by a number that no margin cuts off leads back |
| `VtText.EraseTyped` | upstream/pico-rv32ima/pico-rv32ima/console/terminal/vt.c:351-386 | The three ways to erase in display and row clear exactly their cells, in the current colours |
| `VtText.LinesTyped` | upstream/pico-rv32ima/pico-rv32ima/console/terminal/vt.c:387-402 | Inserted and deleted lines move the rows from the cursor's to the region's bottom by their number, blank ones come in, and the cursor goes to column 0 |
| `VtText.ScrollTyped` | upstream/pico-rv32ima/pico-rv32ima/console/terminal/vt.c:431-436 | The scroll sequences do that to the whole region |
| `VtText.LinesBack` | upstream/pico-rv32ima/pico-rv32ima/console/terminal/vt.c:387-402 | Deleting as many lines as were inserted brings back all rows but those pushed out |
| `VtText.CharsTyped` | upstream/pico-rv32ima/pico-rv32ima/console/terminal/vt.c:403-430 | Deleted, inserted and erased characters, by number, in the cursor's row only |
| `VtText.ModeTyped` | upstream/pico-rv32ima/pico-rv32ima/console/terminal/vt.c:245-267 | Each mode sequence switches its own mode and no other |
| `VtText.RegionTyped` | upstream/pico-rv32ima/pico-rv32ima/console/terminal/vt.c:437-450 | ESC [ t ; b r sets the region, if it has two rows, and sends the cursor home |
| `VtText.StatusTyped` | upstream/pico-rv32ima/pico-rv32ima/console/terminal/vt.c:466-484 | The two status requests and their replies, byte by byte |
| `VtText.IdentityTyped` | upstream/pico-rv32ima/pico-rv32ima/console/terminal/vt.c:485-488 | The identity request and its reply |
| `VtText.ControlTyped` | upstream/pico-rv32ima/pico-rv32ima/console/terminal/vt.c:586-613 | Carriage return, line feed, backspace, tab and the controls that do nothing |
| `VtText.EscapeTyped` | upstream/pico-rv32ima/pico-rv32ima/console/terminal/vt.c:494-551 | ESC and one more character: save, restore, index, next line, reverse index, reset and identity |
| `VtText.TitleIgnored` | upstream/pico-rv32ima/pico-rv32ima/console/terminal/vt.c:561-575 | A window title with any text in it leaves the terminal as it was |
| `VtText.Aborted` | upstream/pico-rv32ima/pico-rv32ima/console/terminal/vt.c:555-560 | CAN and SUB end any sequence and do nothing else |
| `VtText.NotDrawn` | upstream/pico-rv32ima/pico-rv32ima/console/terminal/vt.c:586-653 | DEL and continuation bytes draw nothing |
| `VtText.CharacterSet` | upstream/pico-rv32ima/pico-rv32ima/console/terminal/vt.c:514-521 | Character-set sequences do nothing |
| `VtText.ControlInside` | upstream/pico-rv32ima/pico-rv32ima/console/terminal/vt.c:586-614 | A control inside a control sequence acts as it does at rest, and the sequence goes on |
| `VtText.BareSequence` | upstream/pico-rv32ima/pico-rv32ima/console/terminal/vt.c:197-203 | A control sequence without a number does what it does with a 0 |
| `VtText.ZeroIsOne` | upstream/pico-rv32ima/pico-rv32ima/console/terminal/vt.c:197-203 | And a move or an edit with the count 0 does what it does with 1 |
| `VtText.ForeignSequence` | upstream/pico-rv32ima/pico-rv32ima/console/terminal/vt.c:634-637 | A control sequence with a prefix or intermediate byte that is not known does nothing |
| `C4Pointers.DerefIs` | apps/c4/c4.c:193-197 | Following a char pointer loads a char, following any other one a word, and the type loses one star |
| `C4Pointers.AssignIs` | apps/c4/c4.c:225-229 | An assignment takes back the load of its left side, pushes the address, and behind the right side stores by that type |
| `C4Pointers.NameIs` | apps/c4/c4.c:171-177 | A constant's value, or a variable's address, local or global, and the load of its type |
| `C4Pointers.StringsJoin` | apps/c4/c4.c:145-149 | String literals side by side are one char pointer, to the first one's place |
| `RvRun.SysconEnds` | upstream/pico-rv32ima/tiny-rv32ima/emulator/emulator.c:346-372 | A store to the SYSCON ends the loop with power off for 0x5555, reboot for 0x7777, and an unknown state for any word but those, 0, 1 and 3 |
| `Astar.MovesAre` | hardware/carrier/checks/finish_routes.py:182-190 | The legal moves and their costs cell by cell: eight steps on the layer at 0.1 and 0.14142, onto free cells or goals inside the grid, and a via at 2.0 where both layers have room |
| `PetitFat.FatEntryIs` | upstream/pico-rv32ima/tiny-rv32ima/pff/pff.c:457-466 | A FAT entry is two or four bytes of the FAT, the lowest first, and of 32 bits the upper four do not count |
| `Directory.WantedIs` | upstream/pico-rv32ima/tiny-rv32ima/pff/pff.c:600-602 | An entry is found by its eleven name bytes unless its volume-label bit is set; read-only, hidden, system, directory and archive make no difference; a first byte 0 ends the table |
| `Directory.WalkFollowsChain` | upstream/pico-rv32ima/tiny-rv32ima/pff/pff.c:543-575 | The k-th entry is in the cluster of that number along the directory's chain |
| `Directory.EntrySector` | upstream/pico-rv32ima/tiny-rv32ima/pff/pff.c:543-575 | And in the sector of that number from the cluster's or the static table's first |
| `Directory.StaticTable` | upstream/pico-rv32ima/tiny-rv32ima/pff/pff.c:558-560 | The static root table has all its entries, each in its sector, and ends behind the last |
| `Directory.ChainTable` | upstream/pico-rv32ima/tiny-rv32ima/pff/pff.c:561-569 | A directory of clusters goes on exactly as long as its chain: behind a cluster's last entry it ends where the chain does, with an error for a link of 0 or 1 |
| `Gfx.CircleSymmetric` | upstream/pico-linux/pico-displayDrivs/gfx/gfx.c:395-431 | The columns draw every mirror image of every point of the octant, and nothing else |
| `Gfx.AxesAre` | upstream/pico-linux/pico-displayDrivs/gfx/gfx.c:405-408 | And the ends of the axes with them |
| `Numbers.DigitCase` | upstream/pico-linux/no-OS-FatFS-SD-SPI-RPi-Pico/include/iostream/ostream.h:300-310 | Digits above 9 are letters, in the case asked for |
| `Numbers.FieldIs` | upstream/pico-linux/no-OS-FatFS-SD-SPI-RPi-Pico/include/iostream/ostream.h:312-346 | The field is as wide as asked or as the text needs, and filled before the text, behind it, or between prefix and digits |
| `Numbers.PrefixIs` | upstream/pico-linux/no-OS-FatFS-SD-SPI-RPi-Pico/include/iostream/ostream.h:312-346 | A sign appears in base 10 only, and the mark of the other bases if it is asked for |
| `Numbers.TypedReads` | upstream/pico-linux/no-OS-FatFS-SD-SPI-RPi-Pico/include/iostream/istream.cpp:257-318 | Blanks, a sign, the mark of base 16 and any digits are read as the number that they spell, with the stream behind them, or as none past the limit of their sign |
| `Numbers.NothingTyped` | upstream/pico-linux/no-OS-FatFS-SD-SPI-RPi-Pico/include/iostream/istream.cpp:257-318 | Without a digit nothing is read and the stream stays where it was |
| `Crc.PolynomialIs` | firmware/sdtest/main.c:47-57 | The message of a single 1 leaves the polynomial: its check value is 0x1021 |

## Left out

- C4Lang.Wf: int-only names, constants and operators; pointers, char and function calls are in the parser functions (all their branches), in `C4Pointers` and in `C4Calls`, but not in the tree semantics.
- C4Calls.CallSim: the arguments are int expressions without calls in them, and the callee's declaration is given by its scope; that a callee keeps its frame's two words is a condition of `C4Calls.CallBack`.
- C4Vm.Step: the int and control opcodes; LC, SC and the system calls are left out. Code addresses count words of the code, data addresses count words of memory, unwritten memory reads 0, and division by zero gives what the processor's own divide instruction gives.
- C4Parser.Parser: errors are a failure result instead of an exit with a message; the tokens are scanned ahead of the parser instead of one by one, and the declarations in `main` are left out.
- C4Scanner.Scanner: the text reads as zeros behind its end, where the program reads on after an unclosed literal; the line counter for messages, the alignment of the data behind a string, the listing of source and code (`src`) and the library names are left out.
- C4Scanner.FindExact: names of at most 64 characters, and so is the table of `C4Layout.ScanLayout` and `C4Source.SourceAndRun`; `C4Scanner.SafeExactly` shows that longer ones cannot be allowed.
- C4StmtSim.StmtSim: stated for the code between entry and return of one function.
- Cache.Cache.Read: accesses stay inside one 16-byte line and inside the 16 MB, as the cache's code relies on; the byte-stepping device-tree scan does not.
- Psram.Chip: each chip has its own 8 MB; the desktop stand-in keeps one array for both. Transfer clocking, chip reset and the bulk loaders are left out.
- PetitFs.FatFs: FAT16 and FAT32, no device errors, and cluster chains that are valid and free of cycles for the results about bytes; mounting and path parsing are left out, so a file is given by its first cluster and size.
- PetitFs.FatFs.Write: the results about bytes need a start that `RoundsOk` allows; others are covered only as far as no access leaves the disk.
- PetitFs.Disk: a sector write is one atomic replacement at its finalization.
- Directory.Dir.Find: a sector number 0 of an invalid cluster reads sector 0, as in the program; long names do not exist there.
- Emulator.Emulator.CsrWrite: the console and the keyboard registers are left out.
- Emulator.Emulator.BlockRequest: word-aligned ranges inside the RAM and sector-aligned ranges inside the file.
- Hibernation.PowerCycle: the snapshot file is large enough and shares no cluster with the state file; the kernel, device-tree and block-image files and the patching of the device tree are left out.
- RvCpu.Cpu: RAM is flat memory; devices and custom CSRs are functions of an environment, which may also change RAM.
- RvCached.Board: accesses inside a line, as for the cache itself, and custom CSRs that leave RAM alone; a block transfer, which changes RAM, is in `Emulator` over the same cache.
- RvSpec.Execute: reserved encodings do what the code does with them (funct3 of AMO and JALR ignored, bit 25 alone selecting RV32M, MRET by the low byte of its number).
- RvRun.VmLoop: the clock is a sequence of elapsed times; reading the two counters from the other core while they change is left out.
- Astar.Astar: exact reals instead of floats, the distance function given by its square, the aiming point a parameter, and costs from 1e9 on not considered, as in the program; board geometry is left out.
- Numbers.OStream: 32-bit numbers; the 64-bit and floating-point printers are left out, and a width of 255 or more, where the 8-bit length would matter, cannot occur for the text itself.
- Numbers.IStream: leading spaces are skipped (the default flag), input is ASCII.
- Vt.Terminal: control-sequence parameters below 10^9, as 32-bit signed arithmetic needs; the screen is one array of cells where the program has three; drawing the cells and reading the cursor-key and visibility modes are left out.
- Gfx.Display: coordinate differences of a line fit in 16 bits; filled shapes and text are left out.
- SPI, GPIO, DMA, USB and I2C plumbing, the SD card protocol and its emulator beyond the CRC, VGA output, the OLED panel, Tiny BASIC, the router's negotiation rounds, and the release scripts.
