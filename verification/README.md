# Proofs about a bare-metal Raspberry Pi library

This project models five machines of the repository as explicit states with step
relations, and proves what holds over every run of them:

* the **single-step interleaver** (`lib/src/debug.rs`), which uses a mismatch breakpoint
  to run threads one instruction at a time under a scheduler;
* the **cooperative threads** (`lib/src/thread.rs`), whose context switches are written in
  assembly;
* the **boot protocol** between the Pi's loader and the host's installer
  (`bootloader/src/main.rs`, `installer/src/main.rs`);
* the **software UART** (`lib/src/uart.rs`), timed by a wrapping cycle counter;
* the **pinned TLB** (`lib/src/virtual_memory.rs`), eight bit-packed entries behind an
  index register.

`dafny verify dfyconfig.toml` checks everything.

## How the model is laid out

Code that updates state in place is a class whose methods update the same state, loop by
loop and, in the context switches, instruction by instruction. Each such method is proved
against a specification function or relation, and the theorems are about runs of those.

| files | what they hold |
|---|---|
| `Bytes`, `BitFields`, `Sequences` | words and bytes, packed fields, regrouping and counting in sequences |
| `Crc`, `CrcRemainder` | CRC-32/BZIP2 with initial value 0, bit by bit; the polynomial remainder that it is |
| `Debugging` | the trap handler over its statics (`Debugger`) and the trap entry with its 15-word frame (`Core`) |
| `Interleaving`, `InterleavingProof`, `InterleavingTheorems`, `InterleavingIsolation` | the CPU with the handler, the abstract interleaving that it refines, termination, isolation |
| `Exploration`, `Umain` | the two-thread search of `umain` |
| `Breakpoints` | the bit-packed breakpoint control register |
| `Threads`, `ThreadRuns`, `ThreadTheorems`, `ThreadQueue`, `ThreadStart` | the context switches (`Processor`), runs of any threads, calls, the queue, the loop of `start` (`Kernel`) |
| `BootShared`, `Bootloader`, `Installer` | the protocol words, the loader (`Loader`) and the installer (`Transmitter`) |
| `BootSession`, `BootProof`, `BootTheorems`, `BootCompletion`, `BootOutcome` | both sides over two FIFO channels: the invariant, safety, absence of dead ends, how sessions end |
| `CycleCounter`, `SoftwareUart`, `UartReceiver` | waiting on the counter (`Clock`), the transmitter (`SWUart`), a receiver that decodes it |
| `Lockdown`, `PinnedTlb` | the register layouts, the pins of `setup` and the illegal segment (`Tlb`) |

## Assumptions

* Interleaver: an instruction is an arbitrary function of a register file and memory that
  changes the pc; mismatch mode stays on for the whole run; a thread does not start at
  `thread_finished`; the call of `trigger_interleaving` is not at the first thread's entry.
  Condition flags are not part of a register file, as in the code.
* Threads: data addresses count words and code addresses count instructions, so that the
  pc reads as the instruction's address plus two and `add r0,r0,#8` adds two. Compiled
  functions obey the procedure call standard (section 6.1.1 of AAPCS32): they may clobber
  r0-r3, r12, lr and the stack below sp, and nothing else. Threads write their own stacks
  and what is shared; a stack has room for what a switch pushes.
* Boot: one session. Scheduling, deadlines, failing writes, chunk sizes from 0 to 8 and the
  moment at which the installer opens its port are arbitrary, and so is the number of
  requests that it misses. The program bytes may be altered or lost; the other words arrive
  as they were sent.
* Software UART: real time is a number that does not wrap, the counter shows it modulo
  2^32, and each step takes an unknown time that is bounded by a latency.
* Search of `umain`: thread 0 is a straight line of N instructions, which may read and write
  memory as long as thread 1 does not knock it off that line; thread 1 ends when it is run
  alone.
* TLB: that addresses translate to themselves is stated for a TLB whose eighth lockdown entry
  is invalid or holds the illegal segment. `Tlb.Setup` leaves that entry as it was.

## Findings

* `umain` sets `A_STOP` after the run that was to use it (`lib/src/debug.rs:352-370`), and
  thread 0's count is one more than its instructions. With N instructions in thread 0 there
  are N preemption points, 0 to N-1; the search visits all of them exactly if N is 1, and
  otherwise never the last one. `Umain.PointsExplored` says so, and `Explorer.Explore`
  ensures it.
* The installer reporting success does not mean that the Pi has booted: its last word can
  come too late for the Pi (`BootCompletion.SuccessDoesNotMeanBooted` has such a run for
  every program that fits). `BootOutcome.SuccessMeansBootedUnlessLate` gives the exact
  condition over every run: the Pi gives up if and only if the 10 ms deadline of
  `bootloader/src/main.rs:153` passes while it waits for that word.
* A delay can be missed by a whole turn of the counter if it is within one sampling latency
  of a turn: two samples can then lie around the rest of the turn.
  `CycleCounter.WhenDelaysEnd` gives the exact condition.
* The comment at `lib/src/thread.rs:237` has r4 and r5 the wrong way round: the trampoline
  takes the argument from r4 and the code from r5. `ThreadTheorems.ForkIsACall` follows the
  code.

## Model

| member | source | states |
|---|---|---|
| `Bytes.LeRoundTrip` | lib/src/uart.rs:88-90 | a word that is written little end first and read back is the same word |
| `Bytes.WindowIsLastFour` | lib/src/uart.rs:79-80 | a window that bytes are shifted into from the top holds the little-endian word of the last four |
| `Crc.ChunkingDoesNotMatter` | bootloader/src/main.rs:121-137 | the Pi's digest over any split of the received bytes into chunks is the installer's digest of them all in one go |
| `CrcRemainder.ChecksumIsRemainder` | bootloader_shared/src/lib.rs:17 | a word is a message's checksum exactly if its complement is the remainder that the message's bits, highest first and followed by 32 zeros, leave on division over GF(2) by the generator with the exponents 32, 26, 23, 22, 16, 12, 11, 10, 8, 7, 5, 4, 2, 1 and 0 |
| `CrcRemainder.TimesIsConvolution` | bootloader_shared/src/lib.rs:17 | the product in that division is the product of polynomials over GF(2): each coefficient is the parity of the terms that fall on it |
| `CrcRemainder.RemainderIsUnique` | bootloader_shared/src/lib.rs:17 | division by the generator has one quotient and one remainder, so that the checksum is the only word of its kind |
| `Crc.BurstIsDetected` | bootloader_shared/src/lib.rs:17 | messages of equal length that differ, and only within 32 consecutive bits at any offset, have different checksums (which checksum it is: `CrcRemainder.ChecksumIsRemainder`) |
| `Crc.FourBytesAreDetected` | bootloader/src/main.rs:146-150 | any corruption confined to four consecutive bytes changes the checksum, so the loader's comparison rejects it |
| `Crc.AbsorbIsInjective` | bootloader_shared/src/lib.rs:17 | a difference between two digests is never cancelled by more input that is the same |
| `Crc.FinalizeIsInjective` | bootloader/src/main.rs:147 | finalising loses nothing: different registers give different checksums |
| `Debugging.Debugger.Digest` | lib/src/debug.rs:177-182 | the digest is fed 64 bytes: pc, lr and sp, then each of r0-r12, lowest byte first |
| `Debugging.OneRegisterIsTold` | lib/src/debug.rs:177-182 | register files that differ in exactly one of the sixteen registers, fed to the same digest, give different digests |
| `Debugging.Debugger.Reschedule` | lib/src/debug.rs:197-206 | the scheduler's choice is made current and its pc becomes the breakpoint address; a choice that is not in the table is a panic that resumes nothing |
| `Debugging.RetirementAsksTheLeast` | lib/src/debug.rs:185-207 | after a retirement the scheduler is asked with the least id that is left; the thread that it names resumes with its own registers, and a name that is not in the table is a panic |
| `Debugging.PanicsExactly` | lib/src/debug.rs:140-223 | the handler panics exactly if the breakpoint is disabled, if a run starts without threads, if the running id is not in the table, or if the scheduler is asked and names no thread of the table; in match mode it is asked only after a retirement |
| `Debugging.MatchModeOnlyRecords` | lib/src/debug.rs:208-222 | a trap in match mode counts and digests the running thread and lets it go on |
| `Debugging.Debugger.PrefetchAbortVector` | lib/src/debug.rs:140-223 | every branch of the handler leaves the statics and returns the registers that one trap should, or panics |
| `Debugging.FirstKey` | lib/src/debug.rs:158-161 | the first entry of the table is the one with the least id |
| `Debugging.FrameRoundTrip` | lib/src/interrupts.rs:414-434 | decoding a frame gives the interrupted registers, and encoding registers gives back the frame |
| `Debugging.Core.Vector` | lib/src/interrupts.rs:414-434 | the frame holds the new registers in the layout that the assembly pops, and the new pc is returned |
| `Debugging.Core.PrefetchAbortAsm` | lib/src/interrupts.rs:217-247 | the handler sees exactly the interrupted registers, and the program that is returned to has exactly those that the handler gave back |
| `Interleaving.TriggerStarts` | lib/src/debug.rs:155-164 | the trap at `trigger_interleaving` stashes the main registers and installs those of the least id, setting no breakpoint address |
| `Interleaving.MainThreadIsTransparent` | lib/src/debug.rs:165-168 | outside a run, stepping the main thread through a trap and an instruction does what the instruction does |
| `InterleavingProof.StartSimulates` | lib/src/debug.rs:162-163 | the start of a run corresponds to the threads' initial register files over the same memory |
| `InterleavingProof.ExecuteSimulates` | lib/src/debug.rs:140-223 | an instruction of the machine is one step of the running thread, and the next thing is a trap |
| `InterleavingProof.TrapSimulates` | lib/src/debug.rs:170-220 | no trap panics under a scheduler that names live threads, and none changes what the threads have computed |
| `InterleavingTheorems.RunRefinesInterleaving` | lib/src/debug.rs:140-223 | every run refines n threads over shared memory: memory is the fold of the scheduled instructions, every saved, running and retired register file is what that thread's own steps produced, its count is their number and its digest is of exactly its own trapped files |
| `InterleavingTheorems.EveryState` | lib/src/debug.rs:154-223 | the running id is in the table, table and retired threads partition the spawned ones, a thread is marked finished exactly if it is retired, and every trap, unless it ends the run, leaves the resumed thread's own registers in the CPU and the breakpoint at its pc |
| `InterleavingTheorems.RetiredThread` | lib/src/debug.rs:174-191 | a retired thread stopped at `thread_finished`; its count is its instructions, plus one for the first thread; id, function and stack are those it was spawned with |
| `InterleavingTheorems.TotalIsLength` | lib/src/debug.rs:176 | every executed instruction is counted for exactly one thread |
| `InterleavingTheorems.RunOver` | lib/src/debug.rs:191-195 | a run whose schedule has at most so many instructions is over after twice as many steps and two, with one trap more than instructions |
| `InterleavingTheorems.RunEnds` | lib/src/debug.rs:185-208 | if each thread has boundedly many instructions in every interleaving, every run ends after 1 + the sum of the instruction counts traps, with the stashed registers in the CPU, nothing running and the breakpoint disabled |
| `InterleavingIsolation.IsolatedThread` | lib/src/debug.rs:174-175 | a thread that keeps to its own memory until it first reaches `thread_finished` is, at any point of any interleaving, where it would be alone |
| `InterleavingIsolation.SchedulerDoesNotMatter` | lib/src/debug.rs:174-191 | threads with disjoint footprints and equal starts end with the same registers, counts, digests and memory under every two schedulers |
| `Exploration.UmainIsLive` | lib/src/debug.rs:320-333 | the scheduler of `umain` always names a live thread |
| `Exploration.PlanFinishes` | lib/src/debug.rs:304-310 | along the plan, thread 1 reaches its end exactly with its part and thread 0 exactly with the last instruction, also where thread 0 takes its return address from memory |
| `Exploration.ChoosesPlan` | lib/src/debug.rs:323-331 | whatever the table holds after so many instructions of the plan, the scheduler's choice is the plan's next thread |
| `Exploration.RunIsPlan` | lib/src/debug.rs:318-349 | a run with A_STOP = k executes max(k,1)-1 instructions of thread 0, all of thread 1 and the rest of thread 0, and retires thread 1 first, so that the first pop is thread 0 |
| `Umain.Explorer.FromFn` | lib/src/debug.rs:86-111 | a new thread has the next id, starts at its function with `thread_finished` as return address and r0-r12 all zero, and has an empty digest |
| `Umain.StepThrough` | lib/src/debug.rs:140-223 | stepping the CPU trap by trap and instruction by instruction ends, with the schedule and the two finished threads that the plan says |
| `Umain.Explorer.RunInterleaving` | lib/src/debug.rs:280-290 | the run that the trap at `trigger_interleaving` starts leaves an empty table, the breakpoint disabled and the two finished threads, in the order of the plan |
| `Umain.Explorer.RunAndTake` | lib/src/debug.rs:334-347 | the two pops give thread 0 and thread 1 in this order, both finished, with their stacks; the run was preempted where A_STOP says |
| `Umain.Explorer.Respawn` | lib/src/debug.rs:116-129 | both threads are back in the table as before their first run, except that r0-r12 stay what they were when the thread finished |
| `Umain.Explorer.Explore` | lib/src/debug.rs:312-370 | iteration i of the search preempts thread 0 after max(A_STOP,1)-1 instructions where A_STOP is max(i-1,0), the points visited are 0 to N-2 (0 alone if N is 1), and ids stay paired with functions and stacks across resets |
| `Umain.PointsExplored` | lib/src/debug.rs:352-370 | for every N > 0 the preemption points are nondecreasing and 0 to N-2, or 0 alone if N is 1: all N points are visited exactly if N is 1 |
| `Breakpoints.StatusRoundTrip` | lib/src/coprocessor.rs:276-295 | the status that is read is the one that was written; all other bits stay, and disabling keeps the mismatch bit |
| `Breakpoints.StatusOfBits` | lib/src/coprocessor.rs:276-282 | bit 0 says whether the breakpoint is enabled, and bit 22 is clear in match mode |
| `Breakpoints.BitsOfStatus` | lib/src/coprocessor.rs:284-295 | enabling sets bit 0 and makes bit 22 one for mismatch and zero for match mode; disabling clears bit 0 and keeps bit 22; all other bits stay |
| `Threads.Processor.SaveInDump` | lib/src/thread.rs:48-60 | the dump holds the caller's r4-r11, sp and lr although r4, r5 and lr were used on the way |
| `Threads.Processor.CallAndSaveStack` | lib/src/thread.rs:47-67 | control is at the thread's pc, the saved return pc is the label after the branch, and memory changes only in the dump and below sp |
| `Threads.Processor.ReenterStart` | lib/src/thread.rs:69-74 | the caller's context comes back from the dump and control returns to its lr |
| `Threads.Processor.ThreadTrampoline` | lib/src/thread.rs:35-42 | a new thread's function is entered with its argument, on its own emptied stack, to return behind the call |
| `Threads.Processor.TrampolineReturn` | lib/src/thread.rs:43-45 | returning from the function exits through the saved return pc |
| `Threads.Processor.SaveAndQueue` | lib/src/thread.rs:208-218 | the running thread goes to the back of the queue with its new sp and pc; it fails exactly with a full queue |
| `Threads.Processor.YieldSaveContext` | lib/src/thread.rs:77-97 | r4-r11 and lr are on the thread's stack, its saved pc is the reentry label, and control is at the return pc |
| `Threads.Processor.ReenterYield` | lib/src/thread.rs:99-103 | the registers come back from the thread's stack and control returns to its lr |
| `Threads.Processor.RunFirst` | lib/src/thread.rs:159-172 | one dispatch: the first thread leaves the queue, becomes current and resumes, and the caller's context is in the dump |
| `Threads.Processor.ThreadYield` | lib/src/thread.rs:272-277 | one yield: the thread is parked at the back of the queue and `start` resumes; it panics exactly if the queue is full |
| `Threads.Processor.Exit` | lib/src/thread.rs:265-270 | an exit resumes `start` and leaves the queue alone |
| `Threads.Processor.ReturnFromFunction` | lib/src/thread.rs:43-45 | a function that returns does what an exit does |
| `Threads.Processor.Fork` | lib/src/thread.rs:234-262 | a new thread is at the back with the next id, at the trampoline, on a zeroed stack with its argument and code; it panics exactly if the queue is full |
| `ThreadRuns.NextKeeps` | lib/src/thread.rs:110-131 | ids and stacks of live threads stay distinct and apart, and every queued thread is new or in a yield, whatever happens next |
| `ThreadTheorems.YieldIsACall` | lib/src/thread.rs:76-103 | a yield behaves as an ordinary call: at the thread's next dispatch, after any number of others have run, forked, yielded or exited, its r4-r11, sp, lr and stack are those at the call |
| `ThreadTheorems.ForkIsACall` | lib/src/thread.rs:234-262 | the first dispatch of a forked thread enters its function with its argument and all of its 2048-word stack, which is zero but for the two words that the trampoline took |
| `ThreadTheorems.DispatchIsACall` | lib/src/thread.rs:47-74 | every dispatch returns into `start` with the callee-saved registers, sp, lr and stack that it had, however the thread leaves and whichever dispatch first started it |
| `ThreadQueue.FirstInFirstOut` | lib/src/thread.rs:158-178 | over any stretch of a run, the queue's ids and then the pushed ones are the dispatched ones and then the queue's |
| `ThreadQueue.Fairness` | lib/src/thread.rs:158-178 | a thread at position p is dispatched after exactly p other dispatches, and until then moves up by one with each |
| `ThreadQueue.Accounts` | lib/src/thread.rs:207-218 | for every id, live occurrences and exits balance earlier live occurrences and forks |
| `ThreadQueue.BornInOrder` | lib/src/thread.rs:245-246 | ids are given out in ascending order, none twice |
| `ThreadQueue.LiveOnce` | lib/src/thread.rs:110-116 | no thread is live twice |
| `ThreadQueue.EachExitsOnce` | lib/src/thread.rs:158-178 | once no thread is live, every thread that was ever forked has exited exactly once |
| `ThreadQueue.PushFails` | lib/src/thread.rs:257-260 | a push fails for the main thread exactly with ten threads live, and for a thread exactly with eleven |
| `ThreadStart.Kernel.RunThread` | lib/src/thread.rs:172 | a thread that computes, forks, yields or exits as it pleases gives the CPU back, and what has happened is a run |
| `ThreadStart.Kernel.Start` | lib/src/thread.rs:152-178 | `start` returns with an empty queue and every forked thread exited once, if forks and yields are finite in number; otherwise it has panicked with a full queue |
| `BootShared.ProtocolBytes` | bootloader_shared/src/lib.rs:3-13 | the words of the protocol as they are on the wire, byte by byte; a request byte is one that occurs in the request |
| `BootShared.WindowLocksOnFrameBoundary` | installer/src/main.rs:39-50 | joined at any byte of the request stream, the window shows the request exactly when four bytes have come and a request ends there |
| `BootShared.LocksWithinSevenBytes` | installer/src/main.rs:39-50 | the first lock is after four to seven bytes, and at no earlier one |
| `Bootloader.WordsAreLittleEndian` | lib/src/uart.rs:63-86 | the word that the loader acts on is the one that its four bytes spell, lowest first |
| `Bootloader.StoreAllLookup` | bootloader/src/main.rs:135-136 | copying a chunk puts each byte at its address and changes no other |
| `Bootloader.TraceIsRun` | bootloader/src/main.rs:92-158 | working off inputs one by one ends where the fold of the step function does |
| `Bootloader.Loader.ReadU32Timeout` | lib/src/uart.rs:63-86 | the word is the one that the four bytes spell, lowest first; a deadline throws the partial word away, and nothing else is consumed |
| `Bootloader.Loader.RequestProgInfo` | bootloader/src/main.rs:94-102 | one request for each timeout before the answer, and one before all; success needs the four bytes read last to spell INSTALLER_PROG_INFO, and any other word is an error |
| `Bootloader.Loader.ReceiveHeader` | bootloader/src/main.rs:104-116 | length and checksum are the two words that the eight bytes spell; a length that does not fit is an error before the checksum is read; otherwise the reply is the get-code word and the echoed checksum |
| `Bootloader.Loader.PollOnce` | bootloader/src/main.rs:123-143 | one round stores and digests what the FIFO held; it fails exactly on an empty FIFO past the deadline |
| `Bootloader.Loader.Receive` | bootloader/src/main.rs:118-144 | the loop ends as soon as exactly the announced number of bytes is in; the digest is that of the bytes polled, and they are in memory from BASE on, in order, with all else unchanged (for lengths with which the addresses do not wrap around) |
| `Bootloader.Loader.Conclude` | bootloader/src/main.rs:146-157 | success needs the right digest and a last word that spells INSTALLER_SUCCESS; PI_SUCCESS goes out exactly if the digest is right, and the failures are a wrong digest, a deadline and another word |
| `Bootloader.Loader.Load` | bootloader/src/main.rs:92-158 | outcome, memory and bytes sent are those of the step function over the inputs consumed; on success the inputs spell the header, hold data of the announced length and checksum, which are in memory (unless its addresses wrapped around), and end with the four bytes of INSTALLER_SUCCESS, and what was sent is exactly the requests, the reply and PI_SUCCESS |
| `Bootloader.Loader.Boot` | bootloader/src/main.rs:77-89 | the Pi jumps exactly if the load succeeded, with all that this needs of the inputs; otherwise it has failed or waits for more input |
| `Installer.TraceIsRun` | installer/src/main.rs:29-136 | working off inputs one by one ends where the fold of the step function does |
| `Installer.Transmitter.Lock` | installer/src/main.rs:39-57 | the loop stops with the first four inputs in a row that spell a request, whatever came before |
| `Installer.Transmitter.Skip` | installer/src/main.rs:65-80 | only the bytes 0xEE and 0xFF are skipped, and the byte that ends the skipping is neither |
| `Installer.Transmitter.SkipAndMatch` | installer/src/main.rs:65-93 | bytes of requests are skipped, and only if the four bytes from the first other one on spell the get-code word does the installer go on |
| `Installer.Transmitter.Get32` | installer/src/main.rs:94 | four bytes are consumed, and the word is the one that they spell, lowest first |
| `Installer.Transmitter.ConfirmChecksum` | installer/src/main.rs:94-102 | only four bytes that spell the program's own checksum get past the echo |
| `Installer.Transmitter.Handshake` | installer/src/main.rs:35-102 | up to here nothing but the header goes out, and the program stage is reached only if the last eight bytes read spell get-code and the program's checksum |
| `Installer.Transmitter.SendProgram` | installer/src/main.rs:108-118 | no byte of the success word goes out unless the four bytes read before it spell the Pi's; on success program and success word are out in full |
| `Installer.Transmitter.Transmit` | installer/src/main.rs:29-119 | outcome and bytes sent are those of the installer's step function; whatever goes out is a prefix of header, program and success word, and success needs all of it, and the Pi's success word read before the last write |
| `BootProof.NextKeeps` | bootloader/src/main.rs:92-158 | every action of either side keeps the joint invariant |
| `BootTheorems.BootedImageIsVerified` | bootloader/src/main.rs:146-157 | a Pi that boots has received as many bytes as the program has, with its checksum, and has them at BASE and all other memory unchanged |
| `BootTheorems.BootedImageIsProgram` | bootloader/src/main.rs:92-158 | if the altered bits lie within 32 consecutive ones, a Pi that boots has the installer's program at BASE, in every interleaving, chunking, number of requests and pattern of timeouts |
| `BootTheorems.DroppedByteMeansNoBoot` | lib/src/uart.rs:69-72 | once part of a word has been dropped on a timeout the Pi never asks for the code, never boots and never stores anything |
| `BootTheorems.StoresStayInRange` | bootloader/src/main.rs:108-136 | in every reachable state all stores are inside the program's range, which ends below the loader's own code |
| `BootTheorems.ReceiveNeverOvershoots` | bootloader/src/main.rs:139-143 | in the receive loop the index is never past the end of the program, and at it only on entry with an empty one, so the exit by equality is not missed |
| `BootTheorems.HandshakeIsCausal` | installer/src/main.rs:88-118 | the Pi boots only after the installer finished, which finishes only after the Pi's check passed; no run has the Pi booted and the installer failed |
| `BootTheorems.LockIsAligned` | installer/src/main.rs:39-57 | in every session, however late the installer joins, its lock is on a request boundary and within seven bytes |
| `BootTheorems.SkipStopsAtReply` | installer/src/main.rs:65-80 | however many requests are in flight, skipping stops exactly at the first byte of the reply, and the program is sent only after get-code and the right checksum |
| `BootTheorems.SessionRunsThePrograms` | bootloader/src/main.rs:92-158 | each side of a session is a run of the program that the loader and the installer classes are |
| `BootCompletion.CooperationHelps` | bootloader/src/main.rs:118-144 | in every undisturbed state some action is possible and brings the session nearer to its end |
| `BootCompletion.NoDeadEnd` | bootloader/src/main.rs:92-158 | from every reachable state in which nobody has given up and nothing was dropped the Pi can still boot |
| `BootCompletion.EveryProgramCanBoot` | bootloader/src/main.rs:107-110 | every program that passes the length check can be booted, with both sides successful |
| `BootCompletion.SuccessDoesNotMeanBooted` | installer/src/main.rs:118-119 | for every such program there is a run in which the installer reports success and the Pi gives up; the exact condition is `SuccessMeansBootedUnlessLate` |
| `BootOutcome.OnlyLateGivesUp` | bootloader/src/main.rs:152-155 | after the image is verified the Pi gives up at the deadline of its last word and nowhere else, whatever either side does: no wrong word can arrive there |
| `BootOutcome.SuccessMeansBootedUnlessLate` | bootloader/src/main.rs:152-157 | over every run in which the installer reports success, the Pi has given up if and only if that deadline passed; once it is over it has booted if and only if it did not, and without it the Pi has booted or has yet to read the last word |
| `BootOutcome.CalmWorks` | bootloader/src/main.rs:92-158 | every action without a failure, in whatever order, keeps the session undisturbed and leaves less to be done |
| `BootOutcome.CalmRunsBoot` | bootloader/src/main.rs:92-158 | if nothing fails, and the Pi's deadline passes only when the installer waits for the next request, every run is bounded and can go no further exactly when the Pi has booted and the installer is done |
| `CycleCounter.AssertionIsPunctuality` | lib/src/cycle_counter.rs:15-19 | the assertion passes exactly if the time is not past, as long as the wrapped difference can tell |
| `CycleCounter.SubOfCounters` | lib/src/cycle_counter.rs:17-26 | the wrapped difference of two counter values is the elapsed time whenever that is less than a turn |
| `CycleCounter.WhenDelaysEnd` | lib/src/cycle_counter.rs:23-27 | the first sample that is not early ends the wait, whenever the samples fall, if and only if the delay is zero or a sampling latency after it is still within the turn |
| `CycleCounter.FirstTimeIsFirst` | lib/src/cycle_counter.rs:15-21 | the time waited for is the first from the reading on at which the counter shows the given value |
| `CycleCounter.Clock.Delay` | lib/src/cycle_counter.rs:23-27 | the wait takes at least its cycles and at most the sampling latency more, across counter wraps, and terminates, for every delay that cannot be missed by a turn |
| `CycleCounter.Clock.DelayUntil` | lib/src/cycle_counter.rs:15-21 | for every counter value, the assertion fires exactly if its next occurrence is a third of a turn away or more; otherwise the wait ends with it to within the latencies. For a due time less than a third ahead or two thirds behind, it fires exactly if that has passed |
| `SoftwareUart.SWUart.Send` | lib/src/uart.rs:279-281 | one bit: the edge is within the jitter of its time and the assertion does not fire if the jitter is below a bit |
| `SoftwareUart.SWUart.SendFrame` | lib/src/uart.rs:279-291 | a byte is a start bit, its eight bits with the lowest first, and a stop bit, each edge on time |
| `SoftwareUart.SWUart.Write` | lib/src/uart.rs:261-292 | all bytes are on the wire, each frame counted from the one reading of the counter, with no assertion firing for any number of bytes and wraps |
| `SoftwareUart.BitTimeIsBaud` | lib/src/uart.rs:271-275 | a bit takes as many whole cycles of the 700 MHz clock as fit into 1/115200 s |
| `SoftwareUart.NoDrift` | lib/src/uart.rs:276-291 | edge e of a write is within the jitter of e bit times after its start, with the level of its bit |
| `UartReceiver.DecodesOneWay` | lib/src/uart.rs:278-292 | a waveform is not decoded in two ways |
| `UartReceiver.SampleSees` | lib/src/uart.rs:278-292 | with jitter below half a bit, a sample in the middle of a bit sees that bit |
| `UartReceiver.ReceiverDecodes` | lib/src/uart.rs:261-292 | a receiver that resynchronises on each start edge and samples mid-bit decodes exactly the bytes sent, and nothing else |
| `Lockdown.PackUnpacks` | lib/src/coprocessor.rs:104-178 | the fields of the three registers read back as what was put into them, with two bits of the permissions |
| `Lockdown.ClearsValid` | lib/src/virtual_memory.rs:418-423 | clearing the valid bit changes no other field |
| `PinnedTlb.Tlb.PinMmuSec` | lib/src/virtual_memory.rs:730-771 | the selected entry means the mapping, the other seven are unchanged, and the assertions fire on exactly the unacceptable arguments |
| `PinnedTlb.Tlb.Setup` | lib/src/virtual_memory.rs:501-508 | after the pins the first seven entries map the seven sections and the eighth is as it was, and no assertion fires; the TLB is as it should be without the illegal segment exactly if the eighth entry was invalid |
| `PinnedTlb.Tlb.AllowSegmentIllegalAccess` | lib/src/virtual_memory.rs:399-417 | the last entry maps the illegal segment and the others are unchanged |
| `PinnedTlb.Tlb.DisallowSegmentIllegalAccess` | lib/src/virtual_memory.rs:418-423 | the last entry is invalid, otherwise the same, and the others are unchanged |
| `PinnedTlb.Tlb.Toggle` | lib/src/virtual_memory.rs:399-423 | after any sequence of grants and revocations the last one is in force |
| `PinnedTlb.HitsAtMostOnce` | lib/src/virtual_memory.rs:500-508 | no address hits two entries |
| `PinnedTlb.AccessibleRanges` | lib/src/virtual_memory.rs:245-269 | the addresses that are mapped, as ranges: 2 MB from 0, 1 MB below each stack top, 3 MB from 0x20000000, and the megabyte of 0xA77ACC0 while that is allowed |
| `PinnedTlb.MapsIdentically` | lib/src/virtual_memory.rs:500-508 | the bit-packed entries translate an address to itself if it is in a pinned megabyte, or in the illegal segment while that is allowed, and to nothing otherwise |

## Left out

- Condition flags: the interleaver does not save them, so a thread's flags are not part of its state here either.
- Instructions that branch to themselves, which a mismatch breakpoint does not trap, are excluded by an assumption.
- The path of the abort handlers for the fault address 0xa77acc0, watchpoints and the syscall timing demo.
- Interrupts other than the breakpoint's own trap: they are taken to be off.
- What the main thread of `umain` does to memory between two runs: each run starts from arbitrary memory.
- Stack overflow of cooperative threads: a switch that has no room on its stack is not a step of the model.
- Byte addresses and eight-byte stack alignment in the cooperative threads: addresses count words.
- Interrupt masking by critical sections, and printing, in `start`.
- Lengths for which `BASE + program_length` overflows, beyond the wrap-around of the release build in the loader itself: sessions assume that the sum fits.
- Repeated or rebooted boot sessions, and corruption of words other than the program.
- The three `put32` calls of the installer are one write of twelve bytes that can fail at any byte.
- The echo loop of the installer after its success message, serial port setup, the panic handler and rebooting.
- GPIO, pin typestates, the bump allocator, the gprof support and `lookup.py`.
- Caches, barriers, page tables and turning the MMU on and off.
- PackUnpacks: keeps two of the three permission bits, because `set_ap` is two bits wide and `set_apx` is never called.
- The registers of the TLB between the three writes of one pin.
