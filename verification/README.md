# Threads, a processor and a shell, verified

A Dafny model of three programs of the repository, with proofs of what they are for.

`dafny verify dfyconfig.toml` checks everything.

## The thread library (`threading-lib`)

Cooperative threads with a FIFO run queue, a sleeping set, join, mutexes that are handed on directly,
and condition variables. Control changes hands only inside `schedule`, so the stretch of code between
two calls of `schedule` is one atomic step.

* `ThreadModel` holds the structures (`QThread`, `ThreadQ`, `QMutex`, `QCond`), the queue operations on
  linked nodes, and the step system: a state is the contents of every queue, a record for every thread
  and mutex, the running thread and the number of clock readings made. A thread's `context` stands for
  its saved stack: where it goes on once it runs again. `cpu` is the thread whose stack is executing,
  `current` is the global `current_thread`; that they never part is proved. A null `current` is the
  crash of `switch_runnable` on an empty queue.
* `ThreadInvariants` and `ThreadSteps` prove one invariant of every step, and so of every run.
* `ThreadRuns` proves the properties of runs.
* `ThreadEffects` says of each call, without the code's own steps, which records, mutexes and queues it
  changes and who runs next, and after how many clock readings.
* `ThreadHeap` is the library itself, on a heap where all queues share the one `next` field of a
  thread, with the stale `next` that `pop_front` leaves behind. Each entry point is proved to do to the
  linked structures exactly what its step does to the sequences.

What is assumed of callers: a thread is joined by one other thread at a time and not by itself, a mutex
is unlocked (or waited with) by the thread that holds it and not locked again by it, and the main
thread's record starts with `dead` zero and `waiter` null, which `qthread_init` does not set. Of the
clock: readings never decrease and pass every deadline in time. Times and return values are unbounded
integers.

The comment at `threading-lib/qthread_manager.c:183` says that a yield by the last thread crashes. The
code does not: the thread is put on the run queue first and is then found there, and the model follows
the code (`ThreadEffects.YieldAlone`).

The library does not wake the sleeper with the earliest deadline. `ThreadRuns.WokenSleeper` says which it
does wake: going round the sleepers, one clock reading each, the first that a reading finds due; with
exactly two it goes to the second and stays there, whatever its deadline.
`ThreadRuns.EarlierOfTwoServed` gives the exact condition under which the earlier of two is served,
`ThreadRuns.EarliestServed` that for any number, and `ThreadRuns.EarlierPassedOver` an input that fails.

## The processor and its assembler (`bare-metal-16bit`)

* `Cpu` is one call of `emulate` as a function of the machine state, with fields of words written as
  quotients and remainders, and what comparisons and shifts mean. `Emulator` is the emulator itself: it
  takes words apart with the program's masks and shifts on 16-bit vectors, runs through its switches and
  updates registers and memory in place. It is proved equal to `Cpu`; `Bits` proves that the masks give
  the quotients. Where C leaves the outcome undefined (memory past the 64 KiB array, register numbers
  past the array, shifts by 32 or more) the outcome is a fault.
* `CpuLaws` has what the instructions do in arithmetic, bit by bit for the bitwise ones, which of them
  undo each other, and what each of the 65536 words is to the processor.
* `Assembly` has the instructions after pattern matching, their encoding, the layout, and the image a
  naive two-pass assembler would give. `Assembler` is the one-pass assembler with its symbol table and
  fixup list.
* `AsmImage` says where code and data are in the image and when there is one, and assembles the program
  that comes with the assembler (`bare-metal-16bit/hello.asm`) to the file that comes with it
  (`bare-metal-16bit/hello.bin`).
* `AsmMeaning` says what program text means with no machine words in sight: control is a place in the
  text and jumps go to labels. `AsmCorrect` proves that the assembled image, run by the emulator, does
  that, for runs of any length.
* `Simulator` is the loop that runs the emulator on an image, with the meaning theorem as its contract.
* `Disasm` has the disassembler's lengths and its sweep, the reads past its buffer included.

Some promises hold only under a condition. The exact condition is proved of each, with an input that
fails:

* The one-pass image is the two-pass image exactly when no label is defined again after an instruction
  that refers back to it (`Assembler.OnePassIsTwoPass`).
* The absolute byte store (`bare-metal-16bit/emulate.c:102`) writes one byte past its address.
  `AsmCorrect.AbsoluteByteStoreMisses` says exactly when it still leaves memory as the text means, and
  only then does the meaning of a program go on past such a store.
* The disassembler's length is the emulator's advance except over a STORE with a stray bit
  (`Disasm.LengthIsAdvance`).
* After CMP, the jumps named for less and greater are signed comparisons exactly when the difference
  fits in 16 bits (`Cpu.CompareThenJump`).
* The simulator's loop (`bare-metal-16bit/runsim.c:59-88`) keeps the instruction word under the name of
  the old program counter, and says that the program counter did not change when the new one equals
  that word. `Simulator.ComplaintIsRight` says exactly when the message comes as it should, and
  `Simulator.UnnoticedLoop` and `Simulator.WrongComplaint` fail either way.

Where the text stops giving a meaning (control runs into data, a store hits code or, being an absolute
byte store, would miss its byte, a jump goes into the middle of an item, a shift by 32 or more) the
meaning is `Wild` and nothing is claimed.

## The shell's front end (`unix-shell-from-scratch`)

* `ShellTokens` is the tokenizer driven by the previous character, as functions, and what it keeps of a
  line. `ShellWords` is the simple specification of an unquoted line, maximal runs of word characters
  and each of `|`, `<`, `>` a token of its own, and the proof that the tokenizer meets it.
* `ShellQuotes` gives the words of lines with quoted strings.
* `ShellParser` is the tokenizer with its two flags and the loop that writes one buffer and `argv` in
  place. A null entry of `argv` is -1, any other an offset into the buffer.
* `ShellCommands` is the list that the builder makes, and a printer that inverts it. `ShellList` builds
  and frees the doubly linked list.

The shell's README (`unix-shell-from-scratch/README.md:14`) asks for at least 32 tokens on a line. With
`max_tokens` 32 (`unix-shell-from-scratch/shell56.c:51`) the loop stops after 31 words; the model follows
the code, and `ShellWords.TokenLimit` gives the exact condition.

A quoted string is one word whatever is in it, but there are two oddities, both kept from the code. A
quote that begins the line opens nothing (`ShellQuotes.FirstQuote`). And an operator or another string
directly behind a closing quote puts an empty word in between; `ShellQuotes.EmptyWords` says exactly when
a line has empty words.

`parse` is told `argc_max` and `buf_len` and its caller passes arrays of just those sizes
(`unix-shell-from-scratch/shell56.c:50-52`). They are enough unless some character starts a word just
where the entries, or the bytes, run out; then the null entry, or the last NUL, falls behind the array.
`ShellTokens.CallerSizes` proves this for every line, and `ShellWords.CallerSizesInTokens` says which
lines they are in terms of their tokens. `ShellParser.Tokenizer.Parse` asks for the extra entry or byte
only for those.

## Model

| member | source | states |
|---|---|---|
| ThreadModel.ThreadQ.PushBack | threading-lib/qthread_manager.c:235-247 | the queue's contents grow by the thread at the end, links, size and the null `next` of the last node kept; only the queue, the thread and the old end are written |
| ThreadModel.ThreadQ.PopFront | threading-lib/qthread_manager.c:249-264 | the head leaves and the rest stays linked; on an empty queue nothing changes and null is returned; no thread is written, so the head's `next` stays stale |
| ThreadModel.DeadlinesPass | threading-lib/qthread_manager.c:153 | some clock reading is past every recorded deadline, which is why the waking loop ends |
| ThreadInvariants.WakeShape | threading-lib/qthread_manager.c:147-164 | waking a non-empty set moves exactly one sleeper to the end of the run queue, the first that a reading finds due, and the others keep their cyclic order |
| ThreadInvariants.WakeKeeps | threading-lib/qthread_manager.c:147-164 | waking keeps the invariant, loses and duplicates nobody, and makes someone runnable if anyone slept |
| ThreadInvariants.SwitchKeeps | threading-lib/qthread_manager.c:134-145 | the first runnable thread becomes current and its stack runs: the `dead` test never skips a switch |
| ThreadInvariants.ScheduleKeeps | threading-lib/qthread_manager.c:166-194 | schedule restores the invariant, and finds nobody exactly when the caller blocks or exits and nothing is runnable or asleep |
| ThreadSteps.CreateKeeps | threading-lib/qthread_manager.c:81-100 | creating a thread keeps the invariant |
| ThreadSteps.YieldKeeps | threading-lib/qthread_manager.c:127-130 | yielding keeps the invariant and always finds a thread to run |
| ThreadSteps.UsleepKeeps | threading-lib/qthread_manager.c:225-229 | sleeping keeps the invariant and always finds a thread to run |
| ThreadSteps.ExitKeeps | threading-lib/qthread_manager.c:201-210 | exiting keeps the invariant: the joiner, held by no queue until then, becomes runnable |
| ThreadSteps.JoinKeeps | threading-lib/qthread_manager.c:212-219 | joining a dead or a live thread keeps the invariant |
| ThreadSteps.LockKeeps | threading-lib/qthread.c:58-68 | taking a free mutex or queueing for a locked one keeps the invariant |
| ThreadSteps.ReleaseMutexKeeps | threading-lib/qthread.c:69-82 | releasing keeps the invariant, both when the mutex is handed on and when it becomes free |
| ThreadSteps.WaitKeeps | threading-lib/qthread.c:99-105 | waiting on a condition keeps the invariant |
| ThreadSteps.SignalKeeps | threading-lib/qthread.c:108-114 | signalling keeps the invariant |
| ThreadSteps.BroadcastKeeps | threading-lib/qthread.c:116-124 | broadcasting keeps the invariant |
| ThreadSteps.ResumeKeeps | threading-lib/qthread.c:99-105 | going on inside a blocking call, re-locking included, keeps the invariant |
| ThreadSteps.StepKeeps | threading-lib/qthread_manager.c:81-229 | every legal step of every kind keeps the invariant |
| ThreadSteps.InitHolds | threading-lib/qthread_manager.c:104-122 | the state after qthread_init meets the invariant |
| ThreadSteps.RunKeeps | threading-lib/qthread_manager.c:81-229 | hence so does every reachable state |
| ThreadRuns.OnePlace | threading-lib/qthread_manager.c:81-229 | each thread is in one place and no other: running, at one index of one queue, waiter of one live thread, or gone |
| ThreadRuns.NoThreadLost | threading-lib/qthread_manager.c:81-229 | in every state of every run of a program, all of this holds of the main thread and every thread created |
| ThreadRuns.BoundedWaiting | threading-lib/qthread_manager.c:134-194 | the thread at index k of the run queue has moved up by the number of schedule calls since, and is current at exactly the (k+1)-th |
| ThreadRuns.ScheduleFrame | threading-lib/qthread_manager.c:166-194 | schedule changes no record, no mutex and no queue but the run queue and the sleeping set |
| ThreadRuns.StepFrame | threading-lib/qthread_manager.c:81-229 | a step leaves the record of every other thread alone, but for the waiter of one it joins |
| ThreadRuns.MutualExclusion | threading-lib/qthread.c:58-82 | over all runs: no two threads hold a mutex, it is locked exactly when it has an owner, and nobody waits for an unlocked one |
| ThreadRuns.MutexAdvances | threading-lib/qthread.c:58-82 | a release with waiters makes the first waiter the owner with the mutex still locked; no other step changes the owner of an owned mutex or reorders its waiters |
| ThreadRuns.FifoHandOff | threading-lib/qthread.c:58-105 | the thread at index k of a mutex queue owns the mutex after exactly k+1 further releases, those inside cond_wait included |
| ThreadRuns.OwnerKeeps | threading-lib/qthread.c:69-82 | until the next release the owner stays, whatever other threads do |
| ThreadRuns.BroadcastShape | threading-lib/qthread.c:116-124 | the loop of broadcast appends the whole queue to the run queue in order and empties it |
| ThreadRuns.CondAdvances | threading-lib/qthread.c:99-124 | signal moves exactly the oldest waiter to the end of the run queue, broadcast all of them, wait appends the caller, and no other step removes a waiter |
| ThreadRuns.WaitsForSignal | threading-lib/qthread.c:99-114 | no wake-up is lost and none overtakes: over any run the waiter at index k is at index k less the number of signals since |
| ThreadRuns.WokenInTurn | threading-lib/qthread.c:108-124 | over any run the (k+1)-th signal makes exactly that waiter runnable, and an earlier broadcast makes it runnable at its place among the rest |
| ThreadRuns.WaitIsAtomic | threading-lib/qthread.c:99-105 | the mutex is released and the caller is in the condition's queue in one step, before any other thread runs |
| ThreadRuns.ReturnsHolding | threading-lib/qthread.c:99-105 | cond_wait and mutex_lock return only with the mutex locked and owned by the caller |
| ThreadRuns.NoEarlyWake | threading-lib/qthread_manager.c:225-229 | a thread that sleeps for u at reading t is current again only after a reading of at least t+u, also when it wakes itself |
| ThreadRuns.WokenSleeper | threading-lib/qthread_manager.c:147-164 | the sleeper woken, and the whole state after it, for any number of sleepers: the one that the first successful reading looks at; there always is one |
| ThreadRuns.ExaminedIs | threading-lib/qthread_manager.c:153-159 | reading k looks at place k modulo the number of sleepers, but of two at the second from reading 1 on |
| ThreadRuns.TwoSleepers | threading-lib/qthread_manager.c:153-159 | of two sleepers the first is woken if its deadline has passed at the first reading, otherwise the second whatever its deadline |
| ThreadRuns.EarliestServed | threading-lib/qthread_manager.c:153-159 | the sleeper woken has the earliest deadline if and only if the one at that place has |
| ThreadRuns.EarlierOfTwoServed | threading-lib/qthread_manager.c:153-159 | of two, if and only if the first is due at the first reading and the earlier, or not due and not the earlier |
| ThreadRuns.EarlierPassedOver | threading-lib/qthread_manager.c:153-159 | an input that fails: two sleepers not due, the first with the earlier deadline, and the second is woken |
| ThreadRuns.JoinReturnsExitValue | threading-lib/qthread_manager.c:201-219 | however long after the exit, a join of the thread returns the value passed to qthread_exit |
| ThreadRuns.DeadHasExited | threading-lib/qthread_manager.c:201-210 | conversely, a thread found dead called qthread_exit while running, with the value its record holds |
| ThreadRuns.DeadStay | threading-lib/qthread_manager.c:134-145 | a dead thread stays dead, keeps its value and never runs again |
| ThreadRuns.JoinBlocksOnce | threading-lib/qthread_manager.c:212-219 | a blocked joiner is in no queue and does not run while its target lives, and when it runs its loop ends |
| ThreadRuns.ExitWakesJoiner | threading-lib/qthread_manager.c:201-210 | the exit of the target makes the blocked joiner runnable |
| ThreadRuns.CrashesExactly | threading-lib/qthread_manager.c:134-194 | a step crashes if and only if it blocks or exits, wakes nobody by that, and nothing is runnable or asleep |
| ThreadRuns.CrashIsDeadlock | threading-lib/qthread_manager.c:134-194 | after a step that crashes, every thread still alive waits for a mutex, a condition or the end of another thread |
| ThreadEffects.ScheduleIs | threading-lib/qthread_manager.c:166-194 | the whole of schedule: a yielding caller is ready behind the others before anybody is woken, a sleeping one is last of the ring; the first ready runs at once, else the first sleeper found due after as many readings as that takes, else nobody |
| ThreadEffects.YieldIs | threading-lib/qthread_manager.c:127-130 | the caller goes behind the runnable threads and the first of them runs |
| ThreadEffects.YieldAlone | threading-lib/qthread_manager.c:182-193 | with nothing runnable the caller runs on at once: no clock reading is made and every sleeper stays asleep |
| ThreadEffects.UsleepIs | threading-lib/qthread_manager.c:225-229 | the deadline is the reading made plus the time asked for, and the caller is the last of the ring that is gone round if nobody is runnable |
| ThreadEffects.ExitIs | threading-lib/qthread_manager.c:201-210 | the record is dead with the value, the joiner is last of the ready, and the next runs |
| ThreadEffects.JoinIs | threading-lib/qthread_manager.c:212-219 | the target gets its waiter; of a dead target the call returns, otherwise the caller is in no queue and the next runs |
| ThreadEffects.LockIs | threading-lib/qthread.c:58-68 | a free mutex becomes locked and the caller's own; behind a locked one the caller is last in line and the next runs |
| ThreadEffects.LockFree | threading-lib/qthread.c:60-63 | locking a free mutex leaves it locked, owned by the caller, who holds it and goes on |
| ThreadEffects.UnlockIs | threading-lib/qthread.c:69-82 | without waiters the mutex becomes free; otherwise it stays locked for the first of them, who is last of the runnable |
| ThreadEffects.WaitIs | threading-lib/qthread.c:99-105 | the mutex is released so, the caller is last in the condition's queue, and the next runs |
| ThreadEffects.SignalIs | threading-lib/qthread.c:108-114 | the oldest waiter is last of the runnable; with none nothing changes |
| ThreadEffects.ResumeIs | threading-lib/qthread_manager.c:141-144 | a thread that runs again inside a call returns from it, holding the mutex it was locking; after a wait it takes the mutex as a lock does |
| ThreadEffects.ResumeReturns | threading-lib/qthread_manager.c:141-144 | so every such call returns, or blocks once more for a locked mutex |
| ThreadEffects.CreateIs | threading-lib/qthread_manager.c:94-99 | the new thread is alive, without a waiter and last of the runnable; nothing else changes |
| ThreadHeap.Library.constructor | threading-lib/qthread_manager.c:104-122 | the structures after qthread_init are those of the initial state |
| ThreadHeap.Library.Push | threading-lib/qthread_manager.c:235-247 | appending to one queue of the heap changes no other queue, although all share `next` |
| ThreadHeap.Library.Pop | threading-lib/qthread_manager.c:249-264 | removing the head changes no other queue; the head's `next` still points to the thread behind it |
| ThreadHeap.Library.TurnSleepers | threading-lib/qthread_manager.c:154-158 | one turn of the ring; whether the new head's `next` is null says whether it was the last |
| ThreadHeap.Library.TurnUntilDue | threading-lib/qthread_manager.c:153-159 | the loop on the heap terminates, never pops an empty queue, and ends as WakeLoop says |
| ThreadHeap.Library.WakeSleepingThreads | threading-lib/qthread_manager.c:147-164 | waking on the heap is Wake of the step system |
| ThreadHeap.Library.SwitchRunnable | threading-lib/qthread_manager.c:134-145 | the switch on the heap is the switch of the step system |
| ThreadHeap.Library.Schedule | threading-lib/qthread_manager.c:166-194 | schedule on the heap is Schedule of the step system |
| ThreadHeap.Library.Create | threading-lib/qthread_manager.c:81-100 | refines its step, with a thread not known before |
| ThreadHeap.Library.NewMutex | threading-lib/qthread.c:43-50 | refines its step; the new queue has only its size set |
| ThreadHeap.Library.NewCond | threading-lib/qthread.c:86-92 | refines its step |
| ThreadHeap.Library.Yield | threading-lib/qthread_manager.c:127-130 | refines its step |
| ThreadHeap.Library.Exit | threading-lib/qthread_manager.c:201-210 | refines its step |
| ThreadHeap.Library.Join | threading-lib/qthread_manager.c:212-219 | refines its step, and returns the target's value if it returns |
| ThreadHeap.Library.Usleep | threading-lib/qthread_manager.c:225-229 | refines its step |
| ThreadHeap.Library.Lock | threading-lib/qthread.c:58-68 | refines its step |
| ThreadHeap.Library.Unlock | threading-lib/qthread.c:69-82 | refines its step |
| ThreadHeap.Library.Wait | threading-lib/qthread.c:99-105 | refines its step |
| ThreadHeap.Library.Signal | threading-lib/qthread.c:108-114 | refines its step |
| ThreadHeap.Library.Broadcast | threading-lib/qthread.c:116-124 | the loop on the heap refines its step |
| ThreadHeap.Library.Resume | threading-lib/qthread.c:99-105 | what a thread does when it is current again, inside lock, wait, join, yield or usleep, refines its step; from a join it returns the target's value |
| Emulator.Machine.Load2 | bare-metal-16bit/emulate.c:24-26 | two bytes, low byte first |
| Emulator.Machine.Store2 | bare-metal-16bit/emulate.c:19-22 | changes just the two bytes |
| Emulator.Machine.EmulateLoad | bare-metal-16bit/emulate.c:50-84 | the four-way test of LOAD changes the whole machine as specified |
| Emulator.Machine.EmulateStore | bare-metal-16bit/emulate.c:85-122 | the four-way test of STORE does, the misplaced byte of the absolute form included |
| Emulator.Machine.EmulateMove | bare-metal-16bit/emulate.c:123-142 | the same for MOVE and SP |
| Emulator.Machine.EmulateCall | bare-metal-16bit/emulate.c:447-454 | the same for CALL: the target is read after the push |
| Emulator.Machine.Emulate | bare-metal-16bit/emulate.c:33-509 | for every word, one call of the in-place emulator is one step of the machine |
| Emulator.Decode | bare-metal-16bit/emulate.c:36-39 | the program's masks and shifts on 16-bit vectors take out the quotients and remainders of the specification |
| Cpu.CompareThenJump | bare-metal-16bit/emulate.c:238-361 | after CMP, JMP_Z and JMP_NZ test equality, and JMP_LT, GT, LE and GE are the signed comparisons if and only if the difference fits in 16 bits |
| Cpu.CompareOverflows | bare-metal-16bit/emulate.c:238-332 | an input that fails: -32768 is less than 1, and JMP_LT is not taken |
| Cpu.ShiftDivides | bare-metal-16bit/emulate.c:219-224 | a shift by n divides by the n-th power of two, rounding down |
| CpuLaws.AndBits | bare-metal-16bit/emulate.c:168-184 | every bit of the result is the product of the bits |
| CpuLaws.OrBits | bare-metal-16bit/emulate.c:185-201 | every bit is 1 if either is |
| CpuLaws.XorBits | bare-metal-16bit/emulate.c:202-218 | every bit is 1 if the two differ |
| CpuLaws.AluComputes | bare-metal-16bit/emulate.c:143-291 | an arithmetic instruction puts the sum or difference modulo 65536, the bitwise result or the shifted value into its third register, sets Z and N by it, and changes nothing else |
| CpuLaws.TestSets | bare-metal-16bit/emulate.c:254-270 | TEST sets the flags by the register and changes nothing else |
| CpuLaws.PushPop | bare-metal-16bit/emulate.c:469-486 | POP takes back what PUSH put, and the stack pointer with it |
| CpuLaws.CallRet | bare-metal-16bit/emulate.c:447-468 | RET goes back behind the CALL, with registers and stack pointer as they were |
| CpuLaws.CallRegRet | bare-metal-16bit/emulate.c:455-468 | the same of a call through a register, which goes where it says |
| CpuLaws.StoreLoad | bare-metal-16bit/emulate.c:72-119 | LOAD reads what STORE put at the address, the word or its low byte |
| CpuLaws.AnyWord | bare-metal-16bit/emulate.c:33-509 | the processor does with each of the 65536 words what it does with the assembler's word for the same instruction; of the others, which stop it and which leave its arrays |
| CpuLaws.FaultsExactly | bare-metal-16bit/emulate.c:19-509 | an instruction faults exactly where an operand, a word in memory or a stack slot would lie across the end of memory, a shift is by 32 or more, or a MOVE is from SP to SP |
| CpuLaws.KnownStores | bare-metal-16bit/test.c:60-157 | the encoder gives the words of the test program for STORE and SET |
| CpuLaws.KnownLoads | bare-metal-16bit/test.c:168-248 | for LOAD |
| CpuLaws.KnownMoves | bare-metal-16bit/test.c:890-989 | for PUSH, POP, MOVE, IN and OUT |
| CpuLaws.KnownOperations | bare-metal-16bit/test.c:26-363 | for ADD, SUB, AND, OR and XOR |
| CpuLaws.KnownTests | bare-metal-16bit/test.c:384-425 | for RSHIFT, CMP and TEST |
| CpuLaws.KnownJumps | bare-metal-16bit/test.c:446-795 | for the jumps |
| CpuLaws.KnownCalls | bare-metal-16bit/test.c:818-939 | for CALL, RET and HALT |
| Assembler.OnePass.StoreInsn | bare-metal-16bit/asm.py:106-110 | appends the word's two cells, or fails at the end of memory |
| Assembler.OnePass.Evaluate | bare-metal-16bit/asm.py:93-100 | a known label's address, or 0 and a new fixup at the current address |
| Assembler.OnePass.DoInsn | bare-metal-16bit/asm.py:112-182 | what has been emitted and left to fix is what the layout says one item on |
| Assembler.OnePass.DoSym | bare-metal-16bit/asm.py:184-185 | the symbol table is that of the labels so far |
| Assembler.OnePass.DoBytes | bare-metal-16bit/asm.py:187-192 | the loop appends the bytes |
| Assembler.OnePass.DoWords | bare-metal-16bit/asm.py:194-200 | the loop appends the words |
| Assembler.OnePass.FillIn | bare-metal-16bit/asm.py:314-315 | the fixup loop succeeds exactly when every label used is defined, and then the image is complete |
| Assembler.OnePass.Run | bare-metal-16bit/asm.py:300-323 | the whole run, with each way it can fail, gives the result defined by the layout |
| Assembler.FixupsComplete | bare-metal-16bit/asm.py:314-315 | patching the draft gives the image in which each use has the address its label had when seen, or its final one |
| Assembler.OnePassIsTwoPass | bare-metal-16bit/asm.py:93-110 | the one-pass image is the two-pass image, byte for byte, if and only if no label is defined again after a reference back to it |
| Assembler.LateRedefinitionExample | bare-metal-16bit/asm.py:93-110 | an input that fails: a jump back to a label defined again below it |
| AsmImage.BytesInImage | bare-metal-16bit/asm.py:187-192 | each number of a BYTES line is at its place in the image, modulo 256 |
| AsmImage.WordsInImage | bare-metal-16bit/asm.py:194-200 | each number of a WORDS line is, modulo 65536, low byte first |
| AsmImage.DataInFile | bare-metal-16bit/asm.py:318-323 | and so in the file that is written |
| AsmImage.CodeInImage | bare-metal-16bit/asm.py:106-110 | each instruction is at its place, its words low byte first |
| AsmImage.AssemblesExactly | bare-metal-16bit/asm.py:300-323 | a file is written if and only if the program fits memory, every label used is defined somewhere, and every operand fits a word |
| AsmImage.HelloAssembles | bare-metal-16bit/hello.asm:5-16 | the program that comes with the assembler gives, byte for byte, the file that comes with it |
| AsmCorrect.Decodes | bare-metal-16bit/emulate.c:36-39 | every field the emulator takes out of a word is the one the encoder put in |
| AsmMeaning.MeaningExactly | bare-metal-16bit/emulate.c:33-509 | the text has a meaning at every instruction except where a store hits code or misses its byte, a jump has no item to go to, or the instruction would fault; only HALT stops it |
| AsmCorrect.Fetch | bare-metal-16bit/emulate.c:24-35 | at an item's address the machine reads the item's words |
| AsmCorrect.InsnAgrees | bare-metal-16bit/emulate.c:33-509 | for every instruction the machine step agrees with the meaning of the text |
| AsmCorrect.AluAgrees | bare-metal-16bit/emulate.c:143-291 | the machine's arithmetic, flags included, is what the text's operators mean |
| AsmCorrect.JumpAgrees | bare-metal-16bit/emulate.c:292-446 | a jump goes to the item its label or address names exactly when its condition holds |
| AsmCorrect.StepAgrees | bare-metal-16bit/emulate.c:33-509 | from matching states one call of emulate does what the next instruction of the text means |
| AsmCorrect.RunAgrees | bare-metal-16bit/emulate.c:33-509 | and so for runs of any length |
| AsmCorrect.LoadedMatches | bare-metal-16bit/asm.py:318-323 | the image loaded at 0 matches the start of the text |
| AsmCorrect.AssembledProgramRuns | bare-metal-16bit/asm.py:300-323 | the file the assembler writes, loaded and run, does what the text means from its first line on |
| AsmCorrect.AbsoluteByteStoreMisses | bare-metal-16bit/emulate.c:97-104 | the absolute byte store writes past memory at address 0xFFFF, and elsewhere leaves memory as meant if and only if both bytes hold the value already |
| AsmCorrect.AbsoluteByteStoreExample | bare-metal-16bit/emulate.c:97-104 | an input that fails: a 1 meant for 0x100 lands at 0x101 |
| Simulator.Simulate | bare-metal-16bit/runsim.c:59-88 | the loop ends at the first halt, fault or complaint, or at its limit without any, with the machine as many steps on as it says |
| Simulator.ComplaintIsRight | bare-metal-16bit/runsim.c:60-86 | the complaint that the program counter did not change comes exactly when it did not, if and only if the word is the address it stands at or the new program counter is neither |
| Simulator.UnnoticedLoop | bare-metal-16bit/runsim.c:60-86 | an input that fails: a jump to itself that is not complained of |
| Simulator.WrongComplaint | bare-metal-16bit/runsim.c:60-86 | an input that fails: a step onwards that is |
| Simulator.RunImage | bare-metal-16bit/runsim.c:54-88 | run on an assembled image in place, the loop leaves registers, memory and output as the program text means after as many steps |
| Disasm.LengthIsAdvance | bare-metal-16bit/disasm.c:25-130 | for all 65536 words the disassembler's length is the emulator's fall-through advance if and only if the word is no STORE with a stray bit |
| Disasm.StrayStoreExample | bare-metal-16bit/disasm.c:53-62 | an input that fails: 0x3100 has length 4 and advances by 2 |
| Disasm.CallPushesNext | bare-metal-16bit/emulate.c:447-462 | a call pushes the address of the next instruction by the disassembler's length |
| Disasm.EncodedLength | bare-metal-16bit/disasm.c:25-130 | for every instruction the assembler emits, the length is the size emitted, and only HALT stops the sweep |
| Disasm.LengthOfAnyWord | bare-metal-16bit/disasm.c:25-130 | for any word that is an instruction to the processor the length is that instruction's, unless it is a stray STORE |
| Disasm.Sweep | bare-metal-16bit/disasm.c:146-160 | the loop, with both its reads, visits the offsets of the specification, and leaves its buffer where that says |
| Disasm.SweepVisitsCode | bare-metal-16bit/disasm.c:146-160 | over an assembled program it visits exactly the addresses at which instructions were emitted, up to the first HALT, and leaves its buffer if and only if one of them is 0xFFFD |
| ShellTokens.WordsAreSaved | unix-shell-from-scratch/parser.c:79-105 | for every line, quoted or not: the words put together are the characters read that split marks SAVE |
| ShellTokens.ParseFitsBuffers | unix-shell-from-scratch/parser.c:94-102 | for every line at most argc_max words come back, in at most buf_len+1 bytes |
| ShellTokens.CallerSizes | unix-shell-from-scratch/parser.c:85-103 | for every line: argc_max entries are too few if and only if some character starts the argc_max-th word, buf_len bytes if and only if some character starts a word in the last of them |
| ShellWords.TokensSplit | unix-shell-from-scratch/parser.c:60-70 | the tokens of a text cut where no word crosses are the tokens of its parts |
| ShellWords.ConsumeReads | unix-shell-from-scratch/parser.c:32-71 | after each unquoted character the words so far are the tokens of the text so far |
| ShellWords.ParseFindsTokensOfPrefix | unix-shell-from-scratch/parser.c:79-105 | whatever the limits, parse returns the tokens of the part of the line it read |
| ShellWords.ParseIsTokens | unix-shell-from-scratch/parser.c:79-105 | within the limits parse returns exactly the tokens of the line |
| ShellWords.TokenLimit | unix-shell-from-scratch/parser.c:94-97 | it does if and only if the tokens are fewer than argc_max and fit buf_len with their NULs, each limit being one more if the last token is one character right behind another |
| ShellWords.WordLimit | unix-shell-from-scratch/parser.c:94-97 | so on a line of words only, if and only if they are fewer than argc_max and fit buf_len |
| ShellWords.WordLimitExample | unix-shell-from-scratch/parser.c:96-97 | an input that fails: two words where argc_max is 2, of which one comes back |
| ShellWords.CallerSizesInTokens | unix-shell-from-scratch/parser.c:85-103 | on an unquoted line, where a token begins directly behind another just as the entries, or the bytes, run out |
| ShellWords.LastSlotExample | unix-shell-from-scratch/parser.c:96-103 | an input that fails: two words, and the null entry third, where argc_max is 2 |
| ShellWords.LastByteExample | unix-shell-from-scratch/parser.c:94-101 | an input that fails: five bytes where buf_len is 4 |
| ShellWords.OperatorStandsAlone | unix-shell-from-scratch/parser.c:60-69 | an operator is one token between those before and after it, with any space around it |
| ShellWords.SpacingAroundOperators | unix-shell-from-scratch/parser.c:60-69 | space around operators never changes what parse returns |
| ShellQuotes.CharClasses | unix-shell-from-scratch/parser.c:14-17 | space, operator and quote characters, one by one |
| ShellQuotes.InsideQuotes | unix-shell-from-scratch/parser.c:36-51 | inside quotes every character but the closing one, spaces, operators and other quotes included, goes into the word in progress and changes nothing else |
| ShellQuotes.QuotedString | unix-shell-from-scratch/parser.c:36-59 | a quoted string is one word; a word it follows without space ends |
| ShellQuotes.QuotedWord | unix-shell-from-scratch/parser.c:36-59 | behind a space it adds exactly that word to the words of the line |
| ShellQuotes.QuotedLine | unix-shell-from-scratch/parser.c:32-105 | the words of any line that does not begin with a quote and closes every quote |
| ShellQuotes.QuotedLineParsed | unix-shell-from-scratch/parser.c:79-105 | are what parse returns of it, if they fit |
| ShellQuotes.EmptyWords | unix-shell-from-scratch/parser.c:52-67 | empty words come exactly from empty strings, and from an operator or another string directly behind a closing quote |
| ShellQuotes.EmptyWordExample | unix-shell-from-scratch/parser.c:60-61 | an input that has one |
| ShellQuotes.FirstQuote | unix-shell-from-scratch/parser.c:34-35 | a quote that begins the line is an ordinary character and opens nothing |
| ShellQuotes.SpaceBehindFirstQuote | unix-shell-from-scratch/parser.c:64-65 | a space directly behind it does not end its word |
| ShellQuotes.FirstStringExample | unix-shell-from-scratch/parser.c:34-59 | so a string that begins the line is not one word |
| ShellParser.Tokenizer.Split | unix-shell-from-scratch/parser.c:32-71 | the method with its two static flags decides as the function does |
| ShellParser.Tokenizer.ParseChars | unix-shell-from-scratch/parser.c:81-98 | the loop writes the words and the one in progress as the functions say, and nothing past them |
| ShellParser.Tokenizer.Parse | unix-shell-from-scratch/parser.c:79-105 | in arrays of the sizes named, unless a character takes the last entry or byte: the buffer holds the words each followed by NUL, argv their starts and then null, each read back as a C string is its word, the count is right, and nothing past them is written |
| ShellParser.RoomUnlessTaken | unix-shell-from-scratch/parser.c:94-103 | the words and the null entry fit arrays of the sizes named if and only if no character takes the last, and one more is always enough |
| ShellParser.EndsWord | unix-shell-from-scratch/parser.c:87-90 | a NUL and the next entry of argv end a word and disturb nothing written before |
| ShellParser.NextOffset | unix-shell-from-scratch/parser.c:87-90 | each word starts one past the NUL of the one before, so the starts increase |
| ShellCommands.Set | unix-shell-from-scratch/linked_list.c:83-120 | the setter leaves the arguments alone and uses up at least its first token |
| ShellCommands.BuildPrinted | unix-shell-from-scratch/linked_list.c:52-127 | building from printed commands gives the commands back, redirections and separators included |
| ShellCommands.OneCommand | unix-shell-from-scratch/linked_list.c:56-120 | a command is its arguments with the last redirection of either kind; `&&` alone marks it, `!` only ends it, and a word behind a redirection begins the next |
| ShellCommands.MissingFile | unix-shell-from-scratch/linked_list.c:88-106 | a redirection without its file is dropped and ends the list |
| ShellCommands.BuildableIffWellFormed | unix-shell-from-scratch/linked_list.c:52-127 | a list of commands can be built from some tokens if and only if it is well-formed |
| ShellCommands.PrintNormalises | unix-shell-from-scratch/linked_list.c:52-127 | any token list builds the same commands as its printed form |
| ShellCommands.CommandsRoundTrip | unix-shell-from-scratch/linked_list.c:52-127 | commands written as text with any spacing, parsed and built, come back unchanged |
| ShellCommands.PipelineRoundTrip | unix-shell-from-scratch/linked_list.c:52-127 | a pipeline of word lists written as text comes back as one command per stage with exactly its words |
| ShellList.AddCommand | unix-shell-from-scratch/linked_list.c:41-50 | the chain, forwards and backwards, grows by the node at its end |
| ShellList.SetFields | unix-shell-from-scratch/linked_list.c:83-120 | the loop leaves the node and the position as the specification says, a missing file name included |
| ShellList.NextCommand | unix-shell-from-scratch/linked_list.c:56-79 | a fresh node holds the next command, its arguments ended by a null entry |
| ShellList.BuildCommandList | unix-shell-from-scratch/linked_list.c:52-127 | a fresh doubly linked chain with exactly the specified commands in order |
| ShellList.FreeCommandList | unix-shell-from-scratch/linked_list.c:129-148 | frees every node, none twice, and reads none after it is freed |

## Left out

- `setup_stack`, `switch_thread` and the assembly files: a switch is a change of `cpu`, and a thread's context stands for its stack.
- Allocation failures, stack sizes and the destroy functions: no property beyond allocation.
- `gettimeofday`: an abstract sequence of readings.
- Wrap-around of times and return values at 64 bits.
- More than one joiner of a thread, a thread joining itself, unlocking a mutex held by another, and locking one's own mutex again: the library does not support them.
- ThreadHeap.Library.Resume: the return into a thread's own code after a blocking call is a call of this method, because stacks are not modelled.
- The emulator's messages, and the options and printing of `runsim.c`; IN and OUT read and write byte sequences. The simulator's loop is cut off after a given number of turns.
- Disassembler text, and the second loop of its `main`, which prints what follows HALT.
- `asm.py`'s splitting and matching of lines, and `STRING`, `ALIGN` and `ADDR`.
- AsmCorrect.AssembledProgramRuns: says nothing of programs that define a label again after referring back to it, nor of what follows an absolute byte store that misses its byte.
- ShellQuotes.QuotedLine: lines that begin with a quote or leave one open are covered only by the lemmas on one character or one string.
- What `next_pipe`, `negate` and `redirect` mean to the rest of the shell; `redirect`, which is not set for every node, is not modelled.
- ShellList.FreeCommandList: freeing a node's `args` array together with the node is not modelled separately.
- `printCommandList`, and everything that runs commands: fork, exec, wait, pipes, redirection, `cd`, `pwd`, `exit`.
