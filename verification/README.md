# Verified models of eRISCV software

A Dafny 4.11 model of six parts of the eRISCV repository, with proofs of what they
promise. `dafny verify dfyconfig.toml` checks the whole project.

Where the source updates arrays or fields in place, the model is a class or a method over
arrays, and its contract equates the new state with a function of the old one; what the
source promises is then proved about that function, over every input, run or history.

- **LU solver** (`RealSums`, `LuFactor`, `LuSingular`, `LuSolve`, `LuDominance`,
  `LuGenerator`, `LuColumns`, `LuDefaultOrder`, `LuSimulationOrder`, `LuWitness`,
  `LinpackLaws`, `Linpack`). `sgefa` and `sgesl` over exact reals, any order, and the
  benchmark's check of its own result. Failure means singularity and success means P*A =
  L*U. `swap_rows` exchanges whole rows, multipliers included, while `sgesl` interleaves its
  own exchanges with elimination; the two fit together exactly when no multiplier was moved
  by a later interchange, which is proved as an equivalence, with a 3 by 3 system that goes
  wrong.
- **Radix-2 FFT** (`FftSpec`, `FftLoops`, `FftTerms`, `FftDft`). The in-place loops equal
  the recursive transform for any three operations, so rounding binary32 arithmetic is
  covered; over terms that keep every operation the transform is pinned down to which
  operations are carried out in which order; with commutative ring laws it is the Fourier
  sum.
- **Ethernet driver** (`EthHandshake`, `EthPasses`, `EthRings`, `EthTx`, `EthTxExact`,
  `EthTxOverfill`, `EthRx`, `EthRxExact`, `EthRxFailure`, `EthTransmit`, `EthReceive`,
  `EthDriver`). The handshake of engine, interrupt and NAPI as single register accesses in
  any order, and how many passes of the poll function it makes; the two descriptor rings as
  specifications with every engine timing, allocator answer and DMA answer as a parameter;
  what failed reposts and a moving TX_HEAD lead to; and the driver's private structure as
  classes that carry the specifications out in place. The engine writes a descriptor's DONE
  before it moves HEAD past it, as rtl/soc/ethernet/axi/ap_eth_ring_engine.sv:411-437 has
  it.
- **Boot image and boot ROM** (`BootWords`, `BootImage`, `BootRom`, `BootFlash`,
  `BootExact`, `BootLayout`, `BootRoundTrip`). The image program with its text format and a
  reader for it; the ROM as register steps with wrapping addition over a byte memory; the
  flash controller's reads; the format with its offsets and numbers written out; and the
  round trip. A store to an address that is not a multiple of eight traps, as
  rtl/soc/hart_tile/core/trap_control.sv:115-122 has it, and the jump instruction clears the
  lowest bit of its target.
- **File-list resolver** (`FileText`, `FilePaths`, `FileLines`, `FileList`,
  `FileListResolve`, `FileListLaws`, `FileListMeaning`, `FileListNested`, `FileListPrint`,
  `FileListRoundTrip`, `FileShortest`, `FileListExact`, `FileListReadBack`,
  `FileListBroken`, `FileListPlus`). Line splitting and path resolution as Python's library
  does them, logical lines, recursive expansion with its termination measure, three kinds of
  de-duplication, implicit include directories; on the characters of the lines, exactly
  which entries a resolved list has; and the printed list with absolute or relative paths,
  resolved again: when it gives the same entries, and exactly which printed paths are read
  back as themselves.
- **Interrupt-driven byte movers** (`SpiBuffers`, `SpiTransfer`, `SpiExact`, `SpiOverlap`,
  `SpiAsync`, `UartRings`, `UartExact`, `UartDriver`). The asynchronous SPI transfer over
  scatter/gather lists in one memory, where any buffers may overlap, and the UART's
  power-of-two rings.

`Prelude` holds the optional values, results and bytes that several of them share.

Where the code does not keep what it seems to promise, an input that shows it is proved, and
then when it does keep it:

- The comment at sw/benchmarks/linpack/main.c:72 calls the generated matrix diagonally
  dominant. At the default order 100 the matrix that the fixed seed gives is not
  (`LuDefaultOrder.DefaultOrderNotDominant`); at the simulation order 32 it is
  (`LuSimulationOrder.SimulationOrderDominant`). Up to order 19 dominance needs no property
  of the random words, and from order 20 on it needs some
  (`LuGenerator.DominanceGuaranteedIff`).
- After an interchange at column 1 or later, `sgesl` may return a wrong answer although
  `sgefa` succeeded (`LuWitness.LateInterchangeFails`); the exact condition is
  `LuSolve.SolvesEverythingIffUnmoved`.
- `start_xmit` reads TX_HEAD in the reclaim and again for the fullness test. With 63 buffers
  queued, HEAD at tx_clean in the reclaim and further on at the test, and in no other case,
  the call takes the last empty slot (`EthTx.XmitEffect`). A run of 64 calls gets there
  (`EthTxOverfill.OverfillReached`). Once the engine has completed what it has, HEAD equals
  tx_clean, the reclaim releases none of the 64 buffers, and the fullness test passes
  (`EthTxOverfill.FullLooksEmpty`).
- A receive buffer that cannot be reposted ends the poll. Exactly when that neither used up
  the budget nor took the last waiting completion, and no other pass was announced, a frame
  can be left that nothing will announce (`EthHandshake.FailedRepostLosesIff`).
- The failed repost also writes CTRL zero (sw/linux/eriscv_ap_eth/eriscv_ap_eth.c:366), which
  clears the enable bits of both directions, and nothing but opening the device again sets
  them: the receive engine finishes at most the completion it was writing
  (`EthRxFailure.OffForGood`). Each failure costs a slot. When one buffer had been put back,
  completions were waiting for all 63 slots and every repost fails, the poll after the last of
  them consumes a completion a second time, from a slot without a buffer
  (`EthRxFailure.StaleReached`); the exact condition is in `EthRx.OneEffect`. That run takes
  63 more polls after the one that writes CTRL zero. Beyond the few that may already have
  been announced, the driver's own scheduling makes them only with a budget of one, or while
  checks find IRQ_STATUS still set (`EthPasses.OffPasses`, `EthPasses.BudgetOfOne`); where
  nothing was announced the pass in which the repost failed is the last
  (`EthPasses.LastPass`), and they would have to come from the kernel's busy polling.
- An asynchronous SPI transfer reads each byte of the transmit list when it is due. Whatever
  arrives, it sends what the list held at the start if and only if no byte is received into
  the cell of a byte that is sent later (`SpiOverlap.SendsListIff`).
- A printed file list does not always resolve to itself. In a directory with a plus sign in
  its name an include directory printed with its absolute path is read as two directories
  (`FileListPlus.PlusNotReadBack`). The exact condition for each printed entry is
  `FileListBroken.ReadBackIff`.

## Model

| member | source | states |
|---|---|---|
| LuFactor.StepKeepsProduct | sw/benchmarks/linpack/main.c:127-138 | one column step (pivot choice, whole-row exchange, elimination) keeps L times U plus the part not yet eliminated, up to the exchange of rows |
| LuFactor.FactorInvariant | sw/benchmarks/linpack/main.c:114-139 | after any number of columns that had a pivot, L times U plus the remainder is the input matrix with its rows in the order the recorded interchanges give |
| LuFactor.MultipliersBounded | sw/benchmarks/linpack/main.c:119-136 | partial pivoting leaves every stored multiplier, wherever later exchanges moved it, at magnitude at most one |
| LuFactor.FactorisationCorrect | sw/benchmarks/linpack/main.c:95-142 | whenever every column had a pivot: P*A = L*U for every order and matrix, L unit lower triangular with multipliers of magnitude at most one, no zero on the diagonal of U |
| LuSingular.FailureMeansSingular | sw/benchmarks/linpack/main.c:127-141 | a column without a pivot yields a nonzero x with A*x = 0 |
| LuSingular.PivotsFoundIffNonsingular | sw/benchmarks/linpack/main.c:110-142 | all pivots are found exactly when no nonzero x has A*x = 0, for every order and every matrix |
| LuSolve.ForwardInvariant | sw/benchmarks/linpack/main.c:148-156 | the interleaved forward pass inverts a unit lower factor whose multipliers are those stored where each row stood when its column was handled |
| LuSolve.BackInvariant | sw/benchmarks/linpack/main.c:157-166 | the column-oriented back pass solves U*x = y, stated for every column it has reached |
| LuSolve.Residual | sw/benchmarks/linpack/main.c:144-167 | in closed form, how far A*x is from the right-hand side for any factors, interchanges and right-hand side |
| LuSolve.SolvedIffNoDiscrepancy | sw/benchmarks/linpack/main.c:144-167 | for one right-hand side the result solves A*x = b exactly when the moved multipliers make no difference to it |
| LuSolve.SolvesEverythingIffUnmoved | sw/benchmarks/linpack/main.c:101-106 | the result solves A*x = b for every b if and only if no later interchange moved a multiplier to another value; swap_rows moves them, sgesl assumes it does not |
| LuSolve.NoLateInterchangeSolves | sw/benchmarks/linpack/main.c:144-167 | pivot[k] = k for every k from 1 on is enough, whatever the interchange at column 0 |
| LuWitness.LateInterchangeFails | sw/benchmarks/linpack/main.c:101-106 | a 3 by 3 system on which sgefa succeeds and sgesl does not return a solution |
| LuDominance.DominanceKept | sw/benchmarks/linpack/main.c:131-138 | elimination leaves the remaining submatrix strictly column diagonally dominant |
| LuDominance.DominantFactored | sw/benchmarks/linpack/main.c:110-142 | a strictly column diagonally dominant matrix is factored without any interchange and never fails |
| LuDominance.DominantSolved | sw/benchmarks/linpack/main.c:110-167 | for a dominant matrix sgefa then sgesl solves A*x = b for every b |
| LuDominance.SolutionUnique | sw/benchmarks/linpack/main.c:144-167 | a factored system has no other solution |
| LuGenerator.GeneratedDominant | sw/benchmarks/linpack/main.c:73-93 | up to order 19 the generated matrix is dominant whatever the random words are |
| LuGenerator.ElementValue | sw/benchmarks/linpack/main.c:84-87 | an entry grows by 1/65536 with each step of bits 8 to 23 of its word, from -1/2; the other bits do not matter, and the diagonal has ten more |
| LuGenerator.DominanceGuaranteedIff | sw/benchmarks/linpack/main.c:72-93 | over arbitrary random words: every matrix of the generator's form is dominant if and only if the order is at most 19 |
| LuColumns.JumpsAdd | sw/benchmarks/linpack/main.c:66-70 | any numbers of draws that are each one affine step modulo 2^32 are one affine step together, so a row of the matrix can be skipped at once |
| LuColumns.ColumnIsSum | sw/benchmarks/linpack/main.c:79-91 | following a column from word to word totals the distances of its entries from zero, the diagonal one left out |
| LuDefaultOrder.DefaultOrderNotDominant | sw/benchmarks/linpack/main.c:17-18 | the benchmark's own matrix, drawn from its seed at its default order 100, is not strictly column diagonally dominant, contrary to the comment above matgen |
| LuSimulationOrder.SimulationOrderDominant | sw/benchmarks/linpack/main.c:12 | at the order of the cycle-accurate simulation, 32, the benchmark's own matrix is strictly column diagonally dominant |
| LuGenerator.OnesSolve | sw/benchmarks/linpack/main.c:79-91 | the right-hand side is the row sums, so all ones solves the generated system |
| Linpack.Solver.Matgen | sw/benchmarks/linpack/main.c:73-93 | the nested loops draw one word per entry in row order from the given seed and leave a system that all ones solves |
| Linpack.Solver.ExchangeRows | sw/benchmarks/linpack/main.c:95-107 | the in-place exchange swaps two whole rows, stored multipliers included, and nothing else |
| Linpack.Solver.FindPivot | sw/benchmarks/linpack/main.c:115-126 | the search finds the first entry of largest magnitude at or below the diagonal |
| Linpack.Solver.EliminateBelow | sw/benchmarks/linpack/main.c:131-138 | the in-place double loop stores the multipliers and updates exactly the trailing entries |
| Linpack.Solver.Sgefa | sw/benchmarks/linpack/main.c:110-142 | in place: stops at the first column without a pivot, returns -1 exactly then, and leaves the matrix and pivot arrays of the run up to there |
| Linpack.Solver.Factor | sw/benchmarks/linpack/main.c:110-142 | sgefa returns -1 exactly for singular matrices; otherwise the arrays hold P*A = L*U with bounded multipliers; dominant input records pivot[k] = k |
| Linpack.Solver.Sgesl | sw/benchmarks/linpack/main.c:144-167 | the in-place forward and back passes compute the specified solve from whatever the arrays hold, with nothing promised of a division by zero |
| Linpack.Solver.FactorAndSolve | sw/benchmarks/linpack/main.c:219-220 | sgefa then sgesl, after failure too: when the result is a solution, as an equivalence; always for dominant matrices, when pivot[k] = k from column 1 on, and when no multiplier was moved |
| Linpack.Solver.Measure | sw/benchmarks/linpack/main.c:215-224 | one repetition, generate, factor, solve: when the factorisation succeeds and no interchange moved a multiplier the result is exactly all ones, which up to order 19 and at order 32 is always so |
| Linpack.Solver.VerifySolution | sw/benchmarks/linpack/main.c:169-197 | the check draws the matrix again and returns the largest error of any row of the generated system |
| LinpackLaws.WithinIffSmall | sw/benchmarks/linpack/main.c:169-197 | the errors the check looks at are within a limit if and only if the discrepancies of the solve are, which are determined by the packed array, the interchanges and the right-hand side |
| Linpack.Solver.Benchmark | sw/benchmarks/linpack/main.c:200-241 | the program reports a pass if and only if its matrix is not singular and no discrepancy of the solve exceeds the limit; up to order 19 and at order 32 it always does |
| FftSpec.ReverseInvolution | sw/tools/generate_fpu_fft_vectors.py:37-42 | reversing the bits twice gives the index back |
| FftSpec.TargetStep | sw/tools/generate_fpu_fft_vectors.py:58-74 | one butterfly takes two positions from what the recursive transform prescribes after one stage to what it prescribes after the next |
| FftLoops.ReverseBits | sw/tools/generate_fpu_fft_vectors.py:37-42 | the shift loop computes the index with its bits in opposite order |
| FftLoops.Permute | sw/tools/generate_fpu_fft_vectors.py:48-52 | the swap loop moves every element to the index with its bits reversed, each pair exchanged once |
| FftLoops.Butterfly | sw/tools/generate_fpu_fft_vectors.py:60-74 | one butterfly in place, for any three operations, touching two positions only |
| FftLoops.Stage | sw/tools/generate_fpu_fft_vectors.py:56-74 | the base and offset loops carry out every butterfly of a stage exactly once |
| FftLoops.Fft | sw/tools/generate_fpu_fft_vectors.py:45-75 | for any add, sub and mul, and every power-of-two length, the in-place loops give value for value the recursive even/odd transform of the input |
| FftTerms.Joined | sw/tools/generate_fpu_fft_vectors.py:60-74 | over arithmetic that keeps every operation: each output is the even value plus or minus the difference (real part) or sum (imaginary part) of the two products, each with the twiddle on the left |
| FftTerms.FftOfTerms | sw/tools/generate_fpu_fft_vectors.py:45-75 | the loops over terms, for any power of two of points: every output is made by those ten operations of one butterfly, in that order, from the two half transforms |
| FftTerms.TwoPoints | sw/tools/generate_fpu_fft_vectors.py:60-74 | two points in place: the four results as terms of the inputs and the twiddle, operation by operation |
| FftDft.SumOfPairs | sw/tools/generate_fpu_fft_vectors.py:58-74 | a polynomial sum over 2c points is the sum over the even points plus z times the sum over the odd ones, at z squared, in any commutative ring |
| FftDft.TransformIsDft | sw/tools/generate_fpu_fft_vectors.py:45-75 | with tw(t) = w^t and w^(n/2) = -1 the recursive transform of n = 2^m points is the sum of x(j)*w^(j*k), in any commutative ring |
| FftDft.RealPartsCompute | sw/tools/generate_fpu_fft_vectors.py:25-34 | pairs of reals with exact add, sub and mul are such a ring |
| FftDft.ExactFft | sw/tools/generate_fpu_fft_vectors.py:45-75 | in exact arithmetic the in-place loops leave the Fourier sums of their input |
| EthHandshake.StepKeepsSafe | sw/linux/eriscv_ap_eth/eriscv_ap_eth.c:384-419 | every single register access of the engine, the interrupt handler, the poll function and its tail keeps the handshake invariant |
| EthHandshake.NoLostCompletion | sw/linux/eriscv_ap_eth/eriscv_ap_eth.c:384-419 | over all interleavings without a failed repost: an unconsumed completion means that NAPI is scheduled or running, or IRQ_STATUS is set, or one of them is about to be; at rest interrupts are enabled |
| EthHandshake.FailedRepostLosesIff | sw/linux/eriscv_ap_eth/eriscv_ap_eth.c:359-368 | after a failed repost some run leaves a frame with the driver at rest, IRQ_STATUS clear and nothing owed, if and only if the repost left budget, left a completion waiting, and came while no other pass was announced |
| EthHandshake.FailedRepostStrandsFrame | sw/linux/eriscv_ap_eth/eriscv_ap_eth.c:359-368 | a run of 14 steps with one failed repost that ends at rest with a frame nobody will look at |
| EthPasses.PassesPaid | sw/linux/eriscv_ap_eth/eriscv_ap_eth.c:384-419 | over every run, failed reposts included: each pass of the poll function was due at the start, or is paid for by an entry of the interrupt handler, a check that finds IRQ_STATUS set, or a pass that used up its budget |
| EthPasses.EntriesPaid | sw/linux/eriscv_ap_eth/eriscv_ap_eth.c:395-419 | the interrupt handler is entered for what was raised at the start, and at most once for each completion that becomes visible |
| EthPasses.OffPasses | sw/linux/eriscv_ap_eth/eriscv_ap_eth.c:363-368 | with CTRL zero the number of passes is bounded by what was due and raised, by the checks that still find IRQ_STATUS set, and by one for each budget's worth of completions consumed |
| EthPasses.LastPass | sw/linux/eriscv_ap_eth/eriscv_ap_eth.c:363-368 | a failed repost that leaves budget while nothing else is announced ends the last pass: with CTRL zero no completion is consumed after it |
| EthPasses.BudgetOfOne | sw/linux/eriscv_ap_eth/eriscv_ap_eth.c:384-393 | the bound is met: with a budget of one every waiting completion can cost a pass whose repost fails |
| EthRings.Taken | sw/linux/eriscv_ap_eth/eriscv_ap_eth.c:304-308 | clearing the oldest slot and advancing the index leaves the ring holding the rest of the queue in order |
| EthRings.Put | sw/linux/eriscv_ap_eth/eriscv_ap_eth.c:441-447 | filling the slot at the producer index leaves the ring holding the queue with the new entry last |
| EthRings.HoldsOccurs | sw/linux/eriscv_ap_eth/eriscv_ap_eth.c:165-182 | slots that hold a queue in order hold each of its buffers as often as the queue and no others |
| EthTx.DeviceKeeps | rtl/soc/ethernet/axi/ap_eth_ring_engine.sv:411-437 | as long as its writes succeed, the engine writes DONE at HEAD before it advances, never passes TAIL, and changes nothing of the driver's |
| EthTx.ReclaimReleases | sw/linux/eriscv_ap_eth/eriscv_ap_eth.c:284-309 | the reclaim releases, oldest first, exactly the buffers that HEAD had passed |
| EthTx.LockedEffect | sw/linux/eriscv_ap_eth/eriscv_ap_eth.c:452-475 | the part of a transmit call under the lock: what is released, what enters, when it is turned away, and that the invariant breaks exactly with 63 buffers queued, HEAD at tx_clean in the reclaim and elsewhere at the fullness test |
| EthTx.XmitEffect | sw/linux/eriscv_ap_eth/eriscv_ap_eth.c:421-476 | one transmit call on every path; mappings and bounce buffers balance on each; the ring overfills if and only if the packet can be mapped, 63 buffers are queued, HEAD is at tx_clean in the reclaim and elsewhere at the fullness test |
| EthTx.WakeEffect | sw/linux/eriscv_ap_eth/eriscv_ap_eth.c:284-315 | the reclaim keeps the ring, and leaves the queue stopped only if it was stopped and there is no room |
| EthTxOverfill.OverfillReached | sw/linux/eriscv_ap_eth/eriscv_ap_eth.c:452-475 | a run of 64 transmit calls, in which the oldest buffer completes between the last call's two readings of TX_HEAD, ends with all 64 slots occupied |
| EthTxOverfill.FullLooksEmpty | sw/linux/eriscv_ap_eth/eriscv_ap_eth.c:284-315 | from any overfull ring, once the engine has completed what it has: HEAD equals tx_clean and tx_prod, the reclaim changes nothing, and the fullness test passes with the slot at tx_prod occupied |
| EthTxOverfill.OverfullRingForgotten | sw/linux/eriscv_ap_eth/eriscv_ap_eth.c:284-315 | the two together: after that run and its completions the reclaim releases nothing while 64 buffers are queued |
| EthTx.HistoryExtends | sw/linux/eriscv_ap_eth/eriscv_ap_eth.c:301-309 | released and accepted buffers stay on record through every later event |
| EthTx.TxHistory | sw/linux/eriscv_ap_eth/eriscv_ap_eth.c:284-315 | over every history with HEAD stable under the lock: occupied slots are exactly those from tx_clean to tx_prod, at most 63, with HEAD among them; each accepted buffer is released once in order; mappings and bounce buffers equal occupied slots plus calls under way; a ring without room has its queue stopped; a stopped queue always has a buffer outstanding, whose reclaim will wake it |
| EthTx.FullMeansStopped | sw/linux/eriscv_ap_eth/eriscv_ap_eth.c:455-474 | over every history, HEAD stable or not: whenever the slot after tx_prod is HEAD the queue is stopped |
| EthTxExact.Refusals | sw/linux/eriscv_ap_eth/eriscv_ap_eth.c:431-461 | on the fields of packet and ring: exactly when a call drops, has no memory or finds the ring full; the first two leave everything alone, and the last stops the queue behind the reclaim and gives back its mapping |
| EthTxExact.Acceptance | sw/linux/eriscv_ap_eth/eriscv_ap_eth.c:463-474 | an accepted packet takes the slot at tx_prod with a clear status, and leaves the queue stopped if and only if it took the last room, unless HEAD moved just before the fullness test |
| EthTxExact.ReclaimClears | sw/linux/eriscv_ap_eth/eriscv_ap_eth.c:288-309 | the reclaim goes on to HEAD or the first descriptor that is not done, and clears slot, bounce buffer and status of every slot it passes and of no other |
| EthTransmit.Transmitter.Release | sw/linux/eriscv_ap_eth/eriscv_ap_eth.c:289-308 | one turn of the reclaim loop in place: unmap, free the buffer and its bounce allocation, clear slot and status, advance |
| EthTransmit.Transmitter.Reclaim | sw/linux/eriscv_ap_eth/eriscv_ap_eth.c:284-315 | the reclaim loop and the wake-up in place equal their specification for any engine activity |
| EthTransmit.Transmitter.StartXmit | sw/linux/eriscv_ap_eth/eriscv_ap_eth.c:421-476 | the whole transmit call in place equals its specification for every packet, allocator and DMA answer, and timing |
| EthRx.ConsumeKeeps | sw/linux/eriscv_ap_eth/eriscv_ap_eth.c:331-338 | taking a completed buffer out of its slot, and with it the slot out of the ring |
| EthRx.DisposeSettles | sw/linux/eriscv_ap_eth/eriscv_ap_eth.c:340-355 | a consumed buffer is freed, delivered or reused, and every allocated buffer stays in exactly one place |
| EthRx.PostKeeps | sw/linux/eriscv_ap_eth/eriscv_ap_eth.c:370-371 | putting a buffer back at the producer index keeps the ring invariant |
| EthRx.FailKeeps | sw/linux/eriscv_ap_eth/eriscv_ap_eth.c:359-367 | a failed repost loses one slot, switches the engine off and keeps the invariant |
| EthRx.OneEffect | sw/linux/eriscv_ap_eth/eriscv_ap_eth.c:322-374 | one turn exactly: when it does nothing, what it delivers and with which length, when the slot is lost and the engine switched off, and that a slot without a buffer is consumed if and only if all 63 slots are lost and a buffer had been put back before |
| EthRxExact.FrameFate | sw/linux/eriscv_ap_eth/eriscv_ap_eth.c:340-355 | a completion with the error bit or a length above 2048 adds one to rx_errors and delivers nothing; any other leaves rx_errors alone and is delivered exactly when a replacement is had; rx_dropped counts the frames kept out and the failed reposts |
| EthRxExact.BufferFate | sw/linux/eriscv_ap_eth/eriscv_ap_eth.c:338-368 | when the repost fails, how many buffers are allocated, and which buffers are freed |
| EthRxExact.RepostFields | sw/linux/eriscv_ap_eth/eriscv_ap_eth.c:370-373 | which buffer goes into the slot at rx_prod, with a clear status, and how both indices move |
| EthRxExact.FailFields | sw/linux/eriscv_ap_eth/eriscv_ap_eth.c:359-367 | a failed repost leaves rx_prod, empties the oldest slot and clears the enable bit |
| EthRx.PollEffect | sw/linux/eriscv_ap_eth/eriscv_ap_eth.c:317-382 | a poll reports what it consumed, at most its budget, loses at most one slot, and leaves RX_TAIL at the producer index |
| EthRxExact.PollRunsOut | sw/linux/eriscv_ap_eth/eriscv_ap_eth.c:322-374 | a poll does not stop early: with budget left, no failed repost and no stale slot, the next descriptor has not been written back |
| EthRx.RxHistory | sw/linux/eriscv_ap_eth/eriscv_ap_eth.c:317-382 | over every history: slots from rx_cons to rx_prod hold distinct posted buffers and the others none; 63 less the failed reposts are posted; every allocated buffer is in one place; no stale completion is consumed while fewer than 63 reposts have failed |
| EthRxFailure.OffForGood | sw/linux/eriscv_ap_eth/eriscv_ap_eth.c:366 | once a repost has failed, over every sequence of polls and engine steps, the engine writes back at most the one completion it was writing |
| EthRxFailure.StaleReached | sw/linux/eriscv_ap_eth/eriscv_ap_eth.c:359-367 | a run in which the engine goes off at the first failure and, when polls keep coming, a completion is consumed a second time, for every frame length and every way a mapping can fail |
| EthReceive.Receiver.PostBuffer | sw/linux/eriscv_ap_eth/eriscv_ap_eth.c:141-159 | mapping and posting one buffer, or nothing at all when the mapping fails or is misplaced |
| EthReceive.Receiver.PollOne | sw/linux/eriscv_ap_eth/eriscv_ap_eth.c:322-374 | one turn of the poll loop in place equals its specification |
| EthReceive.Receiver.RxPoll | sw/linux/eriscv_ap_eth/eriscv_ap_eth.c:317-382 | the poll loop in place, with its two ways out, the CTRL write and the tail update, equals its specification |
| EthReceive.Receiver.FillSlots | sw/linux/eriscv_ap_eth/eriscv_ap_eth.c:224-236 | filling the ring posts 63 distinct buffers or stops at the first that cannot be had or mapped |
| EthDriver.Driver.FreeRings | sw/linux/eriscv_ap_eth/eriscv_ap_eth.c:161-195 | frees every buffer in both rings exactly once, however far they were filled, and leaves no mapping of theirs |
| EthDriver.Driver.AllocRings | sw/linux/eriscv_ap_eth/eriscv_ap_eth.c:197-241 | succeeds exactly when every allocation and mapping does; any failure leaves nothing allocated or mapped |
| EthDriver.Driver.CoherentAccounted | sw/linux/eriscv_ap_eth/eriscv_ap_eth.c:141-195 | in every state between calls outstanding mappings equal occupied slots of both rings plus calls under way, and bounce buffers the occupied transmit slots plus those calls |
| EthDriver.Driver.Open | sw/linux/eriscv_ap_eth/eriscv_ap_eth.c:479-503 | refuses while rings are allocated, reports a busy engine, and otherwise leaves either two fresh rings or nothing |
| EthDriver.Driver.StartXmit | sw/linux/eriscv_ap_eth/eriscv_ap_eth.c:421-477 | a transmit call keeps the transmit ring in order with the one exception stated as an equivalence, and leaves the receive ring alone |
| EthDriver.Driver.NapiPoll | sw/linux/eriscv_ap_eth/eriscv_ap_eth.c:384-393 | the ring work of a poll keeps both rings' invariants |
| EthDriver.Driver.Engine | rtl/soc/ethernet/axi/ap_eth_ring_engine.sv:411-437 | what the engine does between calls, as long as its writes succeed, keeps both rings in order |
| EthDriver.Driver.Stop | sw/linux/eriscv_ap_eth/eriscv_ap_eth.c:505-522 | a stop that reaches idle frees each queued buffer once and leaves no mapping and no bounce buffer; one that does not keeps rings and mappings |
| BootWords.XorAssociates | sw/ap_bootrom/boot.S:58 | bitwise exclusive or is associative on integers of any size |
| BootWords.XorAllUpdate | sw/ap_bootrom/mk_bpi_image.py:17-23 | changing one word changes the sum by the difference of the two words |
| BootWords.SplitJoin | sw/ap_bootrom/boot.S:57-59 | storing the bytes of a loaded little-endian word stores the bytes that were loaded |
| BootWords.JoinSplit | sw/ap_bootrom/mk_bpi_image.py:50-60 | a field that fits is read back from its little-endian bytes |
| BootImage.Xor64Words | sw/ap_bootrom/mk_bpi_image.py:17-23 | the checksum loop computes the exclusive or of all 64-bit words |
| BootImage.PackImage | sw/ap_bootrom/mk_bpi_image.py:38-63 | the image, or the refusal with the same three checks in the same order |
| BootLayout.Refusals | sw/ap_bootrom/mk_bpi_image.py:39-48 | exactly which payloads, load addresses and entries are refused, with the numbers of the aperture, and with which of the three errors |
| BootLayout.ImageBytes | sw/ap_bootrom/mk_bpi_image.py:50-62 | the image byte by byte: the eight header fields at their offsets with the low byte first, the sum of the words behind them, the payload, and zeros up to whole words |
| BootLayout.HalfBytes | sw/ap_bootrom/mk_bpi_image.py:68-69 | halfword k is bytes 2k and 2k + 1 of the image, the first of them low |
| BootLayout.TextLines | sw/ap_bootrom/mk_bpi_image.py:66-72 | the text character by character: four lower-case hexadecimal digits and a newline for each halfword |
| BootExact.SumBit | sw/ap_bootrom/mk_bpi_image.py:17-23 | each bit of the sum is the parity of the words that have it set |
| BootImage.ReadText | sw/ap_bootrom/mk_bpi_image.py:66-70 | reading the printed lines as $readmemh does (section 21.4 of IEEE 1800-2017) gives the halfwords back |
| BootRom.Hart.Check | sw/ap_bootrom/boot.S:23-52 | the wrapping 64-bit checks pass exactly when the header satisfies the predicate over unbounded integers |
| BootRom.Hart.CopyLoop | sw/ap_bootrom/boot.S:54-63 | the register loop ends, copies the payload word by word and sums it |
| BootRom.Hart.Start | sw/ap_bootrom/boot.S:22-72 | for arbitrary flash and memory: the exact outcome, the exact memory and the exact list of stores |
| BootExact.WordOfFlash | sw/ap_bootrom/boot.S:25-40 | a word of the flash in terms of its eight bytes, the low byte first |
| BootExact.EndingExact | sw/ap_bootrom/boot.S:22-72 | on the words at 0x20000000 and the numbers themselves: the ROM jumps exactly behind the right magic, version 1, a size of whole words, a range in DDR, an entry in it, an aligned load address and the right sum; it traps exactly for a misaligned one; everything else halts |
| BootExact.OneVersion | sw/ap_bootrom/boot.S:25-31 | of two flashes that differ in the magic or the version at most one gets past the checks |
| BootExact.CopiedBytes | sw/ap_bootrom/boot.S:54-63 | byte i behind the header ends at load + i, and all other memory is as it was |
| BootRom.StoresInDdr | sw/ap_bootrom/boot.S:42-63 | every store is aligned and inside the announced range, which lies in DDR |
| BootRom.BootsIffSameSum | sw/ap_bootrom/boot.S:65 | of two flashes with the same header, if one boots the other does exactly when its payload has the same sum |
| BootRom.OneWordChanged | sw/ap_bootrom/boot.S:57-65 | any change confined to one payload word is rejected |
| BootFlash.ReadBeat | rtl/soc/peripherals/flash/ap_axi_bpi_nor.sv:141-177 | a bus read, assembled from four 16-bit flash words, returns the 64-bit word that the bytes of the flash stand for, the low byte of each flash word first |
| BootRoundTrip.ImageInFlash | dv/soc/tb/ap_bpi_nor_model.sv:30-40 | a flash whose words are the printed halfwords holds the image byte for byte |
| BootRoundTrip.RoundTrip | sw/ap_bootrom/boot.S:22-68 | for every accepted payload, load address and entry: the flash read from the printed text boots with the zero-padded payload at the load address, all other memory unchanged and a jump to the entry, if the load address is a multiple of eight; if not, the first store traps |
| BootRoundTrip.PackerAgrees | sw/ap_bootrom/mk_bpi_image.py:44-48 | the range and entry checks of the two programs accept the same headers |
| FileText.SplitUnlines | tools/project/resolve_filelist.py:49 | lines without line breaks in them, written one after the other, are split into the same lines |
| FileLines.IterLines | tools/project/resolve_filelist.py:45-65 | splitting a text and looping over its lines computes the logical lines with the numbers they start on |
| FileLines.ScanEnded | tools/project/resolve_filelist.py:50-60 | no logical line is empty, holds a line break, ends in white space or ends in a backslash |
| FileLines.ScanPlain | tools/project/resolve_filelist.py:49-65 | skipped lines followed by plain ones are read as exactly the plain ones |
| FileListMeaning.PassedOver | tools/project/resolve_filelist.py:49-52 | blank lines and comments change nothing, even between a continued line and its rest |
| FileListMeaning.LineEnds | tools/project/resolve_filelist.py:53-62 | a line without a backslash at its end, white space around it taken off, completes the logical line, which has the number of the first line it was made of |
| FileListMeaning.LineGoesOn | tools/project/resolve_filelist.py:53-59 | a line with a backslash at its end is continued with one space, white space before the backslash dropped |
| FileListMeaning.NestedLine | tools/project/resolve_filelist.py:103-108 | a line of -f, white space and a name comes to exactly what the list of that name does, or the error that it does not exist |
| FileListMeaning.IncDirNames | tools/project/resolve_filelist.py:110-121 | a line of +incdir+ and names between plus signs comes to the named directories in order, or the error for the first that is none, or the error that there is no name |
| FileListMeaning.OptionLine | tools/project/resolve_filelist.py:123-127 | any other line that begins with a plus or minus sign is kept as it is |
| FileListMeaning.SourceName | tools/project/resolve_filelist.py:129-134 | any other line is a source, or the error that it is missing or a directory |
| FileListMeaning.IncludeIff | tools/project/resolve_filelist.py:31 | an include directive is recognised if and only if the line is white space, the directive, white space and a non-empty name in quotes |
| FileList.Resolver.Visit | tools/project/resolve_filelist.py:95-136 | visit ends on every file graph, adds exactly what is new in the full depth-first expansion, or reports the expansion's error, and restores the active lists |
| FileList.Resolver.Add | tools/project/resolve_filelist.py:118-134 | an entry is added exactly when its value has not been seen in its kind |
| FileListResolve.FirstOccurrences | tools/project/resolve_filelist.py:89-138 | the collected entries are the first occurrences of the full expansion, in their order |
| FileListResolve.SourceLocalIncludeDirs | tools/project/resolve_filelist.py:68-82 | the directories of the sources with a local literal include, in order |
| FileListResolve.ResolveFilelist | tools/project/resolve_filelist.py:85-154 | the whole resolver equals expansion, de-duplication and insertion |
| FileListLaws.CycleGenuine | tools/project/resolve_filelist.py:97-99 | a cycle error names a chain of -f lines that returns to a list it has been through |
| FileListLaws.ExpandedAcyclic | tools/project/resolve_filelist.py:95-107 | a list that expands has no chain that meets the active lists or itself |
| FileListLaws.CycleReportedIff | tools/project/resolve_filelist.py:95-107 | where no other error arises a cycle is reported if and only if one is reachable through -f from the root |
| FileListNested.CycleOnLines | tools/project/resolve_filelist.py:95-107 | the same on the text of the lines, over chains of lists each of which has a line of -f, white space and the name of the next |
| FileListNested.LinesAppend | tools/project/resolve_filelist.py:102-134 | what the lines of a list come to is put together in their order, and the first error ends it |
| FileListNested.ErrorPassesOn | tools/project/resolve_filelist.py:138-154 | an error in reading the lists is the error of the whole resolver, and there is no other |
| FileListNested.EntriesExactly | tools/project/resolve_filelist.py:85-154 | an entry is in a resolved list if and only if a line of a list that -f lines reach from the root says it, as source, option or one of several include directories, or it is the directory of such a source with a literal include of a file beside it |
| FileListNested.ImplicitOrder | tools/project/resolve_filelist.py:140-153 | the implicit directories stand before the first entry that is no include directory, in the order in which the sources first need them |
| FileListPrint.Resolved | tools/project/resolve_filelist.py:140-154 | every resolved list has distinct entries of the right kinds, the explicit ones in their order with the new include directories in one place, and a directory for every source with a local literal include |
| FileListPrint.Render | tools/project/resolve_filelist.py:165-177 | the printing loop produces the text with the banner and one line an entry |
| FileListPrint.ResolveRenderResolve | tools/project/resolve_filelist.py:85-177 | for any way of showing paths that can stand on a line and resolve back: writing the printed text and resolving it gives the same entries in the same order |
| FilePaths.RelativeStraight | tools/project/resolve_filelist.py:163 | a relative path between resolved directories leads where it should, through no directory but those on the way to the two |
| FilePaths.AbsoluteStraight | tools/project/resolve_filelist.py:161-162 | an absolute path leads where it should from anywhere |
| FilePaths.StraightFollowed | tools/project/resolve_filelist.py:39 | a text that leads straight to a resolved path is followed there name by name, whatever links there are elsewhere |
| FileListRoundTrip.RenderFilelist | tools/project/resolve_filelist.py:157-177 | the printed text with absolute paths, or with paths relative to the directory of the output |
| FileListRoundTrip.LinksElsewhereFollowed | tools/project/resolve_filelist.py:38-42 | in a file system with links, none of them on the way to the output or to an existing file's resolved path, printed paths are followed as the round trip needs it |
| FileListRoundTrip.PrintedListResolves | tools/project/resolve_filelist.py:85-177 | with either kind of path, for every list that resolves and whose printed paths can stand on a line: the printed text resolves to the same entries in the same order, as long as printed paths of existing files are followed straight to them |
| FileShortest.WalkShortest | tools/project/resolve_filelist.py:163 | up to the common directory and down again is the cheapest walk from one directory to another, and the only one of its cost |
| FileShortest.NothingElse | tools/project/resolve_filelist.py:160-163 | no other text that is not longer leads where a printed path leads, unless one is absolute and the other is not |
| FileListExact.IncDirReadBackIff | tools/project/resolve_filelist.py:110-121 | an include directory is read back from its printed line if and only if the printed path has no plus sign in it |
| FileListBroken.ReadBackIff | tools/project/resolve_filelist.py:45-134 | a list printed for one include directory or source stands for it if and only if the path can stand on a line: no line break, no white space and no backslash at the end, no plus sign in a directory, and no white space, plus or minus sign or comment at the beginning of a source |
| FileListPlus.PlusNotReadBack | tools/project/resolve_filelist.py:110-121 | for every directory with a plus sign in its name: a list there that resolves to an include directory, and whose absolute printed form resolves to an error |
| SpiBuffers.TxByte | sw/rtos/zephyr/soc/riscv/eriscv_mcu/drivers/spi.c:58-72 | the byte at a position of the flat transmit list, wherever its buffers lie, and 0xff past its end or without a list |
| SpiBuffers.RxByte | sw/rtos/zephyr/soc/riscv/eriscv_mcu/drivers/spi.c:74-88 | stores into the cell of that position of the flat receive list and no other, or nowhere past its end |
| SpiBuffers.TotalLength | sw/rtos/zephyr/soc/riscv/eriscv_mcu/drivers/spi.c:90-100 | the length of the flat list |
| SpiTransfer.TransferRun | sw/rtos/zephyr/soc/riscv/eriscv_mcu/drivers/spi.c:171-242 | every run of engine steps and interrupts in any order, however the buffers overlap: chip select held and no callback while active; each byte sent is what its cell held once the bytes before it had been received; at the end memory is what storing the arrived bytes one after the other makes it, and the callback was made exactly once |
| SpiExact.OneLineLow | sw/rtos/zephyr/soc/riscv/eriscv_mcu/drivers/spi.c:238 | the select value has the bit of the slave clear and the other three set |
| SpiExact.Starts | sw/rtos/zephyr/soc/riscv/eriscv_mcu/drivers/spi.c:228-239 | a transfer starts with the first byte of the transmit list under way, or 0xff, its slave selected, and the length of the longer list |
| SpiTransfer.RoundsEnd | sw/rtos/zephyr/soc/riscv/eriscv_mcu/drivers/spi.c:187-206 | one engine step and one interrupt for each byte of the longer list end the transfer, and not before |
| SpiOverlap.Received | sw/rtos/zephyr/soc/riscv/eriscv_mcu/drivers/spi.c:74-88 | where no cell is received into twice, the receive list ends with the bytes that arrived and all other memory is unchanged |
| SpiOverlap.SendsListIff | sw/rtos/zephyr/soc/riscv/eriscv_mcu/drivers/spi.c:171-206 | whatever arrives, the bytes sent are those the transmit list held at the start if and only if no byte is received into the cell of a byte that is sent later |
| SpiOverlap.InPlace | sw/rtos/zephyr/soc/riscv/eriscv_mcu/drivers/spi.c:171-206 | a transfer in place is one that does |
| SpiAsync.Spi.TransceiveAsync | sw/rtos/zephyr/soc/riscv/eriscv_mcu/drivers/spi.c:209-242 | starts a transfer exactly when the configuration is valid, a list is not empty and none is active |
| SpiAsync.Spi.Isr | sw/rtos/zephyr/soc/riscv/eriscv_mcu/drivers/spi.c:187-206 | the handler in place equals its specification |
| UartRings.SendAllEffect | sw/lib/uart.c:46-55 | the transmit loop writes the oldest queued bytes, as many as TXDATA takes |
| UartRings.ReceiveKeeps | sw/lib/uart.c:66-79 | a byte is dropped exactly when 127 are queued, and counted |
| UartExact.ServiceArrives | sw/lib/uart.c:66-79 | every byte the hardware holds is taken, in order; the queue takes the first of them until it has 127, and the counter grows by the others |
| UartExact.IrqEffect | sw/lib/uart.c:206-219 | under a receive watermark the bytes arrive, under a transmit watermark queued bytes are written, and without its cause a side is left alone |
| UartExact.WriteSends | sw/lib/uart.c:157-174 | what fits goes behind the queue, and TXDATA gets the oldest bytes of the two together |
| UartRings.WriteEffect | sw/lib/uart.c:157-174 | a write accepts the first bytes up to the free room and returns their number |
| UartRings.PutcEffect | sw/lib/uart.c:141-155 | one byte is accepted exactly when there is room |
| UartRings.GetcEffect | sw/lib/uart.c:176-186 | a read takes the oldest byte, and -1 means there is none |
| UartRings.UartHistory | sw/lib/uart.c:113-219 | over every sequence of calls and interrupts: accepted is written followed by queued, kept arrivals are delivered followed by queued, the counter counts the rest modulo 2^32, and the transmit interrupt is enabled exactly when the queue is not empty |
| UartDriver.LoadByte | sw/lib/uart.c:39-44 | the byte at an address modulo 2^32, through the aligned word that holds it |
| UartDriver.Driver.TxService | sw/lib/uart.c:46-64 | the transmit service in place equals its specification |
| UartDriver.Driver.RxService | sw/lib/uart.c:66-79 | the receive service in place equals its specification |
| UartDriver.Driver.AsyncWrite | sw/lib/uart.c:157-174 | the write call in place equals its specification on the bytes at the pointer |
| UartDriver.Driver.IrqHandler | sw/lib/uart.c:206-219 | the handler in place equals its specification |
| UartDriver.Driver.RxDropped | sw/lib/uart.c:198-204 | the counter read back is the number of arrivals not kept, modulo 2^32 |

## Left out

- Linpack.Solver.FactorAndSolve: binary32 rounding, overflow and NaN; `float` is taken as exact reals.
- Linpack.Solver.Sgesl: the value of a division by zero after a failed `sgefa`, infinite or not a number in binary32, is left open.
- Linpack.Solver.Benchmark: the cycle counts, the exception flags and the report's other fields; no repetition at all.
- LuDefaultOrder.DefaultOrderNotDominant: at which orders from 20 on, other than 32 and 100, the matrix of the fixed seed is dominant.
- FftDft.ExactFft: `math.sin` and `math.cos` and the rounding of the twiddle table; the twiddles are given powers of a root w.
- EthTx.TxHistory: HEAD is taken as stable between the readings of one transmit call under the lock; without that the exact condition is `EthTx.XmitEffect`.
- EthRx.RxHistory: what the kernel does when a slot without a buffer is consumed; the model records it and goes no further with that turn.
- EthHandshake.NoLostCompletion: rings are counted from the start and carry no buffers; ring contents are the subject of the other Ethernet modules.
- EthDriver.Driver.Stop: the kernel is taken to let no transmit call be under way when the device is opened or stopped.
- EthReceive.Receiver.RxPoll: of the device counters only errors and drops are kept, counted from the last open.
- EthTx.DeviceKeeps: an error response to the write of a completion, after which the engine advances HEAD although DONE may not be in memory; the driver's loops then stop at that descriptor.
- EthDriver.Driver.Engine: the same; and the transmit engine is allowed to go on with CTRL zero, so what is proved of it covers the engine that stops.
- EthRxFailure.StaleReached: where the polls come from; that is the subject of `EthPasses`, and the kernel's busy polling is not modelled.
- EthTransmit.Transmitter.StartXmit: descriptor addresses, lengths and cookies, and the contents of packets and bounce buffers.
- BootImage.ReadText: comments, addresses, underscores and unknown digits of the memory file format are refused by the reader.
- BootRoundTrip.RoundTrip: an image larger than the 128 MiB flash has no programmed flash, so nothing is said of it; reads outside the flash are an arbitrary total function, and the flash controller's wait states and refusals are not modelled.
- FileListRoundTrip.PrintedListResolves: links on the way to the resolved path of an existing file, which there are none of while nothing else changes the file system; Windows paths.
- FileListBroken.ReadBackIff: a printed source whose line asks for a nested list, as one named `-f x` does; the answer is then that list's.
- FileList.Resolver.Visit: unreadable text encodings and the wording of error messages; an error carries its list, line number and value.
- SpiTransfer.TransferRun: a transfer started by a callback while the interrupt handler still runs, the synchronous path and its timeouts, lengths beyond the machine's word, a NULL buffer of nonzero length, and changes to memory by others while a transfer is active.
- UartRings.UartHistory: the polling calls, the watermarks, baud rate and interrupt controller set-up.
- Probe and remove, the MAC address, register offsets, carrier state and the Ethernet device's byte and packet statistics.
- Sv39, caches, the AXI fabric and the Ethernet RTL, beyond the engine contract used by the driver model.
- Simulation scripts, Makefiles, vector tables and the one-register drivers.
- sw/rtos/freertos/drivers/uart.c and sw/rtos/freertos/drivers/spi.c, which repeat the ideas modelled here.
