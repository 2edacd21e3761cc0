# Lucet: counting, suspending, laying out, probing

Lucet compiles WebAssembly ahead of time (`lucetc`) and runs the result inside a host process
(`lucet-runtime`). This project models the parts where the compiler and the runtime must agree on something
neither can see alone, and proves that they do.

**Instruction counting and bounds.** The compiler threads a counter through every function: it prices each
operator, keeps what has not been flushed yet on a stack of scopes, flushes it into a local variable where
control flow may divide, saves and reloads that variable around calls, and at calls, returns, jump tables and
loop back edges asks whether the bound has been reached, yielding to the host if so.

- `Wasm` is a reference interpreter that counts what it executes. `Instrumentation` says what the pass emits;
  `FuncInfo` is the pass itself, updating `scope_costs` in place and emitting into a builder, proved to emit
  exactly that. `Target` runs the emitted code, with the host free to move the bound whenever it has control.
- `ControlStack` and `CodeShape` hold the static facts: the scope stack mirrors the control stack, only its
  top ever owes anything, dead code owes nothing, every branch lands right after a flush. `EmittedCode` says what
  is emitted from the operators alone: what the translator finds reachable is what control can reach, and every
  addition, check and reload stands exactly where it has to.
- `ExactCount` and `Counting` prove that on every run, under every schedule of bounds, the compiled program
  follows the source program and the two counter fields sum to the reference count.
- `Slices` and `SliceTheorems` prove that every slice, however it starts, ends in a number of steps known
  beforehand, and how far a slice can overshoot its bound. `CheckPoints` says exactly when a
  check expires. `Service` adds that a guest resumed at every expiry comes to the end the source program comes to:
  it finishes with its result and its count, or it traps. `ExpectedCounts` proves that programs of
  `lucet-runtime/tests/instruction_counting` count what they say they count.

**The life of an instance.** `InstanceState` says what each host call and each guest step does to an instance
and to a history of events; `Instances.Instance` is the class whose methods do it in place. `InstanceHistory`
holds the invariant and `InstanceRuns` what follows over every sequence of public calls and everything the
guest may do: resting states, type-safe resumption, start discipline, the async loop, kill switches.
`InstanceFutures` tells from the values a user resumes with and from the turns of an async run alone which values
its guest is owed, and proves that it takes exactly those. `InstanceEnds` says what one slice tells the host and
leaves of the instance, and which instances only a reset can revive; `InstanceCalls` says the same of every public
call, told from the slices it swaps in. `Honesty` is where the two halves meet: a slice of compiled code that expires
is one the instance model allows. `AsyncService` goes from the source program to the end of an async run.

**Index spaces and images.** `ModuleInfo` and `ModuleValidation` merge duplicate signatures and imports, `Decls`
gives every function its symbol and lists imports and exports;
`Tables` and `IndirectCalls` go from element segments to the bytes of the table and the emitted call check;
`SparseData` splits data segments into pages. Each is compared with the flat rule of the WebAssembly Core
Specification 1.0 (sections 4.4.5 and 4.5.4).

**Two small pieces.** `StackProbe` decodes and runs the hand-assembled stack probe; `Traps` finds the trap
code for an instruction address. An overflow in the probe is shown to be reported as one.

## Where code and expectation part

- The comment in `do_check` says positive; the emitted comparison is not-negative, so the bound expires at a check
  exactly if the count, with the checked operator, has reached it (`CheckPoints.CheckDecides`). The comment on
  `set_instruction_bound_delta` says a delta must be positive to trigger a yield; with a delta of 0 the next check
  expires (`CheckPoints.ZeroDeltaExpires`). The model follows the code in both.
- `run_async` refuses a yielded instance but not one whose bound has expired: it resumes the old guest and
  never enters the function it was asked to run. `InstanceRuns.RunAsyncEnters` and
  `InstanceRuns.RunAsyncPanics` say exactly when it enters it and when it panics; `InstanceRuns.StaleRun` is a run
  of the interface on which the second run completes without entering its function.
- An async run dropped while it waits for a future leaves an instance nothing but a reset can revive
  (`InstanceEnds.OnlyResetRevives`, `InstanceEnds.DroppedRunNeedsReset`).
- A failed address lookup leaves the instance `Transitioning` until it is reset, and nothing else does
  (`InstanceRuns.AlwaysRests`, `InstanceCalls.FaultLosesInstance`), and a failed setup while a start function is
  suspended lets it be entered again (`InstanceRuns.StartsOnce`, `InstanceRuns.StartTwice`).
- The index of an indirect call is sign-extended before it is compared with the size of the table, so one of 2^31
  or more is out of bounds even in a larger table (`IndirectCalls.CheckIsExact`,
  `IndirectCalls.FarSlotIsOutOfBounds`).
- Repeated imports of one field keep the type of the first. The indirect-call check meets the rule of section
  4.4.5 if and only if they all agree in type (`IndirectCalls.RuleIsMetIfImportsAgree`).
- The sparse-data limit lets through segments that end in the page after the memory and drops their tail
  (`SparseData.LimitAgreesExactly`, `SparseData.OnePastTheEnd`).
- The stack probe is right from frames of exactly one page on (`StackProbe.ProbeNeedsAPage`).

## Model

| member | source | states |
|---|---|---|
| Int64.SetBoundDeltaPreservesTotal | lucet-runtime/lucet-runtime-internals/src/instance.rs:956-963 | Setting a bound makes `adj` the negated delta and changes neither the count nor any later count, modulo 2^64 |
| FuncInfo.FuncInfo.constructor | lucetc/src/function.rs:38-61 | The pass starts with one scope, owing nothing, that is no loop |
| FuncInfo.FuncInfo.FlushCounter | lucetc/src/function.rs:192-212 | Emits one addition of what the top scope owes, or nothing if it owes nothing, and clears it |
| FuncInfo.FuncInfo.SaveAndCheck | lucetc/src/function.rs:214-239 | Emits the save, the branch on a negative counter, and the yield with its own save and reload |
| FuncInfo.FuncInfo.Price | lucetc/src/function.rs:250-280 | The price the pass adds is the reference price of every operator |
| FuncInfo.FuncInfo.CheckAndSave | lucetc/src/function.rs:298-309 | Checks exactly calls, returns, jump tables and branches to loops; the scope index is in range |
| FuncInfo.FuncInfo.CountReachable | lucetc/src/function.rs:248-345 | A reachable operator is added to the top scope and, if it divides control, flushed and checked |
| FuncInfo.FuncInfo.InstrumentPre | lucetc/src/function.rs:151-386 | The hook before an operator changes the scope stack and the code as specified; its assertion holds whenever dead code owes nothing |
| FuncInfo.FuncInfo.InstrumentPost | lucetc/src/function.rs:388-403 | A reload follows exactly the reachable calls |
| FuncInfo.TranslateOperator | lucetc/src/function.rs:882-904 | One operator between its two hooks emits what the specification of the pass says |
| FuncInfo.TranslateBody | lucetc/src/function.rs:405-425 | Compiling any valid body goes through with no assertion failing and gives a body every theorem below applies to |
| FuncInfo.CompiledIsValidBody | lucetc/src/function.rs:151-425 | Only valid bodies compile |
| FuncInfo.CompilationIsUnique | lucetc/src/function.rs:151-425 | A body has one compilation |
| FuncInfo.AdjacentEndsEmitNothing | lucetc/src/function.rs:316-343 | The second of two adjacent `End`s emits no instrumentation |
| FuncInfo.DeadCodeIsBare | lucetc/src/function.rs:346-353 | Before every unreachable operator the top scope owes 0, and nothing is emitted for it |
| FuncInfo.CostsStaySmall | lucetc/src/function.rs:32-35 | No scope cost outgrows the number of operators before it, so it fits its `u32` |
| ControlStack.NextMirrors | lucetc/src/function.rs:355-384 | Every operator keeps the scope stack a mirror of the control stack with correct loop flags, zero below the top, zero on top in dead code |
| ControlStack.AlwaysMirrors | lucetc/src/function.rs:303-307 | That holds before every operator of every valid body, so branch depths index the right scope |
| ControlStack.NothingOwedAfter | lucetc/src/function.rs:282-344 | After an operator that flushes the next position owes nothing, except the return of a reachable call |
| ControlStack.ScopeCloses | lucetc/src/function.rs:379-382 | Every open scope is closed by the `End` that matches it, with the scopes below it intact |
| ControlStack.BranchStays | lucetc/src/function.rs:303-307 | A taken branch lands where the translator finds code reachable, right after a flush |
| ControlStack.TransferStays | lucetc/src/function.rs:285-345 | Every transfer inside an activation leads from a reachable place to a reachable place, and every jump lands right after an operator that flushed |
| CodeShape.Shape | lucetc/src/function.rs:309-315 | The code at a reachable operator, item by item: flush, save, check, the operator, the reload of a call |
| EmittedCode.ReachabilityIsExact | lucetc/src/function.rs:241-248 | The pass treats a position as reachable exactly if it is the start or control can go there from a reachable operator before it: by falling through, by a taken branch out of a scope, past a `then` arm, or on a false condition |
| EmittedCode.YieldsWhereNeeded | lucetc/src/function.rs:298-315 | The code of a reachable operator can yield exactly if the operator is a call, a return or a jump table, or a branch whose target does not lie ahead; no forward branch is checked |
| EmittedCode.OwesTheRun | lucetc/src/function.rs:280-282 | What the top scope owes before a reachable operator is the price of the straight line behind it, back to the last operator that may divide control, and one for the return of a call |
| EmittedCode.CodeIsDetermined | lucetc/src/function.rs:151-425 | The code of every operator and the epilogue, from the body alone: nothing in dead code; else at most one addition of what is unflushed, a check where one is needed, the operator, a reload behind a call |
| ExactCount.PaidAtSource | lucetc/src/function.rs:309-315 | At its own code every operator has been paid for up to what a later flush will add; a checked one also has the count in memory |
| ExactCount.OwedAfterTransfer | lucetc/src/function.rs:192-212 | After a transfer the new place owes exactly what was not flushed |
| ExactCount.Simulates | lucetc/src/function.rs:151-425 | Every event of the compiled program, a new bound included, keeps it related to the reference program and balanced |
| Counting.RunSimulates | lucetc/src/function.rs:151-425 | Every run under every schedule of bounds is related to the reference run of as many operators |
| Counting.RelIsAccurate | lucet-module/src/runtime.rs:7-19 | In related states the two counter fields, or the variable just after a flush, sum to the reference count |
| Counting.CountsExactly | lucetc/src/function.rs:192-212 | On every run the count the host reads, and the counter at every flush, is the summed price of the executed operators plus one per returned call |
| Counting.BoundsAreInvisible | lucet-runtime/lucet-runtime-internals/src/instance.rs:956-963 | Two finished runs of a deterministic guest agree on result and count whatever bounds each was given |
| Counting.HandsOverInMemory | lucetc/src/function.rs:310-314 | Whenever a callee, a caller or the host is about to take over, `adj` in memory is the running activation's counter |
| Counting.CalleeInheritsCount | lucetc/src/function.rs:405-414 | A callee starts with its caller's counter |
| Counting.CallerTakesCountBack | lucetc/src/function.rs:388-425 | A caller goes on with the counter of the activation that returned, by `return`, by its end or by a branch to its label |
| ExpectedCounts.ArithmeticCounts | lucet-runtime/tests/instruction_counting/arithmetic_count.wat:1-11 | The program counts 3 |
| ExpectedCounts.IfCounts | lucet-runtime/tests/instruction_counting/if_count.wat:1-21 | It counts 7 |
| ExpectedCounts.IfNotTakenCounts | lucet-runtime/tests/instruction_counting/if_not_taken_count.wat:1-21 | It counts 4 |
| ExpectedCounts.ThenArmCounts | lucetc/src/function.rs:262-264 | Ending a `then` arm costs nothing: a conditional with two arms counts its condition, the `if` and the first arm |
| ExpectedCounts.ElseArmCounts | lucetc/src/function.rs:262-264 | Entering an `else` arm costs nothing either |
| ExpectedCounts.CountAfterBrCounts | lucet-runtime/tests/instruction_counting/count_after_br.wat:1-21 | It counts 7, with what follows the branch inside its block left out |
| ExpectedCounts.UnreachableCallCounts | lucet-runtime/tests/instruction_counting/unreachable_call.wat:1-17 | It counts 1: the call that is never made adds nothing |
| ExpectedCounts.BrTableCounts | lucet-runtime/tests/instruction_counting/br_table_count.wat:1-25 | It counts 6 |
| ExpectedCounts.LoopsCount | lucet-runtime/tests/instruction_counting/loops.wat:1-30 | It counts 91 over its ten rounds |
| ExpectedCounts.CallsCount | lucet-runtime/tests/instruction_counting/calls.wat:1-22 | It counts 18, one for each return included |
| ExpectedCounts.IndirectCallsCount | lucet-runtime/tests/instruction_counting/indirect_calls.wat:1-68 | It counts 104, with calls nested up to four deep |
| ExpectedCounts.CompiledCounts | lucet-runtime/tests/instruction_counting.rs:153-232 | A program that counts so much counts as much when compiled and run to its end under any schedule of bounds |
| Slices.LevelIsExact | lucet-module/src/runtime.rs:7-19 | Within a slice the counter is exactly the distance from the bound, not merely congruent to it |
| Slices.BackwardsIsChecked | lucetc/src/function.rs:298-308 | Control moves backwards only through a checked operator that costs something |
| Slices.SliceAdvances | lucetc/src/function.rs:285-315 | Every step of a slice ends it, moves forward, or passes a check within the bound and starts one body |
| SliceTheorems.CoastInSlice | lucetc/src/function.rs:285-315 | As long as a slice lasts its invariant holds and each step uses up potential |
| SliceTheorems.SliceEnds | lucetc/src/function.rs:285-315 | A slice is over after as many steps as its potential: remaining budget times code length plus code left |
| SliceTheorems.ReboundStartsSlice | lucet-runtime/lucet-runtime-internals/src/instance.rs:956-963 | Setting a bound on a suspended guest starts a slice that expires at that bound |
| SliceTheorems.EntryStartsSlice | lucetc/src/function.rs:405-414 | So does entering a function |
| SliceTheorems.SliceBegins | lucet-runtime/lucet-runtime-internals/src/instance.rs:956-963 | Entering the guest, and setting a bound on a guest suspended by an expiry or inside an import, each start a slice on every run; the bound lies no further ahead than the delta and one price |
| SliceTheorems.EverySliceEnds | lucetc/src/function.rs:285-315 | On every run, whatever happened before and in whichever of the three ways the slice starts, control is back with the host within a number of steps known when it starts |
| SliceTheorems.LastCheckpoint | lucetc/src/function.rs:285-315 | There is a last point within the bound, from which the count can only rise by what the open activations can still be charged |
| SliceTheorems.OvershootIsBounded | lucetc/src/function.rs:214-239 | Within a slice: when the bound expires it has been passed by no more than the summed static cost of the activations open when the guest was last within it |
| SliceTheorems.EveryOvershootIsBounded | lucetc/src/function.rs:214-239 | The same for every expiry on every run, however the slice started, with the bound as an absolute count |
| CheckPoints.CheckDecides | lucetc/src/function.rs:214-239 | At a check anywhere in a slice the bound expires exactly if the count with the checked operator has reached it, with the excess left in `adj`; else the guest goes straight on to the operator |
| CheckPoints.LateCheckExpires | lucetc/src/function.rs:214-239 | In a slice every check past the bound expires |
| CheckPoints.ZeroDeltaExpires | lucet-runtime/lucet-runtime-internals/src/instance.rs:949-963 | However a slice starts with a delta of 0, on any run, the first check it comes to expires |
| Honesty.CompiledSlicesAreHonest | lucetc/src/function.rs:214-239 | A slice of compiled code that expires, on any run, has taken the counter to or past zero; the two counter fields it leaves are those of the instance model, and without a bound it counted at least 2^63 - 1 |
| Honesty.UnboundedCodeDoesNotExpire | lucet-runtime/lucet-runtime-internals/src/instance.rs:956-963 | Compiled code without a bound does not expire before it has counted 2^63 - 1 |
| Service.ServiceAdvances | lucet-runtime/lucet-runtime-internals/src/future.rs:197-235 | A guest resumed at every expiry keeps taking operators into effect: the number of events bounds the number of operators from below |
| Service.ServiceFinishes | lucet-runtime/lucet-runtime-internals/src/future.rs:184-237 | If the source program finishes, so does the served guest under any bounds, 0 included, with the same result and count |
| Service.ServiceTraps | lucet-runtime/lucet-runtime-internals/src/future.rs:184-237 | If the source program traps, so does the served guest under any bounds |
| AsyncService.TurnFollowsCode | lucet-runtime/lucet-runtime-internals/src/future.rs:186-204 | One turn with a slice of compiled code leaves the instance with the counter of the stopped machine, told how it stopped |
| AsyncService.LoopFollowsCode | lucet-runtime/lucet-runtime-internals/src/future.rs:183-237 | So does the whole loop: it completes, or fails with a fault, as the compiled guest does, with its counter |
| AsyncService.TurnsAreUnique | lucet-runtime/lucet-runtime-internals/src/future.rs:183-237 | A guest and a bound have one list of turns and one end |
| AsyncService.AsyncRunServes | lucet-runtime/lucet-runtime-internals/src/future.rs:170-238 | An async run with a bound whose slices are those of compiled code: its turns exist and are unique; it completes with the result and the count of the source program if that finishes, and fails with a runtime fault if that traps |
| Instances.Instance.constructor | lucet-runtime/lucet-runtime-internals/src/instance.rs:74-108 | A new instance has been reset and satisfies the invariant |
| Instances.Instance.SetInstructionBoundDelta | lucet-runtime/lucet-runtime-internals/src/instance.rs:956-963 | Both fields are set as specified, with wrap-around |
| Instances.Instance.SetInstructionCountAndBound | lucet-runtime/lucet-runtime-internals/src/instance.rs:939-947 | The count becomes the one given and the bound the one given; the invariant is kept |
| Instances.Instance.GetInstructionCount | lucet-runtime/lucet-runtime-internals/src/instance.rs:925-935 | The count the host reads is the count last set plus everything the guest has counted since |
| Instances.Instance.TryTakeResumedVal | lucet-runtime/lucet-runtime-internals/src/vmctx.rs:107-120 | The value is taken if it has the type asked for; otherwise it stays where it was |
| Instances.Instance.Terminate | lucet-runtime/lucet-runtime-internals/src/vmctx.rs:522-526 | The guest is gone and the instance terminating |
| Instances.Instance.YieldImpl | lucet-runtime/lucet-runtime-internals/src/vmctx.rs:425-447 | The state records either the expired bound or the value and the type expected back; nothing else changes |
| Instances.Instance.WakeGuest | lucet-runtime/lucet-runtime-internals/src/vmctx.rs:454-457 | What a guest does first: enter, go on, or take the value it waits for, terminating on a mismatch; what it takes is recorded |
| Instances.Instance.BlockOn | lucet-runtime/lucet-runtime-internals/src/future.rs:52-85 | Yields the future and waits for a `ResumeVal`; terminates outside an async run |
| Instances.Instance.EndSlice | lucet-runtime/lucet-runtime-internals/src/vmctx.rs:425-447 | Each way a slice can end leaves the state the host then reads |
| Instances.Instance.RunGuest | lucet-runtime/lucet-runtime-internals/src/instance.rs:1208-1218 | One swap into the guest and back |
| Instances.Instance.ExtractResult | lucet-runtime/lucet-runtime-internals/src/instance.rs:1254-1336 | The result and the state the host goes on with; the "impossible" arm is unreachable |
| Instances.Instance.Swap | lucet-runtime/lucet-runtime-internals/src/instance.rs:1194-1337 | Entering, setup failure and result as specified, and what the host is told; the entry assertion is the precondition every caller establishes |
| Instances.Instance.RunFunc | lucet-runtime/lucet-runtime-internals/src/instance.rs:1089-1153 | Every refusal in its order, then the swap, for any handle and any state; with a start handle only where it is due the invariant is kept |
| Instances.Instance.ResumeWithVal | lucet-runtime/lucet-runtime-internals/src/instance.rs:568-590 | Refuses any other state or outer type, else resumes with the value, whatever is inside; with a fitting value the invariant is kept |
| Instances.Instance.ResumeBounded | lucet-runtime/lucet-runtime-internals/src/instance.rs:603-614 | Refuses any other state, else resumes with the new bound; the invariant is kept |
| Instances.Instance.RunStart | lucet-runtime/lucet-runtime-internals/src/instance.rs:646-654 | Runs the start function if there is one and it has not run; a yield is not reported |
| Instances.Instance.Reset | lucet-runtime/lucet-runtime-internals/src/instance.rs:672-704 | State and kill state anew; counter, entry point and resumed value stay |
| Instances.Instance.Turn | lucet-runtime/lucet-runtime-internals/src/future.rs:186-204 | One turn of the async loop: which call it makes, and what it leaves for the next turn |
| Instances.Instance.RunLoop | lucet-runtime/lucet-runtime-internals/src/future.rs:182-237 | The loop does what its recursive specification says, for any handle; at every head a yielded guest has a value at hand |
| Instances.Instance.RunAsyncInternal | lucet-runtime/lucet-runtime-internals/src/future.rs:170-238 | Refuses a yielded instance, else runs the loop; where the start discipline is kept so is the invariant |
| InstanceHistory.GuestLeaves | lucet-runtime/lucet-runtime-internals/src/instance.rs:1245-1252 | A guest entered properly leaves one of the five states the host expects |
| InstanceHistory.TakeResultKeeps | lucet-runtime/lucet-runtime-internals/src/instance.rs:1254-1336 | Taking the result re-establishes the invariant, and expiry and yield are reported with the matching state |
| InstanceHistory.SwapKeeps | lucet-runtime/lucet-runtime-internals/src/instance.rs:1194-1337 | One whole slice keeps the invariant |
| InstanceHistory.RunFuncKeeps | lucet-runtime/lucet-runtime-internals/src/instance.rs:1089-1153 | So does a run |
| InstanceHistory.ResumeWithValKeeps | lucet-runtime/lucet-runtime-internals/src/instance.rs:568-590 | So does resuming with a user's value or the awaited output |
| InstanceHistory.ResumeBoundedKeeps | lucet-runtime/lucet-runtime-internals/src/instance.rs:603-614 | So does resuming with a bound |
| InstanceHistory.ResetKeeps | lucet-runtime/lucet-runtime-internals/src/instance.rs:672-704 | So does a reset, from any state |
| InstanceHistory.SetCountKeeps | lucet-runtime/lucet-runtime-internals/src/instance.rs:939-947 | So does setting the count |
| InstanceRuns.AsyncLoopKeeps | lucet-runtime/lucet-runtime-internals/src/future.rs:183-237 | The loop keeps the invariant and never misses the value of a yielded guest: it panics only on an expired guest without a bound |
| InstanceRuns.AsyncLoopEntersOnce | lucet-runtime/lucet-runtime-internals/src/future.rs:183-237 | The loop enters `func` at most once, exactly once if it completes; a guest suspended beforehand is resumed and nothing is entered |
| InstanceRuns.RunAsyncEnters | lucet-runtime/lucet-runtime-internals/src/future.rs:170-238 | A completed async run entered the function it was given exactly if the instance was not bound-expired |
| InstanceRuns.StaleRun | lucet-runtime/lucet-runtime-internals/src/future.rs:197-200 | On a new instance a run that expires and is dropped, then a run of another function: it completes and the function entered last is still the first |
| InstanceRuns.UnboundedDoesNotExpire | lucet-runtime/lucet-runtime-internals/src/instance.rs:956-963 | A slice that is honest about its count, as Honesty.CompiledSlicesAreHonest shows those of compiled code to be, cannot expire without a bound before 2^63 - 1 counts |
| InstanceRuns.UnexpiredLoopNeverPanics | lucet-runtime/lucet-runtime-internals/src/future.rs:186-204 | A loop whose slices do not expire never panics |
| InstanceRuns.RunAsyncPanics | lucet-runtime/lucet-runtime-internals/src/future.rs:186-204 | An async run panics exactly if it finds an expired guest and has no bound; only without a bound does this rest on slices counting fewer than 2^63 - 1 |
| InstanceRuns.PerformKeeps | lucet-runtime/lucet-runtime-internals/src/instance.rs:516-704 | Every public call keeps the invariant |
| InstanceRuns.AlwaysInv | lucet-runtime/lucet-runtime-internals/src/instance.rs:516-704 | It holds after every sequence of calls |
| InstanceRuns.AlwaysRests | lucet-runtime/lucet-runtime-internals/src/instance.rs:1194-1337 | Between calls the instance is in one of six resting states exactly if no fault address was lost since the last reset; otherwise it is transitioning |
| InstanceCalls.FaultLosesInstance | lucet-runtime/lucet-runtime-internals/src/instance.rs:1294-1296 | A fault whose address cannot be looked up leaves a new instance transitioning |
| InstanceRuns.NeverMismatched | lucet-runtime/lucet-runtime-internals/src/vmctx.rs:435-457 | Over all runs no resumed guest finds a wrong type, a broken promise or no context, no entry assertion fails, and every value delivered was produced by the future last blocked on, once |
| InstanceRuns.CountIsTally | lucet-runtime/lucet-runtime-internals/src/instance.rs:925-947 | The count is the one last set plus what all slices since then counted, whatever bounds, modulo 2^64 |
| InstanceFutures.SwapDelivers | lucet-runtime/lucet-runtime-internals/src/vmctx.rs:107-120 | A guest that is swapped in takes the value it was resumed with exactly if it waits for one |
| InstanceFutures.AsyncLoopDelivers | lucet-runtime/lucet-runtime-internals/src/future.rs:183-237 | The loop delivers exactly what its turns promise: the output of each future blocked on, in order, as long as the guest is resumed after it |
| InstanceFutures.RunAsyncDelivers | lucet-runtime/lucet-runtime-internals/src/future.rs:170-238 | So does a whole async run; one that is refused delivers nothing |
| InstanceFutures.ResumeDelivers | lucet-runtime/lucet-runtime-internals/src/instance.rs:568-590 | A guest woken by a user takes the value given and no other, exactly if its type is the one expected and the guest is swapped in |
| InstanceFutures.PerformDelivers | lucet-runtime/lucet-runtime-internals/src/instance.rs:568-590 | Of all public calls only resumes and async runs deliver: the value given, if its type is expected and the guest is swapped in, and exactly the outputs the turns of the run promise |
| InstanceFutures.AlwaysDelivers | lucet-runtime/lucet-runtime-internals/src/vmctx.rs:107-120 | Over every sequence of calls guests have taken exactly the values they were resumed with and the outputs promised to them, with the futures they came from, in order |
| InstanceCalls.RunTells | lucet-runtime/lucet-runtime-internals/src/instance.rs:1096-1153 | An accepted run: what the host is told, the state, the distance from the bound, the count and the entry point it leaves, from what the guest does in its slice |
| InstanceCalls.ResumeTells | lucet-runtime/lucet-runtime-internals/src/instance.rs:568-590 | An accepted resume: the same; the guest takes the value given, or the value stays for it if setup fails |
| InstanceCalls.BoundedTells | lucet-runtime/lucet-runtime-internals/src/instance.rs:603-614 | A bounded resume: the same if the bound has expired, else it is refused and changes nothing |
| InstanceCalls.RefusalsAreExact | lucet-runtime/lucet-runtime-internals/src/instance.rs:1096-1149 | Which error a run is refused with, and that it is swapped in otherwise |
| InstanceCalls.StartTells | lucet-runtime/lucet-runtime-internals/src/instance.rs:646-654 | What running the start function returns: every failure is passed on, a yield is not reported |
| InstanceCalls.ResetRevives | lucet-runtime/lucet-runtime-internals/src/instance.rs:672-704 | A failed reset is reported and changes nothing; a successful one makes any instance usable again, the start function first if there is one, and keeps everything but state and kill state |
| InstanceCalls.CountIsSet | lucet-runtime/lucet-runtime-internals/src/instance.rs:939-947 | The count is the one given and `adj` its signed distance from the bound given |
| InstanceCalls.RunAsyncEnds | lucet-runtime/lucet-runtime-internals/src/future.rs:170-238 | What an async run comes to, from its turns alone, or the error it is refused with |
| InstanceCalls.RunAsyncStartEnds | lucet-runtime/lucet-runtime-internals/src/future.rs:153-168 | The same for the async start, refused unless the start function is due |
| InstanceCalls.PerformTells | lucet-runtime/lucet-runtime-internals/src/instance.rs:516-704 | Every public call reports each slice it swaps in as it ended, and leaves the state and the distance from its bound of the last one; without a slice nothing is reported and only a reset changes the state |
| InstanceCalls.AlwaysTold | lucet-runtime/lucet-runtime-internals/src/instance.rs:1270-1336 | Over every sequence of calls the host was told of every slice how it ended, in order |
| InstanceCalls.FaultDecides | lucet-runtime/lucet-runtime-internals/src/instance.rs:1294-1325 | After a reported fatal fault only a reset has an effect; after any other the next run is accepted and told of as it ends |
| InstanceCalls.MismatchTerminates | lucet-runtime/lucet-runtime-internals/src/vmctx.rs:454-457 | A guest without the value it waits for is terminated and the host is told |
| InstanceCalls.OptionalGoesOn | lucet-runtime/lucet-runtime-internals/src/vmctx.rs:122-127 | A guest that only tries to take a value goes on, and leaves what it cannot take |
| InstanceCalls.OverboundRuns | lucet-runtime/lucet-runtime-internals/src/instance.rs:956-963 | A bound that does not fit an `i64` panics, with the entry point set exactly if any other bound would have let the run past its arguments |
| InstanceRuns.StartsOnce | lucet-runtime/lucet-runtime-internals/src/instance.rs:646-704 | No function runs between a reset and the start function; that one is entered exactly as often as it was given up because setup failed while it is due, and once more after it ran, so then at most once exactly if it was never given up; without a start function it is never entered |
| InstanceRuns.StartTwice | lucet-runtime/lucet-runtime-internals/src/instance.rs:1225-1242 | A start function that yields and cannot be resumed is entered twice |
| InstanceEnds.SwapReplacesKill | lucet-runtime/lucet-runtime-internals/src/instance.rs:1257-1268 | A slice keeps the kill state exactly if the host is told that the guest yielded, that its bound expired or that setup failed |
| InstanceEnds.SliceReplacesKill | lucet-runtime/lucet-runtime-internals/src/instance.rs:1257-1268 | The same by how the slice ended: yielded, blocked in an async run, expired, or never swapped in |
| InstanceRuns.KillSwitchIsFresh | lucet-runtime/lucet-runtime-internals/src/instance.rs:1257-1268 | A kill switch refers to the current kill state exactly if since it was issued there was no reset and every slice, those inside async runs included, told the host that the guest yielded, that its bound expired or that setup failed |
| InstanceEnds.SwapLeaves | lucet-runtime/lucet-runtime-internals/src/instance.rs:1194-1337 | Everything one slice of a guest entered properly leaves of the instance, from how it ended: state with the severity of a fault, kill state, value at hand, counter, and where the guest goes on |
| InstanceEnds.SwapTells | lucet-runtime/lucet-runtime-internals/src/instance.rs:1270-1336 | The host is told exactly how the slice ended, and what it is told says which state the instance is in |
| InstanceEnds.RunRefusals | lucet-runtime/lucet-runtime-internals/src/instance.rs:1096-1149 | Exactly when a run is refused, with which error; one refused for state or arguments changes nothing at all, one whose context cannot be set up has set entry point and bound and nothing else |
| InstanceEnds.ResumeRefusals | lucet-runtime/lucet-runtime-internals/src/instance.rs:574-584 | Exactly when a resume is refused, and that a refused resume changes nothing at all |
| InstanceEnds.BeyondUse | lucet-runtime/lucet-runtime-internals/src/instance.rs:1101-1108 | No call but a successful reset or setting the counter changes an instance that is terminated, fatally faulted, transitioning or waiting for a dropped future |
| InstanceEnds.OnlyResetRevives | lucet-runtime/lucet-runtime-internals/src/instance.rs:516-704 | These are exactly the instances no call other than those two has an effect on |
| InstanceEnds.StaysUntilReset | lucet-runtime/lucet-runtime-internals/src/instance.rs:672-704 | But for the counter they stay as they are over every sequence of calls without a successful reset |
| InstanceEnds.DroppedRunNeedsReset | lucet-runtime/lucet-runtime-internals/src/future.rs:176-180 | An async run dropped while it waits for a future leaves such an instance |
| SparseData.WrittenIsFlat | lucetc/src/sparsedata.rs:62-81 | Reading an address of flat memory gives the byte of the last initializer that covers it |
| SparseData.WrittenIsLast | lucetc/src/sparsedata.rs:62-81 | The initializer after which no other covers the address decides its byte; uncovered addresses are zero |
| SparseData.LinearMemoryRange | lucetc/src/sparsedata.rs:12-26 | The bytes of an address range within an initializer |
| SparseData.ChunksConcat | lucetc/src/sparsedata.rs:28-54 | Contiguous chunks put the data back together |
| SparseData.Split | lucetc/src/sparsedata.rs:28-54 | The chunks are non-empty, page-local, contiguous and concatenate to the initializer |
| SparseData.PlaceInitializer | lucetc/src/sparsedata.rs:68-80 | Copying succeeds exactly if the last page is within the limit, and then the pages hold one more initializer |
| SparseData.CollectPages | lucetc/src/sparsedata.rs:86-95 | The pages of the memory in order, absent ones as `None`, those beyond dropped |
| SparseData.OwnedSparseDataFromInitializers | lucetc/src/sparsedata.rs:56-98 | Fails exactly on the first refused initializer, with its error; else gives an image of the size of the memory whose every address reads as in flat memory |
| SparseData.RefusalIs | lucetc/src/sparsedata.rs:62-72 | Construction is refused exactly if some initializer is not acceptable, with the error of the first one |
| SparseData.LimitAgreesExactly | lucetc/src/sparsedata.rs:70-72 | Exactly when the page limit and the rule of section 4.5.4 agree |
| SparseData.TailIsDropped | lucetc/src/sparsedata.rs:86-95 | The image built from initializers reads as they were written up to the end of the memory and as zero beyond, whatever they write there |
| SparseData.OnePastTheEnd | lucetc/src/sparsedata.rs:70-72 | A byte right past a memory of one WebAssembly page is accepted, though section 4.5.4 refuses it, and reads as zero |
| ModuleInfo.TypesMerge | lucetc/src/module.rs:174-197 | Every type index maps to an entry equal to its type, and no two entries are equal |
| ModuleInfo.SameSignature | lucetc/src/module.rs:184-195 | Two type indices share a unique index exactly if their types are structurally equal |
| ModuleInfo.ImportsMerge | lucetc/src/module.rs:226-251 | Every import maps to the one entry of its name, of the type it was first imported with |
| ModuleInfo.ImportsShareIndex | lucetc/src/module.rs:239-251 | Two imports share a unique index exactly if module and field are equal |
| ModuleInfo.BodiesLand | lucetc/src/module.rs:410-420 | The k-th body has the unique index of the k-th local function, and bodies exist for exactly the local functions |
| ModuleInfo.TypesRecorded | lucetc/src/decls.rs:420-433 | The signature recorded for a function is the type it was declared with, for a repeated import that of the first |
| ModuleInfo.ExportsResolve | lucet-module/src/module_data.rs:149-154 | Looking up an exported name gives the unique index of the exported function; any other name gives nothing |
| ModuleValidation.Declarations.constructor | lucetc/src/module.rs:124-143 | A module starts empty |
| ModuleValidation.Declarations.DeclareTypeFunc | lucetc/src/module.rs:174-197 | One more type, merged with an equal one |
| ModuleValidation.Declarations.DeclareFuncImport | lucetc/src/module.rs:226-251 | One more import, merged with one of the same name |
| ModuleValidation.Declarations.DeclareFuncType | lucetc/src/module.rs:198-203 | One more local function, with the next unique index |
| ModuleValidation.Declarations.DeclareFuncExport | lucetc/src/module.rs:342-352 | One more name for the merged function |
| ModuleValidation.Declarations.DefineFunctionBody | lucetc/src/module.rs:410-420 | One more body, for the next function that has none |
| Decls.ModuleDecls.ImportNameFor | lucetc/src/decls.rs:147-163 | An import is listed under the length of `function_names`, if the bindings know it |
| Decls.ModuleDecls.ExportNameFor | lucetc/src/decls.rs:131-145 | A function that has names is listed under the length of `function_names` |
| Decls.ModuleDecls.DeclareFunction | lucetc/src/decls.rs:232-264 | A new function gets the next symbol, one declared before keeps its own |
| Decls.ModuleDecls.DeclareFunc | lucetc/src/decls.rs:165-206 | The length of `function_names` is the unique index of the function being declared, so both lists name it correctly |
| Decls.ModuleDecls.DeclareFuncs | lucetc/src/decls.rs:112-209 | Fails exactly if the bindings lack an import; else every function has its symbol at its unique index and both tables list their functions under it |
| Decls.TablesMatch | lucetc/src/decls.rs:515-563 | In the module data of a valid module a name finds the function exported under it, and every import is listed with its module and field |
| Decls.SymbolsMatchBodies | lucetc/src/decls.rs:165-206 | A function is declared as an import exactly if it has no body, so whatever is declared for export gets defined; an export symbol is a name that finds the function, a local one belongs to a function no name finds |
| Decls.SymbolIsFirstName | lucetc/src/decls.rs:131-145 | Of several exported names the symbol takes the first |
| ModuleValidation.GetExportFuncId | lucet-module/src/module_data.rs:149-154 | The first entry that has the name |
| ModuleValidation.DeclareModule | lucetc/src/module.rs:218-420 | Declaring a valid module section by section gives the index spaces the theorems are about |
| Tables.RefusalIs | lucetc/src/table.rs:37-54 | No segment is refused exactly if each has no base and ends at or before the end of the table; else the first that does not gives its own error |
| Tables.SlotIsLast | lucetc/src/table.rs:56-58 | The segment after which no other covers the slot decides what it holds; a slot no segment covers is empty |
| Tables.TableElements | lucetc/src/table.rs:25-62 | Fails exactly on the first refused segment, with its error; else every slot holds what the last segment covering it put there |
| Tables.BytesRoundTrip | lucetc/src/table.rs:82-84 | Reading back little-endian bytes gives the number written |
| Tables.AppendImages | lucetc/src/table.rs:92-119 | Appending one entry keeps every earlier entry readable and adds its signature, a zero word and its relocation |
| Tables.WriteTableData | lucetc/src/table.rs:88-121 | The section holds every slot's signature and relocation; it fails exactly if a function lies beyond 32-bit offsets |
| Tables.EntryBytes | lucetc/src/table.rs:92-119 | The sixteen bytes of every entry: the signature, least significant byte first and all ones for an empty slot, then zeroes |
| IndirectCalls.DefineTable | lucetc/src/table.rs:64-129 | From segments to a finished table: when it fails, with which error, and that the result is the table of the module |
| IndirectCalls.SlotSignature | lucetc/src/decls.rs:486-498 | A function's signature word equals the expected index exactly if the types are structurally equal |
| IndirectCalls.CheckIsExact | lucetc/src/function.rs:544-598 | The emitted check calls a function exactly if the index is in the table, the last segment covering it put that function there and its recorded type equals the expected one; it reports out of bounds exactly past the table or from 2^31 on, and a bad signature exactly for an empty slot or another type below that |
| IndirectCalls.FarSlotIsOutOfBounds | lucetc/src/function.rs:553-554 | In a table of 2^31 + 1 slots the index 2^31 is inside and reported out of bounds |
| IndirectCalls.AgreeingTypes | lucetc/src/module.rs:239-251 | Recorded types are the declared ones exactly if repeated imports agree in type |
| IndirectCalls.RuleIsMetIfImportsAgree | lucetc/src/function.rs:544-598 | The check meets the rule of section 4.4.5 for every table, index and type exactly if repeated imports agree in type |
| StackProbe.BytesAreListing | lucetc/src/stack_probe.rs:26-40 | The 43 bytes decode, one after the other and without a gap, to the listed instructions |
| StackProbe.TrapSitesAreTouches | lucetc/src/stack_probe.rs:42-55 | The declared trap sites are exactly the instructions that touch the stack |
| StackProbe.TouchesAt | lucetc/src/stack_probe.rs:27-36 | The touched addresses go down page by page to the lowest slot of the frame |
| StackProbe.LoopProbes | lucetc/src/stack_probe.rs:27-36 | The loop terminates, having touched those addresses or faulted below the floor |
| StackProbe.ProbeIsCorrect | lucetc/src/stack_probe.rs:26-40 | For every frame of a page or more the probe returns with `rsp` restored if the frame fits, and otherwise faults within a page below the stack at a declared site |
| StackProbe.NoPageSkipped | lucetc/src/stack_probe.rs:26-40 | Every page holding part of the frame is touched or holds the return address |
| StackProbe.OverflowIsReported | lucetc/src/stack_probe.rs:5-9 | The fault of a frame that does not fit lies where the manifest records a stack overflow |
| StackProbe.ProbeNeedsAPage | lucetc/src/stack_probe.rs:27-36 | The probe accepts every frame that fits exactly for sizes of at least 4096 |
| Traps.FunctionSpec.RelativeAddr | lucet-module/src/functions.rs:177-188 | The offset of an address in a function, exactly if the function contains it |
| Traps.LookupAddr | lucet-module/src/traps.rs:44-53 | The binary search returns only recorded codes, and in a strictly sorted list exactly the recorded one; on any list it computes the search it is specified by |
| Traps.LookupTrapcode | lucet-runtime/lucet-runtime-internals/src/module.rs:93-104 | The scan returns only codes recorded at the address; with disjoint functions and sorted traps it returns the code recorded there, and nothing exactly if there is none |
| Traps.FirstFunctionDecides | lucet-runtime/lucet-runtime-internals/src/module.rs:93-104 | In any manifest the first function containing the address decides, even if it has no traps and a later one does |
| Traps.SiteIsUnique | lucet-runtime/lucet-runtime-internals/src/module.rs:97-100 | At most one trap site lies at an address |
| Traps.EmptyEntriesNeverMatch | lucet-module/src/functions.rs:174-188 | Entries of length 0, anywhere, with any traps, change no lookup in any manifest, sorted or not |
| Traps.FunctionHandleFromPtr | lucet-runtime/lucet-runtime-internals/src/module.rs:74-88 | The first function that starts at the address; fails exactly if there is none |

## Left out

- Cranelift itself: the translator's control stack and reachability rules are modelled, its code generation is taken as given.
- The remaining programs under `lucet-runtime/tests/instruction_counting`: empty loops, a loop closed by a jump table, and loops of ten thousand rounds.
- Compilation with counting switched off, in which the pass emits nothing.
- Counts not yet flushed when a guest traps in the middle of a straight-line run: they are lost, and the theorems about counts do not speak of trapped runs.
- SliceTheorems.EverySliceEnds: assumes that the static costs of a full stack sum to less than 2^63, since the counter wraps there.
- Slices.SliceAdvances: makes the same assumption on the summed static costs.
- SliceTheorems.OvershootIsBounded: makes the same assumption, and speaks of a slice that started within its bound; SliceTheorems.EveryOvershootIsBounded lifts it to every run.
- Honesty.CompiledSlicesAreHonest: makes the same assumption.
- CheckPoints.ZeroDeltaExpires: makes the same assumption.
- AsyncService.AsyncRunServes: speaks of runs with a bound and of guests whose imported functions return without yielding or blocking.
- Counting.HandsOverInMemory: is stated for machine states related to a reference run, which by Counting.RunSimulates are all reachable ones.
- `memory.grow` and `memory.size` call the runtime without saving the counter first; their hostcalls are priced as plain operators.
- Floating point, memories, globals and operand stacks of the guest: an operator's effect on data is an arbitrary function.
- Bindings beyond a map from imports to symbols, the custom names of local functions, `VersionInfo`, serialization, signing and object files.
- Table imports, the implicit declaration of table 0, and segments for other tables.
- Cranelift signatures: types are compared as parameter and result lists.
- Kill states are identity tokens; termination by a kill switch is one of the ways a slice may end.
- The fatal handler never returns; a fatal fault is modelled as resting in `Faulted` with the fault reported.
- A non-async run that counts to 2^63 - 1 panics while unwrapping its result; the model stops at the expired state it leaves.
- Overflow checks of debug builds on the counter sum; arithmetic wraps as in release builds.
- Concurrent hosts: an instance is used by one thread at a time.
- Heap and global contents on a reset; a failing reset changes nothing else.
- Futures themselves: one turn of the loop carries the output its future comes to, if it is polled that long.
- Processor state other than the three registers, two flags and program counter the probe uses.
