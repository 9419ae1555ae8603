# cakebear, modelled

cakebear compiles TypeScript to Go. It is right when a Go form means what the
JavaScript form it replaces means, and the places where that is not plain to see
are small and dense. This project models them and proves what each is for.

**try, catch and finally** (`Try*.dfy`). A block becomes a function literal that
returns a code or a throw; catch and finally are emitted in place, and codes
travel outward through literals and loops. `TryLanguage` gives the statements
their completion records, with a Go panic as a third outcome that no catch sees;
`TryTarget` gives the emitted Go its meaning; `TryEmit` is the translation, and
`TryEmitter` the imperative emitter that writes it, line by line. `TryText`
reads lines back, knowing nothing of how they were written, so what is proved of
the translation is said of the lines. What expressions do is left to a tape of
answers, so a theorem about every tape is one about every program of that shape.
All tries of a function that a return can leave share one slot for its value,
and that is not always right: with a second semantics that carries the slot
(`TrySlot`), the emitted Go is shown to be the source program *with the slot*
for every program (`TryCorrect`), and JavaScript's exactly when a condition on
the text holds (`TryExact`, `TryTheorem`). The comment at
`backend/emit_try.go:80-84` says the inner return replaces the pending one;
`ReturnOvertaken` is the program in which it should not.

**A domain's goroutines** (`JobQueue`, `Goroutines`, `Scheduler*.dfy`,
`DomainObjects`). Each async call is a goroutine and one token per domain is
handed about by channels. `Goroutines` is the transition system, one step a
goroutine's; `JobQueue` is the one-threaded machine of ECMA-262. They are shown
to refine each other, with one token holder, no deadlock, each resume due once,
and an abort that runs none of the program's code. `EventOrder` says from the
outside, of the events alone and with no queue, which may come next; the
goroutines make exactly the logs it allows (`SchedulerLog`, `SchedulerOrder`),
so that awaits go on first come, first served. `DomainObjects` is the same state
as mutable objects, and `DrainRuns` what its drain comes to. `Timers` is what
fires when, `TimerHeap` the heap that says so, and `Spawning` the protocol
between a caller's driver and the goroutines it spawns.

**Strings** (`Wtf8*.dfy`, `String*.dfy`, `AsciiSearch`, `Matches`, `Templates`,
`Halves`, `EscapeText`, `JsonString`, `Uri`). A string is bytes whose meaning is
its UTF-16 code units. `Units` and `Canonical` are defined once in `Wtf8`, and
every byte algorithm is proved against them. What they are to give is told of
the code units, and spelt out as text where it is text: `Matches` has the
matches split and replaceAll take and what a replacement puts for each,
`EscapeText` what encodeURIComponent and JSON.stringify write.
`StringAccumulator` models strings as views of shared blocks, so that a write to
a handed-out string would show.

**Evaluation order** (`Order*.dfy`, `EvaluationOrder`). Go's semantics has calls
run left to right, until one panics, and bare reads at any time. One read stays
bare that a call can change: `"f" in o` becomes `o.ts_layout.Has(i)`, and the
comment at `backend/emit_optional.go:83-84` that ts_layout is read before Has,
lexically, does not put it after a call to the left. What is emitted is right
exactly where no such look is changed (`RightWhereLooksHold`), and `LookCanMiss`
is a program in which one is.

**The rest**: the copy of an object graph (`GraphClone`), on the heap; the race
rule's fixpoint (`RaceRule`); module order (`ModuleOrder`); exact rounding
(`PowerOfTwoDigits`, `ToFixed`); and Go names (`NameText`, `Names`), on the
bytes a name is. The comments at `backend/mangle.go:93-96` and
`backend/emit_object.go:56-62` say that an escaped name reads back to one
original; for a property holding a lone surrogate it does not
(`LoneSurrogatesCollide`). And the list of predeclared names at
`backend/mangle.go:31-46` lacks one: a program's `comparable` shadows Go's
(`NeverAWord`, in `GoWords`).

Where the source changes state in place, so does the model: classes `Emitter`
(twice), `Domain`, `TimerQueue`, `StrBuilder`, `StrAcc`, `UnitReader`, `Cloner`,
`RaceChecker` and `Walk`, and methods with the source's loops. Each is proved to
do what a function says, and the theorems are about that function. `dafny verify
dfyconfig.toml` checks the whole project.

## Model

| member | source | states |
|---|---|---|
| `TryTheorem.CompiledExactly` | backend/emit_try.go:73-128 | The emitted Go makes the same call as JavaScript (same effects in the same order, same result, throw or panic) on every run, if and only if the body is `Faithful`, a condition read from its text: no path overtakes a pending return, and a function whose Go must end in a panic never falls off its end |
| `TryTheorem.CompiledWithoutNestedReturns` | backend/emit_try.go:80-88 | A function with no return inside a try nested in a finally compiles to the same call, on every run that does not fall off an end Go must see terminate |
| `TryTheorem.ReturnOvertaken` | backend/emit_try.go:80-88 | `try { return 1 } finally { while (true) { try { return 2 } finally { break } } }` returns 1 in JavaScript and 2 as compiled: the condition of `CompiledExactly` is needed |
| `TryTheorem.FaithfulRuns` | backend/emit_try.go:73-128 | Soundness half, run by run: a `Faithful` body gives JavaScript's call for that run |
| `TryTheorem.UnfaithfulRuns` | backend/emit_try.go:80-88 | Completeness half: a body that is not `Faithful` has a run, which the lemma builds, on which the compiled call differs |
| `TryTheorem.NothingStale` | backend/emit_try.go:80-88 | With no return inside a try nested in a finally, no way out of a block is a return whose slot holds another's value |
| `TryTheorem.StoresLeave` | backend/emit_try.go:155-170 | Where no try holds a return, a way out that has stored a value is a return: nothing that goes on has |
| `TryTheorem.OvertakenRuns` | backend/emit_try.go:80-88 | The overtaken program's run, statement by statement: what the slot holds when each finally ends |
| `TryTheorem.VoidReturnsNothing` | ir/returns.go:52-64 | A block held to bare returns returns only undefined |
| `TryCorrect.EmittedIsCompiled` | backend/emit_try.go:73-247 | Whatever the emitter writes for a function does exactly what the block does with a shared slot, for every well-formed body and every run |
| `TryCorrect.SimBlock` | backend/emit_try.go:73-247 | The simulation at any depth of literals, loops and finallys: the emitted block leaves by the code, break, return or throw that stands for the block's completion, with the same effects, the slot holding the pending value, and no outer try's variable touched |
| `TryCorrect.SimStmt` | backend/emit.go:144-150 | The same for one statement |
| `TryCorrect.SimTry` | backend/emit_try.go:73-128 | The same for a try of any shape |
| `TryCorrect.SimRest` | backend/emit_try.go:103-124 | What follows the literal (the catch, the finally in place, Rethrow, the code tests) turns the caught completion into the one section 14.15.3 of ECMA-262 gives |
| `TryCorrect.SimCatchLiteral` | backend/emit_try.go:109-113 | A catch before a finally, run as a literal of its own, leaves its throw or its code where the first literal's was |
| `TryCorrect.SimFinally` | backend/emit_try.go:114-124 | The finally in place: its own way out replaces the pending one; falling off its end rethrows the pending throw or acts on the pending code |
| `TryCorrect.SimLiteral` | backend/emit_try.go:142-149 | A literal's code and throw say how its block was left |
| `TryCorrect.CatchActs` | backend/runtime/thrown.go:81-107 | Try and TryK: a throw is taken back as a value, any other panic goes on past every catch and finally, a code is returned as it is |
| `TryCorrect.CodesAct` | backend/emit_try.go:118-124 | The code tests after a try leave by exactly the way the literal did, or fall through when it did not leave |
| `TryCorrect.LeaveActs` | backend/emit_try.go:189-211 | Acting on a code: passed out of an enclosing literal, or the return, break or continue itself |
| `TryCorrect.SimReturn` | backend/emit_try.go:155-170 | A return inside a literal stores its value before it leaves; outside one it is Go's own |
| `TryCorrect.SimLoop` | backend/emit_loops.go:48-66 | A loop of any kind goes round, stops and is left as JavaScript's is, whether its body's break is Go's own or a code |
| `TryCorrect.FunctionNeverLosesAReturn` | backend/emit_try.go:160-170 | exits covers every way out: the branch for a lost return value is in no emitted function |
| `TryCorrect.EndingInReturnNeverFalls` | backend/emit_loops.go:137-156 | A body whose last statement is a return never falls off its end, so it needs no ending |
| `TrySlot.SlotBlockIsRun` | backend/emit_try.go:80-88 | Forgetting the slot, the semantics with a slot is JavaScript's |
| `TrySlot.LeavesByExits` | backend/emit_try.go:217-247 | Every completion a block can have is in the set exits gives, inside a loop or not |
| `TryExact.SoundBlock` | backend/emit_try.go:80-88 | Every run of a block goes by one of the ways read from its text, and the slot holds what that way says |
| `TryExact.RealizeBlock` | backend/emit_try.go:80-88 | Every way read from the text is gone by some run, with any chosen returned and left-over values |
| `TryExact.CanFacts` | backend/emit_try.go:155-170 | A way that returns from a literal has stored its value, and only returns can be stale |
| `TryEmitter.Emitter.Stmts` | backend/emit.go:144-148 | The imperative emitter writes exactly the lines of the translation, which read back as it, and gives back its frames, loops and slot as they were |
| `TryEmitter.Emitter.Stmt` | backend/emit.go:150-236 | The same for a statement |
| `TryEmitter.Emitter.TryStmt` | backend/emit_try.go:73-128 | The same for a try: its lines read back as the translation, Rethrow and code tests and all; the slot it declares is its own, and undeclared again at its end |
| `TryEmitter.Emitter.RunLiteral` | backend/emit_try.go:90-100 | The call that runs a literal, coded or not, and what it binds |
| `TryEmitter.Emitter.Rest` | backend/emit_try.go:103-124 | The catch, the finally, the Rethrow and the code tests, in place, as they read back |
| `TryEmitter.Emitter.InLiteral` | backend/emit_try.go:142-149 | The frame pushed for a literal is popped, and a coded one ends by its code |
| `TryEmitter.Emitter.BindCatch` | backend/emit_try.go:132-138 | A named catch binds what was thrown |
| `TryEmitter.Emitter.Leaves` | backend/emit_try.go:155-185 | Writes a statement only when it is a way out of the literal being emitted, and says whether it did |
| `TryEmitter.Emitter.Leave` | backend/emit_try.go:189-211 | Writes the way out a code stands for in this place |
| `TryEmitter.Emitter.Function` | backend/emit_try.go:47-51 | A function is emitted from a clean context and the one around it restored; a call of what its lines read as is JavaScript's, on every run, if and only if the body is `Faithful` |
| `TryText.WrittenReads` | backend/emit_try.go:73-247 | Lines determine the program: a reader of lines, which knows nothing of the writer, gives back exactly the statements written |
| `TryText.TextCompiledExactly` | backend/emit_try.go:73-128 | The theorem about compiled functions, of the program some emitted lines are |
| `TryLanguage.AskedInOrder` | backend/emit_loops.go:48-66 | A clause's expressions are asked in their order, each once, up to the first that gives no value |
| `SchedulerTheorem.Refines` | backend/runtime/promise.go:180-237 | Every interleaving of the goroutines performs the program's actions as one thread with a FIFO job queue performs them: same log, same promises, same ending |
| `SchedulerTheorem.Realizes` | backend/runtime/promise.go:180-237 | Conversely every run of that one thread is made by some run of the goroutines |
| `SchedulerTheorem.OrderIsForced` | backend/runtime/promise.go:175-237 | Two runs given the same tasks agree on every action: whichever goroutine is scheduled when, no order is left open |
| `SchedulerTheorem.OneHolder` | backend/runtime/promise.go:153-208 | In every reachable state exactly one goroutine holds the token, and those waiting for it back are a stack from the driver up to it |
| `SchedulerTheorem.NoDeadlock` | backend/runtime/promise.go:201-237 | In every reachable state some goroutine has a step to take, until the driver has stopped |
| `SchedulerTheorem.SilentIsLower` | backend/runtime/promise.go:201-237 | Steps the thread does not take come to an end: a measure falls at each |
| `SchedulerTheorem.RunsKeepTheInvariant` | backend/runtime/promise.go:153-237 | The invariant (stack of waiters, indexed registry, one resume due for each waiting call, rejections noted) holds after every run |
| `SchedulerTheorem.ThreadIsFollowed` | backend/runtime/promise.go:180-237 | From any related pair of states the goroutines can follow the thread's run to its end |
| `SchedulerTheorem.RunIsARunOfTheThread` | backend/runtime/promise.go:180-237 | From any related pair of states what the goroutines do is a run of the thread, and they stay related |
| `SchedulerOrder.GoroutinesMakeConforming` | backend/runtime/promise.go:180-237 | The logs the goroutines can make are exactly those ECMA-262 allows, told from the events alone: a step is the innermost context's; a resume is of the waiting call whose promise settled first or, settled at once, that awaited first; a task begins when nothing is ready and no rejection was left alone |
| `SchedulerOrder.GoroutinesConform` | backend/runtime/promise.go:180-237 | and they end only for a reason the log gives: a fatal step, the first rejection left alone once nothing is ready, or being left when all is done |
| `SchedulerOrder.ThreadMakesConforming` | backend/runtime/domain.go:111-130 | The same of the one thread and its queue |
| `SchedulerOrder.AwaitsGoOnInOrder` | backend/runtime/promise.go:89-96 | On every run of the goroutines, of two awaits of one promise, settled or not, the one made first goes on first |
| `EventOrder.FirstComeFirstServed` | backend/runtime/promise.go:89-96 | The same, of any log that conforms |
| `EventOrder.ServedInOrder` | backend/runtime/promise.go:78-96 | Of two awaits of any promises, the one that could go on first, or was made first where both could at once, goes on first |
| `EventOrder.OnlyAResumeGoesOn` | backend/runtime/promise.go:220-237 | A call that awaits does nothing until it is resumed |
| `EventOrder.ResumedWithTheReason` | backend/runtime/promise.go:220-237 | A call is resumed with what first settled the promise it awaits |
| `SchedulerLog.TickFollows` | backend/runtime/promise.go:57-96 | Whatever the thread does next, its promises, reactions, queue and notes stay what its log says they are |
| `SchedulerLog.CheckFinds` | backend/runtime/rejection.go:28-36 | The rejection the check finds is the first of all that settled so and that nothing has awaited |
| `SchedulerSafety.SettledForever` | backend/runtime/promise.go:57-84 | Once settled, a promise keeps its state and its reason through every later step, and keeps being handled |
| `SchedulerSafety.DueOnce` | backend/runtime/promise.go:86-96 | In every reachable state each call in an Await is due exactly one resume: in its unsettled promise's reactions, once, or in the queue, once, and nowhere else |
| `SchedulerSafety.DrainEnds` | backend/runtime/domain.go:111-130 | A drain completes exactly when no promise is both rejected and unhandled; otherwise it fails with the first such to have been rejected |
| `SchedulerSafety.FirstIsFirst` | backend/runtime/rejection.go:28-36 | The rejection a domain ends with is the first in the list that nothing handles |
| `SchedulerSafety.AbortIsExact` | backend/runtime/parked.go:39-49 | From failure to stop, the handoffs made are exactly the calls still parked, no step is the program's, and the promises stay as they were |
| `SchedulerSafety.AbortEnds` | backend/runtime/parked.go:39-49 | A failed domain can always be brought to a stop |
| `SchedulerSafety.StoppedIsOver` | backend/runtime/parked.go:39-49 | Whenever a run has stopped, the registry is empty and every call has exited |
| `SchedulerSteps.InvariantStep` | backend/runtime/promise.go:153-237 | Every enabled step, whoever takes it, keeps the invariant |
| `SchedulerSteps.ChainStep` | backend/runtime/promise.go:201-237 | Every step pushes, pops or keeps the stack of waiters, as the kind of handoff says |
| `SchedulerInvariant.ParkIndexes` | backend/runtime/parked.go:24-27 | Parking keeps parked[i].parkedAt == i and adds just the one call |
| `SchedulerInvariant.UnparkIndexes` | backend/runtime/parked.go:29-35 | Swap-removal keeps parked[i].parkedAt == i and takes out just the one call |
| `SchedulerInvariant.PopIndexes` | backend/runtime/parked.go:39-49 | So does abort's removal of the last |
| `SchedulerInvariant.DueSettle` | backend/runtime/promise.go:78-84 | Settling moves each waiting call's one resume from the reactions to the queue, in order |
| `SchedulerInvariant.DueThen` | backend/runtime/promise.go:89-96 | Awaiting makes the call due one resume, in the queue if the promise has settled |
| `SchedulerInvariant.DueResume` | backend/runtime/promise.go:220-229 | Resuming a call uses up the one resume it was due |
| `SchedulerInvariant.NotedSettle` | backend/runtime/promise.go:68-76 | A promise rejected unhandled is noted for the check |
| `SchedulerInvariant.NotedThen` | backend/runtime/promise.go:89-96 | Handling a promise late keeps the notes right |
| `SchedulerRefinement.SimSilent` | backend/runtime/promise.go:201-229 | Channel waits and handoffs back change nothing the thread can see |
| `SchedulerRefinement.SimLoud` | backend/runtime/promise.go:180-237 | Every other step is one step of the thread |
| `DomainObjects.Domain.Settle` | backend/runtime/promise.go:78-84 | In place: the promise settles and its reactions are queued in order, each once |
| `DomainObjects.Domain.Resolve` | backend/runtime/promise.go:57-63 | In place: fulfils a promise with its value and queues its reactions, or does nothing to a settled one |
| `DomainObjects.Domain.Reject` | backend/runtime/promise.go:68-76 | In place: as resolve, and notes a rejection nothing awaits |
| `DomainObjects.Domain.Then` | backend/runtime/promise.go:89-96 | In place: marks the promise handled and queues the reaction at the end of the queue if it has settled, or else keeps it last among its reactions |
| `DomainObjects.Domain.CheckRejections` | backend/runtime/rejection.go:28-36 | In place: empties the list and returns the first unhandled rejection of it |
| `DomainObjects.Domain.Park` | backend/runtime/parked.go:24-27 | In place: the transition system's Park |
| `DomainObjects.Domain.Unpark` | backend/runtime/parked.go:29-35 | In place: the transition system's Unpark, over aliased call objects |
| `DomainObjects.Domain.QueueMicrotask` | backend/runtime/domain.go:103 | In place: appends one microtask |
| `Spawning.DeliversOnce` | backend/runtime/spawn.go:69-140 | Over every run of caller and spawned goroutines: no spawn is delivered twice, every finished one has posted a delivery, deliveries run in the order posted, spawned counts those not yet run, and a caller that is done has run them all |
| `Spawning.DeliversTheFirst` | backend/runtime/spawn.go:78-101 | What a finished spawn delivers is its first outcome: the first value or throw offered, else the panic, else nothing |
| `Spawning.StopsWhenDone` | backend/runtime/spawn.go:103-128 | In every run, a spawn that stops had a last task that left nothing to do, or panicked; that no result can come is delivered only when its last task left nothing, and a panic only when that task panicked |
| `Spawning.GoesOnWithWork` | backend/runtime/spawn.go:120-140 | Past a task, a spawn runs another if and only if that one left work, toward its result while it has none and after it otherwise |
| `Spawning.RaiseFails` | backend/runtime/spawn.go:96-101 | In every run, the caller's driver has failed if and only if its own code failed or a spawn's panic was raised in it |
| `Spawning.GoesRound` | backend/runtime/domain.go:205-232 | In every run the driver asks whether work is left, waits, runs the inbox, fires its timers, and asks again, in that order |
| `Spawning.SpawnedCounts` | backend/runtime/spawn.go:81-84 | d.spawned is the number of spawns whose delivery has not run |
| `Spawning.NoLostWake` | backend/runtime/domain.go:73-81 | A caller blocked with something in its inbox has a wake waiting or a poster about to send one |
| `Spawning.BlockedIsWoken` | backend/runtime/domain.go:212-225 | A caller blocked with every spawn over and no timer has a delivery and its wake waiting |
| `Spawning.NeverStuck` | backend/runtime/domain.go:212-232 | A caller that is not done or failed always has, with its spawns, a step to take |
| `Spawning.PostsInOrder` | backend/runtime/domain.go:73-94 | Only an append posts, and what is posted is run in that order |
| `Spawning.RunsKeepTheInvariant` | backend/runtime/spawn.go:69-140 | Every run keeps the protocol's invariant, and no posted delivery is ever lost |
| `Spawning.InvariantStep` | backend/runtime/spawn.go:69-140 | Every step of either side keeps it |
| `Timers.FiresInOrder` | backend/runtime/domain.go:157-206 | Over every run, whatever callbacks set and clear: the fired timers are strictly ordered by due time and then by when they were set, each fires once, no cleared one fires, and every timer made is set, fired or cleared |
| `Timers.ShorterFiresFirst` | backend/runtime/domain.go:160-187 | Of two timers, the one set first with no longer a delay comes first in that order |
| `Timers.DueAfterItsDelay` | backend/runtime/domain.go:160-206 | A timer is due exactly when its delay has passed since it was set, however the time was spent, and never fires before |
| `Timers.ClearedOnce` | backend/runtime/domain.go:171-178 | Clearing a timer that has fired or been cleared does nothing |
| `Timers.FiresWhileDue` | backend/runtime/domain.go:199-206 | fireDue has a timer to fire exactly while one is due |
| `StringBuilder.Bijection` | backend/runtime/str.go:123-136 | Units is a bijection from canonical strings onto all sequences of code units, with the builder its inverse: a string is canonical if and only if building its units gives it back |
| `StringBuilder.UnitsRebuild` | backend/runtime/str.go:190-203 | Building the units of a canonical string after anything it can follow appends its bytes |
| `StringBuilder.SameUnitsSameBytes` | backend/runtime/str.go:235-247 | Canonical strings are equal as bytes if and only if they are equal as code units |
| `StringBuilder.UnitAppends` | backend/runtime/str.go:190-229 | Appending a unit appends exactly that unit, a low half joining the high one before it into one character |
| `StringBuilder.UnitKeepsCanonical` | backend/runtime/str.go:190-203 | and leaves the string canonical |
| `StringBuilder.StrIsItsUnits` | backend/runtime/str.go:181-188 | Appending a string is appending its units |
| `StringBuilder.JoinJoinsUnits` | backend/runtime/str.go:252-293 | Joining canonical strings is canonical and has the joined units, empty pieces and split pairs included |
| `StringBuilder.NoSeamCopies` | backend/runtime/str.go:297-315 | When no seam joins two halves, joining is just copying the bytes |
| `StringBuilder.AllIsItsUnits` | backend/runtime/str.go:277-293 | Writing pieces one by one writes all their units |
| `Wtf8.EncodedIsRead` | backend/runtime/str.go:67-98 | What is encoded is read back, whatever follows |
| `Wtf8.ReadIsEncoded` | backend/runtime/str.go:67-98 | What is read, of a string with no stray byte first, was its encoding |
| `EscapeText.EncIsUtf8` | backend/runtime/str.go:77-98 | What is encoded is UTF-8 (section 3 of RFC 3629), a surrogate as the three bytes it would have |
| `EscapeText.ReadsUtf8` | backend/runtime/str.go:67-75 | A string is read by exactly the UTF-8 its bytes are, surrogates included, and one byte of U+FFFD where they are none |
| `EscapeText.UnitsAreUtf16` | backend/runtime/str.go:123-136 | A code point is the unit, or the high and low halves, it is in UTF-16 |
| `EscapeText.DigitIsText` | backend/runtime/num_parse.go:193-226 | A digit is worth its place in 0 to 9 and a to z, in either case; nothing else is worth one |
| `Wtf8Seams.UnitsAtSeam` | backend/runtime/str.go:235-247 | Two strings have the units of both when the second begins a character |
| `Wtf8Seams.EndsHighIsLast` | backend/runtime/str.go:235-242 | endsHigh's three bytes say the last unit is a high half, exactly |
| `Wtf8Seams.StartsLowIsFirst` | backend/runtime/str.go:244-247 | startsLow's bytes say the first unit is a low half, exactly |
| `Wtf8Seams.UnitsAtBoundary` | backend/runtime/str.go:67-75 | A cut between characters cuts the units |
| `Strings.AsciiPrefix` | backend/runtime/str.go:50-63 | The longest run of ASCII bytes it starts with |
| `Strings.Utf16Len` | backend/runtime/str.go:103-120 | The number of code units |
| `Strings.ToUnits` | backend/runtime/str.go:123-136 | The code units |
| `Strings.UnitAt` | backend/runtime/str.go:383-413 | The code unit at a position, halves of pairs included, and none past the end |
| `Strings.StrBuilder.JoinLow` | backend/runtime/str.go:218-229 | In place: joins a low half to the high half the bytes end with, and only then |
| `Strings.StrBuilder.Unit` | backend/runtime/str.go:190-203 | In place: appends a unit |
| `Strings.StrBuilder.Str` | backend/runtime/str.go:181-188 | In place: appends a string |
| `Strings.StrBuilder.Sub` | backend/runtime/str.go:206-214 | In place: appends a range of units |
| `Strings.Sub` | backend/runtime/str.go:167-174 | The string of a range of units |
| `Strings.StrSlice` | backend/runtime/str.go:416-430 | The canonical string of exactly the units slice names, negative and out-of-range arguments included |
| `Strings.StrSubstring` | backend/runtime/str.go:434-445 | The same for substring, whose arguments swap |
| `Strings.FirstUnits` | backend/runtime/json_string.go:124-146 | The first n units, a pair cut in two leaving its high half |
| `Strings.JoinsHalves` | backend/runtime/str.go:297-315 | True exactly when some high half meets a low one across pieces, empty ones and the separator included |
| `Strings.JoinStrings` | backend/runtime/str.go:277-293 | The pieces and the separators joined |
| `Strings.StrConcat` | backend/runtime/str.go:252-271 | The pieces joined, whatever their bytes, and of canonical pieces the canonical string of their joined units; an error exactly when several parts come to more than V8's longest string |
| `StringSearch.ByteMatch` | backend/runtime/str_search_ascii.go:87-136 | A match of an ASCII pattern on the bytes is one on the units |
| `StringSearch.UnitMatch` | backend/runtime/str_search_ascii.go:87-136 | and a match on the units is one on the bytes, at the offset it stands for |
| `StringSearch.EqualAt` | backend/runtime/str_search.go:32-39 | Whether one sequence holds another at a position |
| `StringSearch.IndexOf` | backend/runtime/str_search.go:15-29 | The first match from a position, or -1 when there is none |
| `StringSearch.LastIndexOf` | backend/runtime/str_search.go:64-84 | The last match at or before a position, or -1 when there is none |
| `AsciiSearch.UnitOffset` | backend/runtime/str_search_ascii.go:44-60 | The byte a unit position falls at, inside a pair and past the end included |
| `AsciiSearch.FirstMatch` | backend/runtime/str_search_ascii.go:95-102 | The first byte match from there is the first unit match |
| `AsciiSearch.LastMatch` | backend/runtime/str_search_ascii.go:106-119 | The last byte match before there is the last unit match |
| `AsciiSearch.IndexAscii` | backend/runtime/str_search_ascii.go:95-102 | The first match on the units, found on the bytes |
| `AsciiSearch.LastIndexAscii` | backend/runtime/str_search_ascii.go:106-119 | The last match on the units, found on the bytes |
| `AsciiSearch.IncludesAscii` | backend/runtime/str_search_ascii.go:87-90 | Whether the units hold a match from a position |
| `AsciiSearch.StartsWithAscii` | backend/runtime/str_search_ascii.go:123-126 | Whether the units match at a position, inside a pair included |
| `AsciiSearch.EndsWithAscii` | backend/runtime/str_search_ascii.go:130-136 | Whether the units end in the pattern at a position |
| `StringMethods.StrIndexOf` | backend/runtime/str_search.go:50-60 | The units' answer, whichever way is taken |
| `StringMethods.StrIncludes` | backend/runtime/str_search.go:42-47 | The units' answer, whichever way is taken |
| `StringMethods.StrLastIndexOf` | backend/runtime/str_search.go:64-84 | The units' answer, whichever way is taken |
| `StringMethods.StrStartsWith` | backend/runtime/str_search.go:87-97 | The units' answer, whichever way is taken |
| `StringMethods.StrEndsWith` | backend/runtime/str_search.go:100-115 | The units' answer, whichever way is taken |
| `StringMethods.ClampedTwice` | backend/runtime/str_search_ascii.go:33-38 | Clamping a position to the bytes first, as optPosition does, changes no answer |
| `StringMethods.IsCanonical` | backend/runtime/str_search_ascii.go:68-84 | canonical is true exactly of canonical strings |
| `StringMethods.SameCuts` | backend/runtime/str_search_ascii.go:141-153 | Taking match after match on the bytes and on the units takes the same matches |
| `StringMethods.CutsAreAllMatches` | backend/runtime/str_search.go:263-271 | The matches taken are all there are, from left to right, none overlapping one taken, and no other list is |
| `StringMethods.PiecesAreBetween` | backend/runtime/str_search.go:128-161 | The pieces of a split are what lies between them |
| `StringMethods.SplitAscii` | backend/runtime/str_search_ascii.go:141-153 | The pieces of the units, found on the bytes, up to the limit |
| `StringMethods.SplitUnits` | backend/runtime/str_search.go:128-161 | The pieces of the units, up to the limit |
| `StringMethods.StrSplit` | backend/runtime/str_search.go:128-161 | The pieces section 22.1.3.23 of ECMA-262 gives of the units, the empty separator and a limit of any number included, whichever way is taken |
| `StringMethods.PiecesWeave` | backend/runtime/str_search.go:128-161 | The pieces with the separator between them are the string's units again |
| `StringMethods.SplitJoins` | backend/runtime/str_search.go:128-161 | Joining a split with its separator gives the string back |
| `Templates.ParseTemplate` | backend/runtime/str_search.go:179-208 | The template of a replacement |
| `Templates.TemplateReads` | backend/runtime/str_search.go:179-208 | Cut at its patterns, the replacement read from left to right, and the text of a canonical one canonical |
| `Templates.TemplateSubstitutes` | backend/runtime/str_search.go:211-239 | For any replacement and any match, what the template puts is GetSubstitution's, spelt out on the replacement's code units: $$ is a dollar, $& what matched, $` what is before it, $' what is after it, and anything else itself |
| `StringReplace.ReplaceAt` | backend/runtime/str_search.go:278-294 | Every match replaced, on the units; the RangeError exactly when the result has more units than V8 allows |
| `StringReplace.ReplaceAscii` | backend/runtime/str_search_ascii.go:177-194 | Every match replaced, on the bytes; the RangeError exactly when the result has more units than V8 allows |
| `StringReplace.BytesReplaceAsUnits` | backend/runtime/str_search_ascii.go:156-194 | Replacing on the bytes writes the very string replacing on the units writes |
| `StringReplace.StrReplaceAll` | backend/runtime/str_search.go:260-274 | replaceAll, whichever way is taken: for all the matches, from left to right and none overlapping, the code units between them and what GetSubstitution puts for each; the RangeError exactly when that is longer than V8 allows |
| `StringReplace.ReplaceAllMeans` | backend/runtime/str_search.go:260-294 | The same, of any result the two ways may give |
| `StringCompare.StrCompare` | backend/runtime/str_compare.go:19-47 | The sign of comparing the code units, for all canonical strings |
| `StringCompare.OrderIsLess` | backend/runtime/str_compare.go:19-47 | The sign says which string comes before: a proper prefix, or the lesser unit where they first part |
| `StringCompare.SharedBoundary` | backend/runtime/str_compare.go:19-47 | A byte prefix two strings share ends a character in both or in neither |
| `StringCompare.LeadIsNear` | backend/runtime/str_compare.go:30-42 | From any byte of a canonical string a character start is at most three back |
| `StringCompare.UnitReader.Next` | backend/runtime/str_compare.go:56-73 | In place: hands out the units in order, a pair's low half kept for the next call |
| `StringAccumulator.StrAcc.Append` | backend/runtime/str_acc.go:33-63 | The string StrConcat would make, of any strings, wherever in a block they lie; every string ever handed out keeps its bytes though the buffer grows in place; a chain of appends has copied at most twice its length |
| `StringAccumulator.StrAcc.AppendInPlace` | backend/runtime/str_acc.go:45-62 | The in-place part: writes only past the newest string |
| `StringAccumulator.StrAcc.Length` | backend/runtime/str_acc.go:69-74 | The number of code units, with the byte count when that is the same |
| `StringAccumulator.SeamJoins` | backend/runtime/str_acc.go:82-93 | joinsHalves for a string followed by parts |
| `Halves.LowIsHalf` | backend/runtime/json_string.go:97-102 | The first unit is a low half exactly where surrogateAt finds one |
| `JsonString.AppendJSONString` | backend/runtime/json_string.go:30-71 | The loop, which copies runs that need no escape, writes the text quoting a character at a time gives |
| `JsonString.QuotesAsUnits` | backend/runtime/json_string.go:30-71 | The units written are QuoteJSONString's (section 25.5.2.3 of ECMA-262) of the string's units, each escape spelt out as text, split pairs and stray bytes included |
| `JsonString.QuoteMeans` | backend/runtime/json_string.go:30-71 | The same after any bytes already written |
| `Uri.EncodeURIComponent` | backend/runtime/uri.go:18-61 | What Encode (section 19.2.6.5 of ECMA-262) gives of the code units, or its URIError: letters, digits and -_.!~*'() as they are, and % and two upper-case digits for each byte of any other code point's UTF-8 |
| `Uri.EncodesText` | backend/runtime/uri.go:18-74 | The same, of the encoding the other lemmas are about |
| `Uri.DecodeURIComponent` | backend/runtime/uri.go:91-134 | What Decode (section 19.2.6.6 of ECMA-262) gives of the code units, or its URIError: what is no escape as it is, and escapes, in either case, the code point whose whole UTF-8 they are |
| `Uri.DecodesText` | backend/runtime/uri.go:78-134 | The same, of the decoding the other lemmas are about |
| `Uri.RoundTrip` | backend/runtime/uri.go:18-134 | Decoding the encoding of a canonical string without lone surrogates gives it back |
| `Uri.ThrowsOnLone` | backend/runtime/uri.go:18-61 | Encoding throws exactly when some surrogate is alone |
| `Uri.RunDecodes` | backend/runtime/uri.go:91-134 | A run of escapes is decoded if and only if its bytes are valid UTF-8 (section 4 of RFC 3629), and to those bytes |
| `Uri.DecodedIsCanonical` | backend/runtime/uri.go:91-134 | Decoding a canonical string gives a canonical one |
| `GraphClone.Clone` | backend/runtime/object.go:164-206 | A copy isomorphic to the reached graph, on the heap: each object and array copied once into a fresh one, fields pointing at the copies, nothing reached twice or left out, no original changed; it ends on cyclic graphs |
| `GraphClone.Cloner.CloneNode` | backend/emit_object.go:152-163 | In place: the copy is remembered before its fields are, so a cycle finds it |
| `GraphClone.Cloner.CloneSlot` | backend/runtime/object.go:173-196 | In place: a field's copy, or the one already made |
| `GraphClone.Cloner.CloneValue` | backend/runtime/array.go:192-199 | In place: a part of an object or array half copied |
| `GraphClone.SameReads` | backend/runtime/object.go:164-171 | Following any path of fields and elements from the copy reads the copy of what it reads from the original |
| `GraphClone.SameContents` | backend/runtime/object.go:164-206 | and finds the same primitive, within as many maybes, or a copied object of the same kind, layout and length |
| `GraphClone.SameAliases` | backend/runtime/object.go:198-206 | Two paths meet in the copy exactly when they meet in the original |
| `RaceRule.RaceChecker.Propagate` | lower/race.go:212-225 | Ends on every call graph, with exactly what can be reached: a callable touches (writes) a binding if and only if some callable it reaches does so itself |
| `RaceRule.SettledIsExact` | lower/race.go:210-225 | Nothing left to fold in means the exact answer: the least fixpoint |
| `RaceRule.MergeUse` | lower/race.go:233-245 | A use folded in, at most one for each binding, a write winning; false exactly when it changes nothing |
| `RaceRule.RaceChecker.Fold` | lower/race.go:212-225 | In place: folding one reference's uses in keeps soundness and brings the end nearer when it changes anything |
| `RaceRule.Strongest` | lower/race.go:410-420 | The first write, or the first use when there is no write, or none |
| `RaceRule.AcceptedTouchesNothing` | lower/race.go:364-407 | A callable left with no uses reaches no callable that touches a shared binding, and conversely |
| `ModuleOrder.EvaluatesInOrder` | ir/program.go:36-63 | Exactly the modules reachable from the entry, each once, the entry last, every import before its importer unless it can reach the importer back |
| `ModuleOrder.ImportsInOrder` | ir/program.go:46-59 | A module's imports come in their order: one before a later one, unless an import up to it reaches that, it was listed before the module was entered, or the first is itself being visited |
| `ModuleOrder.EntrysImportsInOrder` | ir/program.go:46-63 | The same of the entry, over the whole order |
| `ModuleOrder.ImportsAreNamed` | ir/program.go:42-57 | Each file imports the last module of that name, or none, and a list of files what each does in order |
| `ModuleOrder.VisitKeeps` | ir/program.go:41-63 | A visit keeps what is listed in order, and lists all it can reach that was not entered |
| `ModuleOrder.Walk.Visit` | ir/program.go:41-63 | In place: the recursive visit over its visited set and order |
| `ModuleOrder.EvaluationOrder` | ir/program.go:41-63 | The walk from the entry |
| `PowerOfTwoDigits.ReadDigits` | backend/runtime/num_parse.go:193-226 | The longest run of digits of a radix of 2, 4, 8, 16 or 32 and its exact value rounded once, half to even, to 53 bits |
| `PowerOfTwoDigits.ReadPast` | backend/runtime/num_parse.go:207-225 | The same from the digit that passes 53 bits, with the first bits dropped and whether any later digit was not zero |
| `PowerOfTwoDigits.Rounds` | backend/runtime/num_parse.go:207-225 | Rounding by the first bits, the exponent and one sticky bit is rounding the whole value |
| `PowerOfTwoDigits.RoundedIsNearest` | backend/runtime/num_parse.go:187-192 | What is meant by rounded is nearest: no number of 53 bits and any exponent is closer |
| `PowerOfTwoDigits.TiesGoToEven` | backend/runtime/num_parse.go:193-226 | and halfway between two of them, it is the even one |
| `PowerOfTwoDigits.Fits` | backend/runtime/num_parse.go:193-206 | The accumulator never overflows 63 bits |
| `ToFixed.NumberToFixed` | backend/runtime/num_fixed.go:23-49 | toFixed writes floor(abs(x) 10^n + 1/2) over 10^n with n decimals and the sign, for every finite abs(x) < 1e21 and digits that truncate to n in 0..100, and errors or falls back exactly otherwise |
| `ToFixed.FixedText` | backend/runtime/num_fixed.go:9-48 | The text has a point before just the places asked for, no needless zero, and without the point says the integer nearest x * 10^n, a half going up |
| `ToFixed.TieIsHalfway` | backend/runtime/num_fixed.go:59-66 | numFixedTie holds if and only if abs(x) 10^n is exactly halfway between integers |
| `ToFixed.RoundUpTie` | backend/runtime/num_fixed.go:71-88 | In place: the carry loop over the digits |
| `ToFixed.UpFormat` | backend/runtime/num_fixed.go:71-88 | The carry adds exactly one in the last place, past the point and into a new digit |
| `ToFixed.AgreeButOnTies` | backend/runtime/num_fixed.go:51-58 | Half-to-even and half-up differ only on ties |
| `ToFixed.TieText` | backend/runtime/num_fixed.go:36-49 | On a tie, the digits formatted with one more place, cut and carried, are half-up's |
| `ToFixed.DecimalDenotes` | backend/runtime/num_fixed.go:23-49 | The digits written denote the number |
| `EvaluationOrder.RightWhereLooksHold` | backend/order.go:33-65 | For every expression, program and state: every evaluation Go allows of what full emits comes to JavaScript's value or first throw, with its effects and answers, if and only if no call changes the answer of a look for a property (`"f" in o`) that comes after it at a plainly read object; branches, short circuits and element reads included, and whether or not Go orders && and \|\| among the calls |
| `EvaluationOrder.EvaluatesLeftToRight` | backend/order.go:33-54 | The half that is right: where the looks hold, each evaluation, ended by a value or a throw, comes to what JavaScript's does, with what was done by then |
| `EvaluationOrder.AnswersOtherwise` | backend/emit_optional.go:81-87 | The half that is not: where one does not hold, an evaluation Go allows, which the lemma builds, answers it otherwise |
| `EvaluationOrder.LooksBeforeCalls` | backend/emit_optional.go:81-87 | Told from the text: with no look at a plain object after a call, an expression is always right |
| `EvaluationOrder.RightInEveryProgram` | backend/emit_optional.go:81-87 | An expression without branches is right in every program and from every state if and only if it has no look at a plain object (a name or an operator of names, not what a check or a call gives) after a call, or no call below its root |
| `EvaluationOrder.CheckedLookIsRight` | backend/emit_maybe.go:116-122 | `console.log(f(), "a" in m!)` is always right: the check Go makes of m is a call, after f's |
| `OrderLanguage.FlowIsEval` | backend/order.go:11-16 | Stopping at the first throw, and going on past it with nothing done, come to the same |
| `EvaluationOrder.LookCanMiss` | backend/emit_optional.go:81-87 | `console.log(f(), "a" in o)` with o a const and f doing `o.a = 1`: JavaScript finds the property, and an evaluation Go allows does not |
| `EvaluationOrder.LeftToRightIsAllowed` | backend/order.go:33-43 | Go may evaluate what is emitted just as JavaScript does |
| `EvaluationOrder.PlainReadsCanTell` | backend/order.go:11-16 | `a + f()` with plain reads: Go may give 22 where JavaScript gives 12 |
| `OrderCorrect.StepMeans` | backend/order.go:45-65 | Whichever step Go takes next, of those it allows, the left-to-right value and effects of what is left stay the same, and its looks as good |
| `OrderCorrect.CallComesFirst` | backend/order.go:18-27 | A call Go makes next is the next to be made, and what is read before it can wait |
| `OrderCorrect.ReadAnyTime` | backend/order.go:11-23 | A bare read made at any time gives what it gives in its turn |
| `OrderCorrect.QuietIsGood` | backend/order.go:21-23 | Where nothing acts, no look can go wrong, whenever it is taken |
| `OrderExact.Diverges` | backend/emit_optional.go:81-87 | Any emitted form with a look that is not good has an evaluation whose answers part from JavaScript's and stay apart |
| `OrderExact.EarlyStep` | backend/emit_optional.go:81-87 | While a look to come would answer otherwise now, Go has a step towards taking it now |
| `OrderExact.Finishes` | backend/order.go:33-43 | From any state every emitted expression can be evaluated to its end, left to right |
| `OrderTarget.StepShrinks` | backend/order.go:33-43 | and no evaluation goes on for ever |
| `OrderEmit.EmitMeans` | backend/emit_object.go:257-279 | Evaluated left to right, what is emitted means what the source does, ts_read and paths, looks, elements and short circuits included |
| `OrderEmit.PathMeans` | backend/emit_object.go:265-279 | A chain of fields read in one ts_read is the fields read one by one |
| `OrderLooks.FullIsGood` | backend/order.go:33-43 | What full emits is good exactly where the expression's own looks hold |
| `OrderLooks.OrderedIsFixed` | backend/order.go:45-54 | Once reads are ordered, all that is read bare is what no call writes, but for ts_layout |
| `OrderLooks.PlainDoesNotAct` | backend/order.go:56-88 | Without a call at its root or below, what is emitted changes nothing |
| `OrderEmit.Emitter.EmitFull` | backend/order.go:35-43 | In place: the emitter sets its order flag for one expression and gives it back |
| `OrderEmit.Emitter.EmitExpr` | backend/order.go:45-54 | In place: what the emitter writes is the translation, with the flag as it was |
| `OrderEmit.Emitter.PathTo` | backend/emit_object.go:265-279 | In place: a chain of fields is one path, read in one call |
| `Timers.Delay` | backend/runtime/domain.go:180-187 | In range, the delay is the milliseconds asked for, a fraction kept down to the nanosecond; otherwise, NaN and the infinities included, it is 1 ms |
| `TimerHeap.TimerQueue.SetTimeout` | backend/runtime/domain.go:160-167 | In place, on the heap: the timer joins the set under its id and order, every timer knows its index, and no timer comes before its parent |
| `TimerHeap.TimerQueue.ClearTimeout` | backend/runtime/domain.go:171-178 | In place: just the timer of that id leaves, by its index, or nothing does |
| `TimerHeap.TimerQueue.TakeDue` | backend/runtime/domain.go:199-203 | In place: the earliest of all the timers leaves when it is due, and nothing is due when none leaves |
| `TimerHeap.TimerQueue.Swap` | backend/runtime/domain.go:246-249 | In place: two timers change places and indices |
| `TimerHeap.TimerQueue.Up` | backend/runtime/domain.go:234-255 | In place: a timer out of order with its parent alone is raised to its place |
| `TimerHeap.TimerQueue.Down` | backend/runtime/domain.go:234-255 | In place: a timer out of order with its children is lowered to its place; if it does not move, only its parent is left to look at |
| `TimerHeap.TimerQueue.RemoveAt` | backend/runtime/domain.go:177 | In place: one timer leaves from anywhere in the heap, which stays one |
| `TimerHeap.RootIsFirst` | backend/runtime/domain.go:190-195 | The first timer of the heap is the earliest set, which is what fireDue may fire |
| `Names.FieldNameReads` | backend/emit_object.go:56-71 | fieldName reads back to its property if and only if the property is valid UTF-8; two properties share a field if and only if Go's range reads the same runes of both, so never when both are valid |
| `Names.MangleReads` | backend/mangle.go:65-112 | The same of mangle, whose names are identifiers, always valid |
| `Names.LoneSurrogatesCollide` | backend/mangle.go:97-112 | The properties "\uD800", "\uD801" and "\uFFFD\uFFFD\uFFFD", which JavaScript tells apart, have one field |
| `Names.RunesWriteBack` | backend/mangle.go:97-112 | Reading a name's runes and writing them again gives it back exactly when it is valid UTF-8 |
| `Names.NeverGenerated` | backend/mangle.go:65-85 | No mangled name or field name is one the emitter makes up: ts_read, ts_domain, ts_co, ts_module, ts_of, ts_i, ts_sites, ts_acc_, ts_layout, ts_shape, and ts_k, ts_t, ts_r, ts_m, ts_set and ts_delete with a number |
| `GoWords.NeverAWord` | backend/mangle.go:20-81 | No Go name made for a program's name or property is a keyword of Go's, main, init or the runtime's package; and one is a predeclared identifier exactly for the name comparable, which the source's list does not hold |
| `GoWords.AlwaysAnIdentifier` | backend/mangle.go:65-112 | Every Go name made is letters, digits and underscores, not beginning with a digit |
| `GoWords.NeverAMethod` | backend/emit_object.go:56-71 | No property's field is named Layout, Field or CloneObject |
| `Names.Mangle` | backend/mangle.go:65-81 | On bytes, its tests and all: the text mangle gives for the runes |
| `Names.FieldName` | backend/emit_object.go:63-71 | On bytes: the text fieldName gives for the runes |
| `Names.Escape` | backend/mangle.go:97-112 | On bytes: the loop over the runes writes each one's escape |
| `Names.EscapeReads` | backend/mangle.go:97-112 | An escaped name reads back as its runes, one at a time |
| `NameText.MangleReads` | backend/mangle.go:65-112 | On text: mangle has a left inverse |
| `NameText.FieldNameReads` | backend/emit_object.go:56-71 | On text: fieldName has one too |
| `Uri.DecodesPieces` | backend/runtime/uri.go:91-134 | Any string decodes to r if and only if it is text without % and escape runs of valid UTF-8, in pieces that mean r |
| `Uri.DecodeThrows` | backend/runtime/uri.go:91-134 | Decoding throws if and only if, past such pieces, a % begins no escaped sequence of UTF-8 |
| `PowerOfTwoDigits.NumPow2Digits` | backend/runtime/num_parse.go:193-226 | The double nearest the value of the longest run of digits, a tie going to the even one, and Infinity past the largest |
| `StringReplace.ReplacedLength` | backend/runtime/str_search.go:278-285 | The length replaceAt counts is the length of the units it would write |
| `StringReplace.CountUnits` | backend/runtime/str_search_ascii.go:198-208 | replacedLength is the length of the units replaceASCII would write |
| `StringReplace.NoMoreUnits` | backend/runtime/str_search_ascii.go:177-184 | Where the bytes are within the limit the code units are, so counting them can be left out |
| `StringMethods.ToUint32` | backend/runtime/str_search.go:119-124 | The truncated limit modulo 2^32, and 0 for NaN and the infinities |
| `DomainObjects.Domain.RunDrain` | backend/runtime/domain.go:111-130 | In place, whatever each microtask does: the queue is run down, jobs queued on the way included, a failure due on the next tick raised before each, and the rejections checked last; the end and what is left are said |
| `DomainObjects.Domain.TakeTurn` | backend/runtime/domain.go:117-124 | In place: one turn of the loop takes the first microtask, sets the phase and runs it |
| `DrainRuns.RunsInOrder` | backend/runtime/domain.go:103-127 | First in, first out: the microtasks run and those left are the ones there were and the ones queued meanwhile, in order, each once |
| `DrainRuns.QuietIsOver` | backend/runtime/domain.go:105-130 | A drain that ends quiet has run every microtask there was or came, has no failure waiting, and has seen every noted rejection handled |
| `Strings.Clamps` | backend/runtime/str.go:317-344 | position and relative are the clamps of section 22.1.3 of ECMA-262 over ToIntegerOrInfinity, NaN, the infinities and negatives included |

## Left out

- HTTP, output, signals, the CLI, `go build`, report text, util.inspect, case and width tables.
- Lowering that asks the TypeScript compiler for types or symbols: the race rule's call graph and direct uses are inputs, and so is which bindings are Stable.
- try: expressions are only what they answer (a value, a throw, a panic); function literals, which have try state of their own, are therefore not statements here. Go's types, scopes and line numbers are not modelled; catch bindings are names that no other statement reuses.
- TryTheorem.CompiledExactly: for bodies as lowering gives them, a return carrying a value exactly when the function's does and every break and continue inside a loop.
- Scheduler: NewPromise's executor and its two functions are steps of the program's code that settle a promise; in the transition system values a promise is fulfilled with are not carried, reasons are. Next-tick failures (but for drain's, in the class), a module's five hops to its report (`failAfter`) and the use of a promise in another domain are left out. A runtime panic carries no value. Channel handoffs are atomic, as Go's memory model allows them to be read.
- Scheduler: the loops of drain and abort, whose bodies run closures, are steps of the transition system; the class has drain over a script of what each microtask does, and abort not at all.
- Spawning: the tasks inside a spawned domain are single steps, its timers and its own spawns one flag; copying a result while the domain is busy is `GraphClone`'s; a failure after the result is delivered, which ends the process, is not modelled.
- Timers: a delay's multiplication by 10^6 is not rounded; the callbacks fireDue's loop runs are steps of the transition system.
- Strings: `StrReplace` with one match, pad, repeat, trim, case, `charAt` and `toWellFormed`. Go's 64-bit int is unbounded here, which no string's length can tell; lengths replaceAll adds up as floats are exact.
- StringCompare.StrCompare: for canonical strings; so are `StringMethods.SplitJoins` and the meaning `StringReplace.ReplaceAllMeans` gives.
- StringAccumulator.StrAcc.Append: unsafe pointers are block identity and a place in the block.
- JSON: only the quoting of strings; gaps, objects and numbers are left out.
- EvaluationOrder: `let` holds, `??` and `?.` are left out; object and array literals, conversions and operators are one kind of operation, which Go spells as a call or not. A check the runtime makes and Node does not (an element outside its array, an unwrap of nothing) throws in what an expression means as it does in Go. That ts_read(x.path) reads x.path at its call is assumed, of ts_read alone: Go's specification does not say so, nor does it of the receiver of `o.ts_layout.Has(i)`, which is left free.
- GraphClone: no field is of type unknown, which the source leaves shared; an object's table of optional properties is one value, never changed in place.
- GraphClone.Clone: each object and array has one slot type, scalars, null and references, in place of Go's type switch.
- RaceRule: positions and messages of diagnostics.
- Numbers: `numGenericDigits` and `numDecimalValue`, which leave their rounding to strconv and to floats. FormatFloat is taken to round half to even exactly, Frexp and Ldexp to be exact.
- Names: which characters are letters and digits is a parameter that is right on ASCII and on U+FFFD.
- IR validation and the plain array methods.
