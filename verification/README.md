# Verified models of ESP-ADF's core

Dafny models of the parts of ESP-ADF with the most intricate logic, with proofs of what those parts
are relied on for. `dafny verify dfyconfig.toml` checks everything; `Basics.dfy` holds what the
models share.

**The ring buffer** (`ringbuf.c`) that connects audio elements. `RingCore.dfy` has the circular
store as a value and proves that its wrapping copies are a queue's operations; `RingObject.dfy` the
object with `rb_read` and `rb_write` as calls that nobody disturbs. `RingControl.dfy` splits the
same calls into the atomic steps two tasks interleave by (take the mutex, one critical section,
release, test a flag, wait, wake), each task with a program counter. `RingRuns.dfy` proves over all
runs with which lengths of calls the tasks can put each other to sleep for good, and with which they
cannot; `RingFifo.dfy` that bytes come out as they went in, that short reads are whole words, and
what RB_DONE says about bytes left behind; `RingReturns.dfy` what each call of each run returns.

**The Kconfig engine** (`kconfiglib.py`). `KconfExpr.dfy`: tristate expressions. `KconfParse.dfy`
and `KconfReparse.dfy`: parser and printer. `KconfBlocks.dfy`: conditions pushed down through nested
blocks. `Kconfig.dfy`: what every symbol's value is, defined without a cache; `KconfLevels.dfy`: that
the evaluation levels it uses exist and do not matter; `KconfValues.dfy`: when a user value, a default,
a range or a select decides a value, said without the functions that compute it. `KconfFrame.dfy`: what those values depend
on. `KconfDeps.dfy` and `KconfCache.dfy`: the engine with its caches, dependents and invalidation.
`KconfRuns.dfy`: whole sessions. `KconfChoice.dfy`: choices.
`KconfText.dfy`, `KconfFile.dfy`, `KconfLines.dfy`, `KconfRoundTrip.dfy`, `KconfLostLines.dfy`: `.config`
files.

**The element task** (`audio_element.c`, `audio_event_iface.c`): `ElementTask.dfy` is the command-queue
state machine, `ElementRuns.dfy` what holds over every run of it.

**Pipeline wiring** (`audio_pipeline.c`): `PipelineLinks.dfy` has link, unlink, breakup and relink;
`PipelineLedger.dfy` the conservation of buffers; `PipelineChain.dfy` what a wired chain is;
`PipelineDeal.dfy` and `PipelineRelink.dfy` when relinking wires one; `PipelineBreakup.dfy` and
`PipelineRounds.dfy` the first round; `PipelineSecondRound.dfy` how a second one can fail.

**WebSocket framing** (`transport_ws.c`): `WebSocket.dfy`, against a decoder written from sections
5.2 and 5.3 of RFC 6455.

## Where code and promise differ

Each of these comes with the exact condition under which the code does what is expected.

- Long calls can put reader and writer to sleep for good: a read longer than the buffer, or a write
  that does not fit beside the up to three bytes a reader may refuse to take (`DeadlockExactly`).
- RB_DONE can leave any number of bytes behind, namely what was written after the reader's last look
  (`DoneMeansDrained`, `DoneCanLeaveBytes`).
- `unset_user_value` on MODULES leaves stale values, since only `set_user_value` treats it specially
  (`UnsetModulesLeavesStale`, `DropIsRightExactly`); the cache stays right whenever MODULES keeps its
  value.
- A `.config` written after reloading lacks lines the first one had exactly when a visible symbol
  belongs to an optional choice that stands in mode "y" with nothing selected (`SecondFileIsSame`,
  `SecondFileDiffers`). The values are the same.
- An "m" parsed where it is not rewritten keeps its value when it is read back as a condition exactly
  while MODULES is not "n" (`ConditionsSurviveExactly`).
- A full command queue loses the end of a stream, and callers of resume can fill it
  (`ResultIsQueued`, `EndCanBeLost`).
- After a second breakup and relink two elements can share an output buffer, because a buffer that
  changes hands keeps its old `host_el` (`RelinkWiresExactly`, `SecondRelinkCrossesBuffers`).
- `ws_write` frames decode exactly up to 65535 bytes (`WriteThenDecode`).

The header of the pipeline speaks of keeping what the caller of breakup names; the code keeps the
first linked element with an output as well, ignores NULL buffers and never sets `linked` in relink.
The model follows the code. The guard of the element task against messages that do not come from an
element cannot be met, since nothing else can write to its queue (`EndedTaskRestarts`).

## Model

Lines are those of the cited files.

| member | source | states |
|---|---|---|
| `RingCore.PopIsDequeue` | components/audio_pipeline/ringbuf.c:197-214 | taking n bytes, in two pieces when they wrap, delivers the first n of the contents and leaves the rest, cursors still congruent and within 0..size |
| `RingCore.PushIsEnqueue` | components/audio_pipeline/ringbuf.c:275-290 | storing d, in two pieces when it wraps, appends d to the contents and disturbs nothing stored |
| `RingCore.ShortReadStarves` | components/audio_pipeline/ringbuf.c:160-179 | after a section that took less than was asked for, the next one takes nothing |
| `RingObject.RingBuffer.Create` | components/audio_pipeline/ringbuf.c:56-87 | no buffer for a block below two bytes or without memory; otherwise an empty one of that size, none being a size too, with all flags down |
| `RingObject.RingBuffer.Reset` | components/audio_pipeline/ringbuf.c:111-124 | empties the buffer and lowers the flags, whatever state its cursors were in; the semaphores stay |
| `RingObject.RingBuffer.DoneWrite` | components/audio_pipeline/ringbuf.c:353-361 | raises the flag, wakes the reader, leaves the contents |
| `RingObject.RingBuffer.ReadSection` | components/audio_pipeline/ringbuf.c:153-220 | the critical section of a read takes the longest prefix of the contents the word rule allows |
| `RingObject.RingBuffer.WriteSection` | components/audio_pipeline/ringbuf.c:243-294 | the critical section of a write appends as much of the source as fits |
| `RingObject.RingBuffer.ReadLoop` | components/audio_pipeline/ringbuf.c:153-220 | the loop over sections ends, with a prefix of the contents cut at whole words, and with the code its flags call for |
| `RingObject.RingBuffer.Read` | components/audio_pipeline/ringbuf.c:143-231 | a read that runs alone returns the number of bytes it took if it took all or met no abort, RB_ABORT if it met one, whatever it took, and RB_DONE or RB_TIMEOUT only if it took nothing; it removes exactly what it returns, and wakes the writer only if it took something |
| `RingObject.RingBuffer.WriteLoop` | components/audio_pipeline/ringbuf.c:243-294 | a write that runs alone stores a prefix of the source, all of it if there is room |
| `RingObject.RingBuffer.Write` | components/audio_pipeline/ringbuf.c:233-304 | the same for a write that runs alone, which appends exactly the prefix it counts and wakes the reader only if it stored something |
| `RingControl.StartInv` | components/audio_pipeline/ringbuf.c:56-87 | a fresh buffer satisfies the invariant of the protocol |
| `RingControl.ReaderSectionKeepsInv` | components/audio_pipeline/ringbuf.c:153-214 | the invariant survives any reader section |
| `RingControl.WriterSectionKeepsInv` | components/audio_pipeline/ringbuf.c:243-294 | the invariant survives any writer section |
| `RingControl.StepKeepsInv` | components/audio_pipeline/ringbuf.c:143-304 | each of the steps of either task, or of anyone giving a semaphore or raising a flag, keeps mutual exclusion, the bounds, the wake-up condition (what changed since a starved task looked, and it was not told, is what the other side moved in its current call) and what a starved reader left behind |
| `RingRuns.RunKeepsInv` | components/audio_pipeline/ringbuf.c:143-304 | the invariant holds in every reachable state of every interleaving |
| `RingRuns.NoDeadlock` | components/audio_pipeline/ringbuf.c:143-304 | unless reads may exceed the size, or a write does not fit beside the up to three bytes a reader may refuse to take, no reachable state has both tasks asleep, and whenever both are inside a call one can move without a timeout |
| `RingRuns.ModerateLengths` | components/audio_pipeline/ringbuf.c:143-304 | writes of at most size-3 and reads of at most size bytes are among these lengths |
| `RingRuns.DeadlockExactly` | components/audio_pipeline/ringbuf.c:143-304 | for every size and all bounds on the lengths a state with both tasks asleep is reachable if and only if w >= 1, r >= 1, and r > size or w + min(3, r-1) > size |
| `RingRuns.LongWriteDeadlocks` | components/audio_pipeline/ringbuf.c:233-304 | the run for a write that does not fit beside what the reader refuses |
| `RingRuns.LongReadDeadlocks` | components/audio_pipeline/ringbuf.c:143-231 | the run for a read longer than the buffer |
| `RingFifo.FifoInEveryRun` | components/audio_pipeline/ringbuf.c:153-294 | in every interleaved run the bytes written are those delivered followed by the contents, in order; fill stays within the size and the cursors are congruent modulo it |
| `RingFifo.ShortReadIsWords` | components/audio_pipeline/ringbuf.c:160-179 | in every run a read that returns fewer bytes than asked for returns a multiple of four |
| `RingFifo.DoneMeansDrained` | components/audio_pipeline/ringbuf.c:160-230 | for every read that returns RB_DONE: what is undelivered is what its last critical section left, always below four bytes, plus what was written after it; so fewer than four bytes remain if and only if the two are below four together, none if and only if both are none, and, with whole words read and written, none if and only if nothing was written after |
| `RingFifo.DoneCanLeaveBytes` | components/audio_pipeline/ringbuf.c:212-230 | any number of bytes up to the size can be written in between |
| `RingReturns.ReadReturns` | components/audio_pipeline/ringbuf.c:143-231 | for every read of every run, from its start to its return: it returns the number of bytes it delivered, if that is all or some and it met no abort; RB_ABORT if it met one, whatever it delivered; RB_DONE or RB_TIMEOUT, whichever it met, only if it delivered nothing; it met none of them if and only if it delivered all |
| `RingReturns.WriteReturns` | components/audio_pipeline/ringbuf.c:233-304 | the same for every write, and what it added to the bytes written is the prefix of its data it counts |
| `KconfExpr.EvalFrame` | docs/kconfiglib.py:1390-1442 | the value of an expression depends on the symbols `_get_expr_syms` collects from it and on no others |
| `KconfExpr.EvalConcat` | docs/kconfiglib.py:1403-1433 | evaluating joined operand lists gives the minimum or maximum of the two |
| `KconfExpr.AndIsLeast` | docs/kconfiglib.py:1403-1414 | `&&` is not above any of its operands and is one of them, "y" without any |
| `KconfExpr.OrIsGreatest` | docs/kconfiglib.py:1422-1433 | `||` is not below any of its operands and is one of them, "n" without any |
| `KconfExpr.DeMorgan` | docs/kconfiglib.py:1403-1433 | `!` exchanges `&&` and `||` over operand lists of any length |
| `KconfExpr.NotExchanges` | docs/kconfiglib.py:1416-1420 | `!` exchanges "y" and "n", leaves "m", and undoes itself |
| `KconfExpr.RelationsDecide` | docs/kconfiglib.py:1435-1439 | of = and != exactly one is "y" and the other "n", the first if and only if the texts agree |
| `KconfExpr.AtomsMean` | docs/kconfiglib.py:1391-1399 | what constants and symbols evaluate to, "n" for a symbol that is neither bool nor tristate |
| `KconfExpr.PromotionMeans` | docs/kconfiglib.py:1371-1388 | an absent condition is "y", and "m" counts as "y" while modules are off |
| `KconfExpr.MakeAndIsMin` | docs/kconfiglib.py:3168-3188 | `_make_and` evaluates to the minimum, with None as "y", through list merging and promotion of "m" |
| `KconfExpr.MakeOrIsMax` | docs/kconfiglib.py:3190-3212 | `_make_or` evaluates to the maximum, with None as "y" |
| `KconfParse.Feed.GetNext` | docs/kconfiglib.py:3070-3075 | the next token is taken, nothing past the end |
| `KconfParse.Feed.PeekNext` | docs/kconfiglib.py:3077-3078 | the next token, left in place |
| `KconfParse.Feed.Check` | docs/kconfiglib.py:3080-3086 | takes the next token exactly when it is the one asked for |
| `KconfParse.Feed.ReadExpr` | docs/kconfiglib.py:1133-1143 | the loop over `||` reads what the grammar says, to the same position or the same error |
| `KconfParse.Feed.ReadMoreTerms` | docs/kconfiglib.py:1141-1143 | the loop appends every further term until there is no `||` |
| `KconfParse.Feed.ReadTerm` | docs/kconfiglib.py:1145-1154 | the same for `&&` |
| `KconfParse.Feed.ReadMoreFactors` | docs/kconfiglib.py:1152-1154 | the loop appends every further factor until there is no `&&` |
| `KconfParse.Feed.ReadFactor` | docs/kconfiglib.py:1156-1188 | a factor is read as the grammar says, with the two errors for malformed input |
| `KconfParse.Feed.ReadRelation` | docs/kconfiglib.py:1159-1178 | an operand becomes a relation if = or != follows, otherwise itself, or "m" && MODULES for m in a condition |
| `KconfParse.ParserProduces` | docs/kconfiglib.py:1133-1188 | whatever is parsed, operator lists have two members or more, and in conditions no bare m survives outside its rewriting |
| `KconfReparse.ExprBack` | docs/kconfiglib.py:3260-3315 | the printed form of any such expression, with anything after it that cannot continue it, parses to exactly the flattened, rewritten tree and leaves the rest |
| `KconfReparse.AgainKeepsValue` | docs/kconfiglib.py:1390-1442 | that tree has the value of the original, under every assignment if no bare m was left in it, otherwise under those in which m is "m" and MODULES is not "n" |
| `KconfReparse.PrintThenParse` | docs/kconfiglib.py:3260-3315 | for every token list that parses, with or without the rewriting of m, printing the result and parsing it again, with or without it, succeeds and consumes everything; the value is the same under every assignment, except that what was parsed without the rewriting and is read back with it needs MODULES not to be "n" |
| `KconfReparse.ConditionsSurviveExactly` | docs/kconfiglib.py:1162-1169 | under an assignment in which m is "m", everything parsed without the rewriting keeps its value when read back as a condition if and only if MODULES is not "n" |
| `KconfReparse.AndMeans` | docs/kconfiglib.py:1145-1154 | the tokens of a, && and b parse, wholly, to something with the minimum of their values, with or without the rewriting of m |
| `KconfReparse.OrMeans` | docs/kconfiglib.py:1133-1143 | the tokens of a || b && c parse to the maximum of a and the minimum of b and c |
| `KconfReparse.NotMeans` | docs/kconfiglib.py:1177-1178 | the tokens of ! and a parse to something that is "y" where a is "n" and "n" where a is "y" |
| `KconfReparse.MMeans` | docs/kconfiglib.py:1162-1169 | a bare m parses to "m", and in a condition to the minimum of "m" and MODULES |
| `KconfReparse.RelationMeans` | docs/kconfiglib.py:1171-1175 | two operands around = or != parse to the comparison of their texts |
| `KconfBlocks.Parser.constructor` | docs/kconfiglib.py:2275-2312 | no prompts, defaults or reverse dependencies at first |
| `KconfBlocks.Parser.JoinLines` | docs/kconfiglib.py:852-863 | several `depends on` lines are joined by `_make_and` |
| `KconfBlocks.Parser.PlaceDefaults` | docs/kconfiglib.py:1062-1071 | each default gets the dependencies of its definition and of the blocks around it |
| `KconfBlocks.Parser.RecordSelects` | docs/kconfiglib.py:1073-1086 | each select is or-ed into its target's reverse dependency |
| `KconfBlocks.Parser.ParseProperties` | docs/kconfiglib.py:1040-1086 | one definition adds its prompt, defaults and selects and touches nothing else |
| `KconfBlocks.Parser.ParseItem` | docs/kconfiglib.py:707-780 | if, menu and choice blocks hand down their conditions |
| `KconfBlocks.Parser.ParseBlock` | docs/kconfiglib.py:615-780 | a block does this for its items in order |
| `KconfBlocks.LeastIsMinimum` | docs/kconfiglib.py:3168-3188 | the reference value is below every condition and is one of them |
| `KconfBlocks.PropagationIsMinimum` | docs/kconfiglib.py:1040-1086 | at any nesting, each prompt evaluates to the minimum of its own condition, its definition's dependencies, all enclosing ifs and menus and all enclosing `visible if`s; each default likewise without the last; each reverse dependency to the maximum over all selects of the minimum of the selecting symbol, the condition and everything around |
| `KconfBlocks.NestedVisibility` | docs/kconfiglib.py:3147-3166 | the greatest of the gathered prompt conditions is the greatest over the definitions of the least of all conditions around |
| `KconfBlocks.DeadBlock` | docs/kconfiglib.py:707-753 | nothing below a block whose condition is "n" is visible or selects anything |
| `Kconfig.SourcesAreLower` | docs/kconfiglib.py:1462-1503 | everything a value is computed from comes earlier in the evaluation order |
| `KconfFrame.ValueFrame` | docs/kconfiglib.py:1872-2026 | a symbol's value, write flag and visibility depend only on its references, its siblings' and the user values of its choice |
| `KconfFrame.RecomputeIsFixpoint` | docs/kconfiglib.py:1872-2026 | the recomputed values satisfy every symbol's own equation at once |
| `KconfValues.TriLaw` | docs/kconfiglib.py:1909-1937 | a bool or tristate outside choices is what the user set, as far as it is visible; else the first default whose condition holds, as far as it does; else "n"; raised to the greater of that and the reverse dependency if it is selected, with "m" as "y" for a bool; and it is written if it is visible, selected or has such a default |
| `KconfValues.UserValueCounts` | docs/kconfiglib.py:1914-1918 | a fully visible bool that nothing selects has the value the user gave it, whatever its defaults |
| `KconfValues.SelectRaises` | docs/kconfiglib.py:1929-1933 | a selected symbol is at least its reverse dependency, whatever the user or the defaults say |
| `KconfValues.OwnSourcesStay` | docs/kconfiglib.py:1462-1503 | no assignment to a symbol changes its own visibility or reverse dependency, or the value of MODULES |
| `KconfValues.SetThenGet` | docs/kconfiglib.py:2171-2203 | after set_user_value with a valid value get_value answers it, as far as the symbol is visible, unless it is selected |
| `KconfValues.SetOrRefuse` | docs/kconfiglib.py:2374-2420 | what is assigned, and that special and undefined symbols and values invalid for the type are refused |
| `KconfValues.StringLaw` | docs/kconfiglib.py:2009-2023 | a string is what the user set if it is visible, else its first default whose condition holds, else empty |
| `KconfValues.NumberLaw` | docs/kconfiglib.py:1939-2007 | an int or hex is what the user set, verbatim, if it is visible and that is a number within the first range whose condition holds; else the first default that holds and is a number, verbatim within the range and otherwise the nearer bound; else the lower bound if it is positive, else the last default that holds |
| `KconfValues.VisibilityLaw` | docs/kconfiglib.py:3147-3166 | visibility is the greatest of the prompt conditions, bounded by the visibility of the choice, "y" for "m" if the symbol is not tristate |
| `KconfValues.ChoiceVisibilityLaw` | docs/kconfiglib.py:3147-3166 | the same for a choice |
| `KconfDeps.ClosureIsReachability` | docs/kconfiglib.py:2469-2492 | following dep edges and choice siblings as `_get_dependent` does gives exactly the symbols reachable by them, without the symbol itself |
| `KconfDeps.UnaffectedValue` | docs/kconfiglib.py:2360-2372 | assigning to a symbol changes no value outside that set |
| `KconfDeps.UnaffectedVisibility` | docs/kconfiglib.py:3147-3166 | nor any visibility |
| `KconfDeps.UnaffectedChoice` | docs/kconfiglib.py:2712-2754 | nor the visibility or selection of any choice without a symbol in it |
| `KconfCache.DropAffectedIsCoherent` | docs/kconfiglib.py:2360-2372 | after an assignment, dropping the caches of the affected symbols and their choices leaves only entries that recomputation confirms |
| `KconfCache.DropAllIsCoherent` | docs/kconfiglib.py:1552-1558 | dropping everything is right after any assignments |
| `KconfCache.DropIsRightExactly` | docs/kconfiglib.py:2360-2372 | dropping a set of symbols is right for every coherent cache if and only if every symbol and choice whose value, visibility or selection changes loses its entries; with what MODULES affects as the set, this says which symbols unsetting it leaves stale |
| `KconfCache.Engine.constructor` | docs/kconfiglib.py:2275-2358 | an empty cache is coherent |
| `KconfCache.Engine.EvalRecM` | docs/kconfiglib.py:1390-1442 | evaluation through the caches gives the cache-free value and leaves the caches coherent |
| `KconfCache.Engine.EvalM` | docs/kconfiglib.py:1371-1388 | the same with promotion of "m" by the value of MODULES |
| `KconfCache.Engine.GetVisibility` | docs/kconfiglib.py:3147-3166 | the cached or computed visibility of a symbol is the recomputed one |
| `KconfCache.Engine.ChoiceVisM` | docs/kconfiglib.py:3147-3166 | the same for a choice |
| `KconfCache.Engine.GetMode` | docs/kconfiglib.py:2797-2808 | the mode of a choice is the recomputed one |
| `KconfCache.Engine.SelectionFromDefaults` | docs/kconfiglib.py:2733-2754 | the default selection is the recomputed one |
| `KconfCache.Engine.GetSelection` | docs/kconfiglib.py:2712-2731 | the cached or computed selection is the recomputed one |
| `KconfCache.Engine.ChoiceTriM` | docs/kconfiglib.py:1895-1907 | the value of a choice symbol by the mode and selection of its choice |
| `KconfCache.Engine.PlainTriM` | docs/kconfiglib.py:1909-1937 | the value of any other bool or tristate is the cache-free one, which TriLaw describes |
| `KconfCache.Engine.StrOutcomeM` | docs/kconfiglib.py:2009-2023 | the value of a string symbol is the cache-free one, which StringLaw describes |
| `KconfCache.Engine.NumOutcomeM` | docs/kconfiglib.py:1939-2007 | the value of an int or hex symbol is the cache-free one, which NumberLaw describes |
| `KconfCache.Engine.GetValue` | docs/kconfiglib.py:1872-2026 | the returned value and write flag, cached or not, are those of recomputation from the current user values; the caches stay coherent |
| `KconfCache.Engine.GetDependent` | docs/kconfiglib.py:2469-2492 | terminates on acyclic configurations and returns exactly the reachable set without the symbol itself, with its memo on |
| `KconfCache.Engine.Invalidate` | docs/kconfiglib.py:2360-2368 | of the whole cache exactly the entries of the symbol and of its choice are gone, none for a special symbol |
| `KconfCache.Engine.InvalidateChoice` | docs/kconfiglib.py:2919-2921 | the selection and visibility of a choice are gone, nothing else |
| `KconfCache.Engine.InvalidateAll` | docs/kconfiglib.py:1552-1558 | only special values stay cached, and the caches are coherent |
| `KconfCache.Engine.InvalidateAffected` | docs/kconfiglib.py:2360-2372 | drops the caches of exactly the affected symbols |
| `KconfCache.Engine.SetUserValue` | docs/kconfiglib.py:2171-2203 | assigns as the engine validates, and every remaining cache entry is right for the new user values |
| `KconfCache.Engine.UnsetUserValue` | docs/kconfiglib.py:2205-2210 | the same for unsetting, for MODULES as long as it keeps its value |
| `KconfCache.Engine.UnsetAll` | docs/kconfiglib.py:556-560 | unsets every value; the caches stay coherent |
| `KconfRuns.Session` | docs/kconfiglib.py:1872-2210 | under any interleaving of set_user_value, unset_user_value, get_value, get_visibility and get_selection every answer is the cache-free one for the user values of that moment |
| `KconfRuns.UnsetModulesLeavesStale` | docs/kconfiglib.py:2205-2210 | unsetting MODULES can leave a cached value that recomputation contradicts |
| `KconfChoice.SelectedIsVisibleMember` | docs/kconfiglib.py:2712-2754 | what a choice selects is one of its symbols and visible |
| `KconfChoice.OnlySelectedIsY` | docs/kconfiglib.py:1895-1907 | in mode "y" a symbol is "y" if and only if it is the selection |
| `KconfChoice.ChoiceSymbolLaw` | docs/kconfiglib.py:1895-1907 | a choice symbol that is not visible, or whose choice is in mode "n", is "n" and not written; in mode "y" the selection is "y" and the others "n"; in mode "m" those the user set to "m" or "y" are "m" and the others "n"; these are written |
| `KconfChoice.SelectionLaw` | docs/kconfiglib.py:2712-2754 | a choice selects nothing unless its mode is "y"; then what the user selected if fully visible; then nothing if it is optional; then the symbol of the first default whose condition holds, or its first symbol without one, if visible; then its earliest visible symbol |
| `KconfChoice.ModeLaw` | docs/kconfiglib.py:2797-2808 | the mode in terms of what was asked for, the visibility of the choice and MODULES, in all cases |
| `KconfChoice.SetOnChoice` | docs/kconfiglib.py:2423-2431 | "y" selects the symbol and asks for mode "y"; "m" takes back the selection and asks for mode "m"; "n" does neither; other choices keep theirs |
| `KconfChoice.SetMGives` | docs/kconfiglib.py:2423-2431 | "m" for a visible symbol of a visible tristate choice, with modules on, puts the choice in mode "m" with that symbol "m" and none "y" |
| `KconfChoice.UnsetOnChoice` | docs/kconfiglib.py:2433-2438 | unsetting forgets the user value, the selection and the mode of that choice, and nothing of others |
| `KconfChoice.UnsetRestores` | docs/kconfiglib.py:2433-2438 | then an optional choice is off with all its symbols "n", and any other in mode "y" is back to its default selection |
| `KconfChoice.ChoiceGuarantee` | docs/kconfiglib.py:1892-1937 | mode "y": at most one symbol is "y", exactly one if the choice is not optional and a symbol is visible; mode "m": no tristate is "y"; mode "n": all are "n" |
| `KconfText.UnescapeEscape` | docs/kconfiglib.py:2459-2463 | the loader's two passes undo the writer's two passes on every string |
| `KconfText.EscapeMeans` | docs/kconfiglib.py:2459-2463 | the two passes of the writer put one backslash before each backslash and quote and change nothing else |
| `KconfText.ParseSetLine` | docs/kconfiglib.py:451-486 | a line the writer makes for a bool, tristate or number reads back as that assignment |
| `KconfText.ParseUnsetLine` | docs/kconfiglib.py:493-504 | an "is not set" line reads back as "n" |
| `KconfText.ParseStringLine` | docs/kconfiglib.py:462-469 | a string line reads back as the string, quotes and backslashes included |
| `KconfText.LinesOfText` | docs/kconfiglib.py:3100-3117 | lines joined by newlines split back into the same lines |
| `KconfFile.WriteConfig` | docs/kconfiglib.py:506-531 | the file has a line for each symbol whose recomputed write flag is up, with its recomputed value, in order |
| `KconfFile.MakeConf` | docs/kconfiglib.py:2440-2467 | the line of a symbol is appended if its recomputed write flag is up |
| `KconfLines.LineFormat` | docs/kconfiglib.py:2450-2463 | the text of a line for each type and value |
| `KconfLines.LinesInOrder` | docs/kconfiglib.py:506-531 | there are as many lines as flagged symbols, and the line of a flagged symbol comes after as many as there are flagged symbols before it |
| `KconfLines.LastLineCounts` | docs/kconfiglib.py:451-504 | of several lines that give a symbol a valid value the last counts |
| `KconfLines.UnnamedKeeps` | docs/kconfiglib.py:451-504 | a symbol that no line gives a valid value keeps what it had |
| `KconfLines.MalformedIsReported` | docs/kconfiglib.py:462-465 | loading fails if and only if some line holds a malformed string |
| `KconfFile.LoadConfig` | docs/kconfiglib.py:384-504 | loading, on top of the old values or in place of them, applies the lines in order and leaves the caches coherent; a malformed string is reported |
| `KconfFile.AssignQuietly` | docs/kconfiglib.py:2374-2431 | assigning without invalidation is right while everything is invalidated |
| `KconfFile.TextIsLoaded` | docs/kconfiglib.py:384-504 | the text of a written file loads to the assignments of its lines |
| `KconfFile.ReloadIsReloaded` | docs/kconfiglib.py:2374-2431 | what those assignments are: the written values, and for each choice with a symbol written as "y" such a symbol as selection and mode "y" |
| `KconfRoundTrip.FixpointIsUnique` | docs/kconfiglib.py:1872-2026 | values that satisfy every symbol's own equation are the recomputed ones |
| `KconfRoundTrip.LoadedIsFaithful` | docs/kconfiglib.py:384-504 | loading what was written gives back every written value and each selection |
| `KconfRoundTrip.RoundTrip` | docs/kconfiglib.py:384-531 | writing .config and loading it back leaves every symbol's value unchanged, numbers, choices and selects included |
| `KconfRoundTrip.SecondFileIsSame` | docs/kconfiglib.py:2440-2467 | the file written after reloading is identical if and only if no visible symbol belongs to an optional choice in mode "y" with nothing selected |
| `KconfLostLines.SecondFileDiffers` | docs/kconfiglib.py:2440-2467 | a configuration and an assignment that meet everything the round trip asks for, and whose second file differs |
| `KconfLevels.LevelsDoNotMatter` | docs/kconfiglib.py:1872-2026 | values do not depend on the evaluation levels of the model |
| `KconfLevels.LevelsExistExactly` | docs/kconfiglib.py:1462-1503 | a well-formed configuration has levels if and only if no symbol is evaluated, in any number of steps, from itself or a symbol of its choice |
| `ElementTask.Element.CmdSend` | components/audio_pipeline/audio_event_iface.c:250-257 | a message is queued, or lost and reported when the queue is full |
| `ElementTask.Element.ProcessStateInit` | components/audio_pipeline/audio_element.c:159-178 | open is called once and is_open set even if it fails; a failure queues an error |
| `ElementTask.Element.OnCommand` | components/audio_pipeline/audio_element.c:180-278 | the new state after each command, and whether the task goes on |
| `ElementTask.Element.ProcessStateRunning` | components/audio_pipeline/audio_element.c:280-322 | process is called only when open and not before RUNNING; its result queues FINISH, ERROR or nothing |
| `ElementTask.Element.WaitingCmdMsg` | components/audio_pipeline/audio_event_iface.c:239-248 | at most one command is taken and handled |
| `ElementTask.Element.TakeTurn` | components/audio_pipeline/audio_element.c:431-444 | one turn of the loop, or the way out of it |
| `ElementTask.Element.Task` | components/audio_pipeline/audio_element.c:416-450 | the loop over any sequence of turns |
| `ElementTask.Element.Run` | components/audio_pipeline/audio_element.c:911-940 | starts a task unless one is there: empty queue, INIT, stopped bit down |
| `ElementTask.Element.Stop` | components/audio_pipeline/audio_element.c:1030-1049 | asks for a stop unless already STOPPED, and reports a full queue |
| `ElementTask.Element.Pause` | components/audio_pipeline/audio_element.c:967-993 | asks for a pause below PAUSED |
| `ElementTask.Element.Resume` | components/audio_pipeline/audio_element.c:995-1028 | asks for a resume unless running, in error or finished |
| `ElementTask.Element.Terminate` | components/audio_pipeline/audio_element.c:942-965 | asks for the end of the task if there is one |
| `ElementRuns.TurnKeeps` | components/audio_pipeline/audio_element.c:431-444 | whatever arrives and however callbacks end, a turn leads from a sound loop head to a sound loop head or a sound exit, and takes commands in order |
| `ElementRuns.TaskKeeps` | components/audio_pipeline/audio_element.c:416-450 | this holds for whole lives of the task, foreign messages included |
| `ElementRuns.ElementStaysSound` | components/audio_pipeline/audio_element.c:180-450 | over every sequence of runs, stops, pauses, resumes, terminations, commands and turns: at loop heads RUNNING, is_open, is_running and polling agree; STOPPED, FINISHED and ERROR have the stopped bit, and the bit means closed; open and close alternate with process only in between; nothing is open after exit |
| `ElementRuns.EndedTaskRestarts` | components/audio_pipeline/audio_element.c:180-188 | over all these sequences a turn ends the task if and only if it meets a DESTROY or a RESUME whose open fails; the guard against messages that are not an element's is never taken; and the next task starts in a good state, in INIT, with an empty queue and the stopped bit down |
| `ElementRuns.HaltTakesEffect` | components/audio_pipeline/audio_element.c:189-252 | a queued STOP, FINISH, ERROR or PAUSE at position p is carried out, with its bit up and the element closed, within p+1 turns unless the task ends |
| `ElementRuns.DestroyEndsTask` | components/audio_pipeline/audio_element.c:271-275 | a queued DESTROY at position p ends the task within p+1 turns, closed and with the destroyed bit up |
| `ElementRuns.StopIsAnswered` | components/audio_pipeline/audio_element.c:1030-1049 | a stop that reports success finds the element STOPPED with the bit up, or it is so within as many turns as the queue is long, unless the task ends |
| `ElementRuns.PauseIsAnswered` | components/audio_pipeline/audio_element.c:967-993 | a pause that reports success finds the element paused or past that, or it is PAUSED, closed and with the paused bit up within as many turns as the queue is long, unless the task ends |
| `ElementRuns.TerminateIsAnswered` | components/audio_pipeline/audio_element.c:942-965 | a terminate that reports success finds no task, or the task ends, closed and with the destroyed bit up, within that many turns |
| `ElementRuns.HeadResumes` | components/audio_pipeline/audio_element.c:253-270 | a RESUME at the head of the queue opens the element, unless it runs, and calls process in the same turn; an open that fails is followed by close and the end of the task |
| `ElementRuns.ResumeTakesEffect` | components/audio_pipeline/audio_element.c:253-270 | a queued RESUME at position p has the element running, open and with the stopped bit down within p+1 turns unless the task ends |
| `ElementRuns.ResumeIsAnswered` | components/audio_pipeline/audio_element.c:995-1028 | so does a resume from INIT, PAUSED or STOPPED with room in the queue |
| `ElementRuns.RefusedRequests` | components/audio_pipeline/audio_element.c:942-1049 | exactly when stop, pause, resume and terminate fail, and that a refused one sends nothing |
| `ElementRuns.ResultIsQueued` | components/audio_pipeline/audio_element.c:287-318 | what is queued when process has returned: the command its result calls for is there, last, if and only if the messages waiting and those sent meanwhile are fewer than the queue holds |
| `ElementRuns.ResultTakesEffect` | components/audio_pipeline/audio_element.c:287-318 | with that room the element rests in FINISHED, or ERROR, after as many turns as there were messages and one more, unless the task ends |
| `ElementRuns.EndFinishes` | components/audio_pipeline/audio_element.c:291-303 | with that room AEL_IO_DONE or AEL_IO_OK leaves the element in FINISHED, closed and with the stopped bit up, after so many turns unless the task ends |
| `ElementRuns.FailureErrs` | components/audio_pipeline/audio_element.c:304-316 | with that room AEL_IO_FAIL or AEL_PROCESS_FAIL leaves it in ERROR, closed and with the stopped bit up |
| `ElementRuns.OthersGoOn` | components/audio_pipeline/audio_element.c:287-318 | any other result, aborts, timeouts and counts of bytes included, queues nothing and leaves it running |
| `ElementRuns.BurstKeepsFirst` | components/audio_pipeline/audio_event_iface.c:250-257 | of a burst of messages the queue keeps the first that fit |
| `ElementRuns.EndCanBeLost` | components/audio_pipeline/audio_element.c:291-303 | without it the end is lost: after six calls of resume, one of them while open runs, process has reported the end, the queue is full of resumes, and process is called again |
| `PipelineLinks.FirstTag` | components/audio_pipeline/audio_pipeline.c:75-85 | the first registered element with a tag, if any |
| `PipelineLinks.Pipeline.ItemByTag` | components/audio_pipeline/audio_pipeline.c:75-85 | the loop finds it |
| `PipelineLinks.Pipeline.SetInputRingbuf` | components/audio_pipeline/audio_element.c:694-701 | sets the input unless NULL |
| `PipelineLinks.Pipeline.SetOutputRingbuf` | components/audio_pipeline/audio_element.c:712-719 | sets the output unless NULL |
| `PipelineLinks.Pipeline.UnlinkPipeline` | components/audio_pipeline/audio_pipeline.c:415-446 | unmarks the linked elements and destroys the buffers of the list, each once |
| `PipelineLinks.Pipeline.LinkElements` | components/audio_pipeline/audio_pipeline.c:362-413 | links the tagged elements in order, stopping at the first unknown tag |
| `PipelineLinks.Pipeline.LinkOne` | components/audio_pipeline/audio_pipeline.c:374-408 | one element: marks, input, new output buffer |
| `PipelineLinks.Pipeline.BreakOne` | components/audio_pipeline/audio_pipeline.c:605-643 | one element: left alone, unlinked, released with its buffer, or kept with it |
| `PipelineLinks.Pipeline.ResetUnkept` | components/audio_pipeline/audio_pipeline.c:644-650 | buffers not kept are emptied and free; BreakupEmpties says so of the buffers themselves |
| `PipelineLinks.Pipeline.BreakupElements` | components/audio_pipeline/audio_pipeline.c:595-655 | all of this in list order |
| `PipelineLinks.Pipeline.ClaimOne` | components/audio_pipeline/audio_pipeline.c:697-738 | the buffer an element gets: its own, an unused one, or a new one |
| `PipelineLinks.Pipeline.RelinkOne` | components/audio_pipeline/audio_pipeline.c:671-751 | one element: its buffer, its input, its output |
| `PipelineLinks.Pipeline.RelinkElements` | components/audio_pipeline/audio_pipeline.c:657-754 | relinks the tagged elements in order, refusing a linked pipeline |
| `PipelineLedger.UnlinkKeeps` | components/audio_pipeline/audio_pipeline.c:433-444 | unlinking a linked pipeline empties the list, and each buffer that was in it has been destroyed exactly once |
| `PipelineLedger.BuffersAreConserved` | components/audio_pipeline/audio_pipeline.c:362-754 | over any sequence of link, unlink, breakup and relink, failing calls included, each buffer ever created is listed exactly once or was destroyed exactly once |
| `PipelineDeal.SpotsDifferExactly` | components/audio_pipeline/audio_pipeline.c:697-738 | all elements but the last get different buffers if and only if, for every kept element among them whose first buffer is unused, as many unused buffers that no kept element ahead of it owns come before that buffer as elements that were not kept come before it |
| `PipelineRelink.PickIsSpot` | components/audio_pipeline/audio_pipeline.c:697-738 | what the search of rb_list finds for each element is what that count is about |
| `PipelineRelink.RelinkFollows` | components/audio_pipeline/audio_pipeline.c:657-754 | from any state of the lists, relinking distinct registered elements succeeds and connects consecutive ones by these buffers, with nothing lost from any buffer |
| `PipelineRelink.RelinkWiresExactly` | components/audio_pipeline/audio_pipeline.c:657-754 | from any state of the lists each consecutive pair gets a buffer of its own if and only if that condition holds |
| `PipelineRelink.RelinkWires` | components/audio_pipeline/audio_pipeline.c:657-754 | it holds whenever the buffers of kept elements are kept; then kept elements get their own buffers, and every other element an unused or a new one |
| `PipelineBreakup.BreakupKeeps` | components/audio_pipeline/audio_pipeline.c:595-655 | kept are exactly the first registered element of the chain with an output and the one the caller named, each with its buffer and contents; every other buffer is unlinked and empty |
| `PipelineBreakup.BreakupEmpties` | components/audio_pipeline/audio_pipeline.c:644-650 | from any state of the lists with numbered buffers, after a breakup every buffer that is not kept is unlinked and holds nothing |
| `PipelineRounds.LinkWires` | components/audio_pipeline/audio_pipeline.c:362-413 | linking distinct elements succeeds, consecutive elements share an empty buffer made for the first of them, and all buffers differ |
| `PipelineRounds.LinkBreakupRelink` | components/audio_pipeline/audio_pipeline.c:362-754 | after linking, running, breaking up and relinking any distinct elements, consecutive pairs share one buffer, the buffers are distinct, each retained element that is not last keeps its output buffer with its contents, and every other gets an empty one |
| `PipelineRounds.UnlinkIsClean` | components/audio_pipeline/audio_pipeline.c:415-446 | unlinking a linked chain clears every mark and lists no buffer, so that it can be linked again |
| `PipelineRounds.LinkFailsExactly` | components/audio_pipeline/audio_pipeline.c:362-413 | linking succeeds, and leaves the pipeline linked, if and only if every tag is registered; the register of elements stays |
| `PipelineRounds.RelinkFailsExactly` | components/audio_pipeline/audio_pipeline.c:657-696 | relinking succeeds if and only if the pipeline is not linked and every tag is registered; a linked pipeline is left as it is |
| `PipelineSecondRound.SecondRound` | components/audio_pipeline/audio_pipeline.c:362-754 | the states of one link, breakup, relink, breakup and relink |
| `PipelineSecondRound.SecondRelinkCrossesBuffers` | components/audio_pipeline/audio_pipeline.c:697-738 | in the last of them the condition fails: two elements write the same buffer and one of them reads it |
| `WebSocket.WsWrite` | components/tcp_transport/transport_ws.c:162-196 | the header for the length and key; bit i of byte k of the payload becomes its sum modulo 2 with bit i of byte k modulo 4 of the key, in place, nothing else changed |
| `WebSocket.XorBit` | components/tcp_transport/transport_ws.c:188-190 | each bit of the exclusive or is the sum of the two bits modulo 2 |
| `WebSocket.MaskedIsTransformed` | components/tcp_transport/transport_ws.c:188-190 | the masking is the transformation of section 5.3 of RFC 6455, defined apart from it by the positions in which bits differ |
| `WebSocket.MaskTwice` | components/tcp_transport/transport_ws.c:188-190 | masking twice with one key gives the data back |
| `WebSocket.HeaderReads` | components/tcp_transport/transport_ws.c:174-184 | a peer reads the length modulo 65536 and the key from the header |
| `WebSocket.FirstByteCountsMost` | components/tcp_transport/transport_ws.c:220-236 | of the bytes of a length the first counts most |
| `WebSocket.WriteThenDecode` | components/tcp_transport/transport_ws.c:174-195 | the frame decodes, under sections 5.2 and 5.3 of RFC 6455 and with their own unmasking, to the payload if and only if it has at most 65535 bytes |
| `WebSocket.ReadHeader` | components/tcp_transport/transport_ws.c:213-236 | where the payload starts and how much is taken, cut to the buffer |
| `WebSocket.MoveDown` | components/tcp_transport/transport_ws.c:248 | the overlapping move copies the bytes as they were |
| `WebSocket.StaysInsideExactly` | components/tcp_transport/transport_ws.c:213-250 | the move stays inside the buffer if and only if the short form's field fits behind the header, for the 16-bit form always, and for the 64-bit form if the length fits an int |
| `WebSocket.WsRead` | components/tcp_transport/transport_ws.c:198-251 | then the payload as announced, cut to the buffer, ends up at the front of it |
| `WebSocket.AnnouncedIsLength` | components/tcp_transport/transport_ws.c:220-236 | for lengths that fit an int the three forms are read as the standard defines them |
| `WebSocket.ReadFrame` | components/tcp_transport/transport_ws.c:198-251 | a complete unmasked frame in any of the three length forms gives exactly its payload |

## Left out

- HTTP client, TLS and TCP transports, Wi-Fi, Bluetooth, DuerOS, cloud services, peripherals, board and codec code: plumbing over libraries and hardware.
- The handshake of `transport_ws.c`, polling, partial writes to the parent transport, and `ws_read` on masked frames, whose in-place unmasking overwrites its own key.
- WebSocket.WsRead: requires that the move stays inside the buffer, since the C code is undefined otherwise; `StaysInsideExactly` says when it does. `char` is unsigned as on the target.
- Bytes as bit patterns: the flags of a WebSocket header share no bits and are added, and exclusive or is defined bit by bit on numbers.
- `rb_reset` and `rb_abort` as steps of the protocol: the first takes no lock and the second gives the lock unconditionally, so both are for moments when no call is in progress.
- `rb_read` with a null buffer, negative lengths, and real time: a timeout is a step that may be taken at any moment of a wait.
- Kconfig files: lexing, `source`, help texts, comments, warnings, `__str__` output; the parser starts from tokens.
- KconfParse.Feed.ReadRelation: reports an error where the source builds a relation whose right side is not an operand; `referenced_syms` is not recorded.
- KconfBlocks.Parser.ParseBlock: does not model `range` conditions, which are not propagated, nor comments.
- Cyclic configurations, choices without symbols of their own, choice defaults from outside the choice, special symbols with prompts (nothing about them is ever invalidated), and a MODULES that depends on other symbols.
- Python's `int`, `str` and `hex` are given functions.
- KconfBlocks.NestedVisibility: is about prompts; the bound by a choice's visibility and the promotion for symbols that are not tristate are part of `SymVis`.
- KconfFile.WriteConfig: does not write the header, menu headings or comments.
- KconfRoundTrip.RoundTrip: assumes that MODULES is not defined, that strings have no newline, that names consist of word characters and that each symbol is listed once; menu headings, comments, carriage returns and Unicode word characters are not modelled.
- `audio_element_reset_state`, elements without a task or without an open or close callback, memory exhaustion and task creation failure.
- ElementTask.Element.OnCommand: does not model the ring buffers it aborts and resets, or status reports.
- ElementTask.Element.Resume: does not model the optional wait for a buffer level.
- ElementTask.Element.Pause: ends where it starts to wait for its bit; `PauseIsAnswered` says when that goes up.
- ElementTask.Element.Terminate: ends where it starts to wait for its bit; `TerminateIsAnswered` says when that goes up.
- Pipeline listeners, states, and registration; tags are compared as given, already folded to one case.
- Freed memory: buffer numbers are never used twice, so a stale pointer never equals a new buffer.
