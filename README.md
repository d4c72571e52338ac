# SwiftX reactive engine, in Dafny

This project models the core of SwiftX, a small MobX-style reactive library
for Swift. The model covers:

- **Cells**: the `Observable` property wrapper and the shared `IObservable`
  behaviour. A cell keeps a reader set and reports every write.
- **Observers**: the shared `IObserver` behaviour. An observer keeps weak
  back-links to what it read. On every tracked run it prunes the links it
  did not read again.
- **Reactions**: `ObserverContext`. A reaction re-runs a tracked closure,
  hands the value to `onChange`, and can be cancelled once.
- **`Computed`**: a lazy, memoised value that is both a cell and an observer.
- **The coordinator**: `ObserverAdministrator`. It handles:
  - nested transactions, tracked with a flag;
  - the set of changed cells;
  - at most one pending flush;
  - the propagation pass, in which dependency counts make every observer fire
    once per pass, even through diamonds.
- **The debug detector**: `ReactionCyclicChangeDetector`, which flags a
  closure that both reads and writes one cell.

## How the model is built

- **One engine object.** `Reactive.Engine` is a single class that holds:
  - the coordinator's fields, under their Swift names;
  - a `Decl` table saying what each object was created as, with its code;
  - a `Node` per object holding that object's mutable fields (readers,
    back-links, `isObserving`, the tracking flag, the accessed set, the
    value, the `Computed` cache, the cancelled flag).

  Objects are numbered densely; the number stands for `ObjectIdentifier`.
- **Weak references.** A back-link is an id checked against the `alive` set.
- **Methods mirror the Swift.** Each Swift method is a method of the same
  name that updates those fields in place. Its contract ties the new state to
  a function of the old one (`Snap()` gathers every field into one
  `EngineState.State` value). The lemmas in `EngineState`, `Runs`, `Passes`,
  `Graph` and `Propagation` prove the properties over those functions.
- **Closures are terms.** The closures given to `autorun`, `reaction`,
  `computed` and `inTransaction` are `Closures.Expr` terms:
  - literals and tracked reads (`Get`);
  - sums and conditionals, so the set of cells read can change between runs;
  - writes (`Put`) and sequencing;
  - nested transactions (`Atomic`);
  - `runWithoutObserverContext` blocks (`Untracked`).

  A reaction's `onChange` stores the tracked value into a list of "sink"
  cells.
- **A closure only refers to older objects.** Every object a closure mentions
  was created before the closure's owner. So a reader is always newer than
  what it reads, and this is what makes `Computed.willUpdate` scheduling and
  the `onObserverCancelled` cascade terminate.
- **The flush is an explicit call.** The block that `_scheduleUpdate` puts on
  the main queue is counted in `queuedFlushes` and run by `Engine.Flush`.

What is proved includes:

- the reader and dependency edges stay symmetric (`Graph.Linked`, part of
  the engine's invariant): every reader of a live object lists it as a
  dependency; every live dependency of an observer lists that observer as
  a reader, unless the observer is a cancelled reaction; a `Computed` with
  no readers has no dependencies. Every read, tracked run, cancel, cascade
  and release keeps this;
- after every tracked run, an observer's dependencies lie between what the
  closure reads on every path and what it can read at all. For a closure
  that reads only cells they are exactly the reads of the path it took,
  given by the reference semantics `Closures.Run`;
- a closure that reads only cells yields `Run`'s value and leaves `Run`'s
  values in the cells, in reactions, `Computed`s and `inTransaction` alike;
- dropped dependencies that are still alive forget the observer, and a
  `Computed` that loses its last reader forgets its own dependencies in
  turn;
- every reader of a changed cell, and every reader of a scheduled
  `Computed`, is scheduled in the pass;
- every scheduled observer gets `updated()` exactly once per pass, at its
  last listing, and all counts end at 0 (this discharges the assertion at
  line 197);
- in a pass, a listed `Computed` gets `updated()` before each of its
  readers;
- the branch for a pending observer with no count is never taken;
- at most one flush block is ever enqueued;
- only the outermost transaction requests a flush;
- a write outside any closure is deferred: no observer runs until the flush;
- `Computed` serves its cache on a hit. On a miss it recomputes tracked when
  it has readers and untracked when it has none;
- a cancelled reaction never runs again: no read, write, tracked run,
  `updated()` call, pass or flush changes any object's cancelled flag
  (`Graph.SameCancelled`, part of every step and of `Flush`), and a
  cancelled reaction's `updated()` does nothing;
- a reaction depends only on objects its tracked function may read, in
  every settled state and throughout a flush (`Graph.DepsBounded`);
- a reaction's re-run lets no other reaction gain a dependency, and for a
  function over cells changes nothing but the reaction and the cells, each
  cell only in its value and in reading the reaction;
- the first round of a flush calls `updated()` on every reader of every cell
  changed before it; every round leaves the sinks of the reactions it ran in
  the changed set, so the next round propagates them;
- the states a flush goes through form a chain (`Passes.Rounds`). Each
  round empties the changed set and lists every reader of a changed cell.
  Then each visit of the walk either runs that observer's `updated()`, with
  the effect `Passes.Fired` states, or only counts down. Two of the
  library's tests, `testSettingStateInReaction` and
  `testConditionalObservingAutorun`, are stated in module `Scenarios` and
  follow from this chain;
- the detector flags every registration run that reads and writes the same
  cell on every path; for a closure that reads only cells it flags exactly
  the runs that read a cell they also write.

The model keeps these behaviours of the code as they are written:

- **An unobserved `Computed` read caches its result**
  (`SwiftX/Computed.swift:54`). The result is kept even though nothing is
  tracked. Such a cache has no upstream edges, so no later write clears it.
- **`Computed.willUpdate` is not a no-op.** It schedules the `Computed`'s own
  readers (`SwiftX/Computed.swift:89-91`), in the same pass.
- **`willUpdate` is called at scheduling time**
  (`SwiftX/ObserverAdministrator.swift:142`), not when the observer fires. The
  walk in `_updateCurrentObservers` makes one pass over the list in order:
  - the earlier occurrences of an observer only count down;
  - the last occurrence fires it;
  - no observer is deferred and revisited.
- **`Computed.init` does not run `computeFunc`**
  (`SwiftX/Computed.swift:63-70`).

## Model

| member | source | states |
|---|---|---|
| Closures.RunTracks | SwiftX/IObservable.swift:20-30 | the reads a closure makes on the path it takes include its reads on every path and are among those it can make |
| Closures.RunWrites | SwiftX/PropertyWrapper.swift:18-22 | the cells a closure writes on the path it takes include those written on every path and are among those it can write; no other cell changes |
| Graph.FreshNode | SwiftX/ObserverContext.swift:61-66 | a new object has no readers, no dependencies, is not observing, is not tracking removals, has an empty accessed set and no cached value |
| Graph.DidAccessNode | SwiftX/IObserver.swift:50-61 | `didAccess` adds the back-link (keeping an existing one), records the id as accessed only while tracking removals, and always sets `isObserving` |
| Graph.AddReadPreserves | SwiftX/IObservable.swift:20-25 | a read of `x` under context `o` makes `o` a reader of `x` and `x` a dependency of `o` (the edge in both directions), keeps the graph ordered, and changes nothing newer than `x` except `o`'s record of the read |
| Graph.AddReadLinked | SwiftX/IObservable.swift:20-25 | a tracked read keeps every reader and dependency edge of the whole graph symmetric (`Linked`) |
| Graph.AllocatePreserves | SwiftX/ObserverContext.swift:68-76 | creating an object whose closures name only existing live objects keeps the registry, the order of the graph, its symmetry and the quiet flags |
| Graph.DropReaderLinked | SwiftX/Computed.swift:78-85 | dropping one reader keeps the graph symmetric, except that a `Computed` left with no readers still has to forget its dependencies |
| Graph.ClearDepsLinked | SwiftX/IObserver.swift:63-70 | emptying an observer's dependencies after all of them forgot it restores symmetry |
| Graph.ShrinkLinked | SwiftX/IObserver.swift:36-48 | keeping only the accessed dependencies, after the dropped ones forgot the observer and the kept ones still list it, leaves the graph symmetric |
| Graph.ReadersAboveStep | SwiftX/Computed.swift:78-85 | a nested cascade below an object keeps every reader edge whose reader is newer than the one being cancelled |
| Graph.KeptReaders | SwiftX/IObserver.swift:39-45 | forgetting an observer at one dependency keeps it as a reader everywhere else |
| EngineState.ReportPreserves | SwiftX/ObserverAdministrator.swift:101-108 | `didUpdate` puts the cell in the changed set, records it with the detector, runs in a transaction of its own, and so requests a flush unless a transaction is already open |
| EngineState.ReportAllEffect | SwiftX/ObserverAdministrator.swift:101-108 | reporting cells any number of times leaves each in the changed set once, records every call, and enqueues at most one flush block, only if none was requested and no transaction is open |
| EngineState.StorePreserves | SwiftX/PropertyWrapper.swift:18-22 | a write stores the value into that cell only and keeps every invariant of the engine |
| EngineState.ReadPreserves | SwiftX/IObservable.swift:20-30 | with no context a read changes nothing; under context `o` the edge between `o` and the cell is added in both directions and the whole invariant, symmetry of all edges included, still holds |
| Propagation.BumpKeepsCountsMatch | SwiftX/ObserverAdministrator.swift:135-141 | starting an observer's count at 0 the first time it is scheduled and adding 1 each later time keeps every count equal to its number of listings minus one |
| Propagation.DrainFiresEachOnce | SwiftX/ObserverAdministrator.swift:179-195 | when counts equal listings minus one, the walk calls `updated()` on every listed observer exactly once and on nothing else |
| Propagation.DrainIsLasts | SwiftX/ObserverAdministrator.swift:179-195 | when counts equal listings minus one, the walk calls `updated()` on each listed observer at its last listing, in list order |
| Propagation.LastsOnce | SwiftX/ObserverAdministrator.swift:179-195 | the observers fired at their last listing are exactly the listed ones, each once |
| Propagation.LastsOrder | SwiftX/ObserverAdministrator.swift:135-142 | when every listing of `a` is followed by a listing of `b`, the walk fires `a` before `b` |
| Propagation.DrainAdvance | SwiftX/ObserverAdministrator.swift:187-193 | one visit of the walk (a zero count fires, any other count goes down by one) advances the pass by one listing |
| Propagation.DrainZeroesCounts | SwiftX/ObserverAdministrator.swift:179-197 | the walk leaves every listed observer's count at 0 and every other count unchanged |
| Propagation.PassOutcome | SwiftX/ObserverAdministrator.swift:174-200 | for a whole pass: every listed observer has a count, each is updated exactly once, and every count ends at 0 |
| Propagation.DiamondFiresOnce | SwiftX/ObserverAdministrator.swift:187-193 | an observer listed n times with count n - 1 is decremented n - 1 times and updated once, leaving its count at 0 |
| Runs.GetCellRun | SwiftX/PropertyWrapper.swift:35-38 | the getter makes one tracked read and yields the stored value |
| Runs.PairRun | SwiftX/ObserverAdministrator.swift:40 | running a closure body made of two parts (an `Add` or `Seq` term standing for Swift code that evaluates one expression after another) adds up the reads of both and composes their effects, with `Run` composing them for closures over cells |
| Runs.IfRun | SwiftX/ObserverAdministrator.swift:58 | running a closure body that branches (an `If` term standing for a Swift `if`) runs its condition, then only the branch it selects; the reads made on every path of both branches are made either way |
| Runs.PutRun | SwiftX/PropertyWrapper.swift:39-41 | the setter stores the value and reports the cell, and the write is recorded in the changed set and the detector |
| Runs.AtomicRun | SwiftX/ObserverAdministrator.swift:83-96 | the body runs with the flag set; only the outermost transaction clears it and requests a flush, while a nested one leaves both alone |
| Runs.UntrackedRun | SwiftX/ObserverAdministrator.swift:73-81 | the body runs with no context, and the caller's context is restored and records no reads |
| Runs.ComputedHitRun | SwiftX/Computed.swift:29-31 | on a cache hit the getter registers the caller as a reader and returns the cached value with no other change |
| Runs.ComputedTrackedRun | SwiftX/Computed.swift:45-52 | on a miss with readers, the Computed runs its function as the context inside the pruning bracket; its dependencies become what it read, exactly `Run`'s reads for a function over cells, and it is a reader of exactly its live dependencies; the result is cached and the caller's context is restored |
| Runs.ComputedUntrackedRun | SwiftX/Computed.swift:53-55 | on a miss with no readers, the function runs with no context, the dependencies are unchanged, and the result is still cached |
| Passes.StoreSettled | SwiftX/PropertyWrapper.swift:18-22 | a write outside any closure leaves the engine settled, with the cell changed and exactly one flush block enqueued |
| Passes.TransactionRun | SwiftX/ObserverAdministrator.swift:83-96 | an outermost transaction ends settled with one flush enqueued and no observer run; every cell the body writes on every path is in the changed set, and a body over cells yields `Run`'s value, leaves `Run`'s values and reports exactly `Run`'s writes |
| Passes.ListOneKeeps | SwiftX/ObserverAdministrator.swift:135-141 | listing an observer with its count bumped keeps the list and the counts in agreement |
| Passes.AppendOne | SwiftX/ObserverAdministrator.swift:135-142 | scheduling one observer appends it and lets it schedule its own readers; what was listed stays listed, and the list stays closed under Computed readers |
| Passes.AppendedTrans | SwiftX/ObserverAdministrator.swift:168-170 | scheduling the readers of one changed cell after another composes into one append to the pending list |
| Passes.TxAppended | SwiftX/ObserverAdministrator.swift:110-120 | the transaction around `_scheduleForUpdates` leaves the flag as it was and requests no flush |
| Passes.ReactionTrackedRun | SwiftX/ObserverAdministrator.swift:37-44 | a reaction's run as the context inside the pruning bracket leaves it depending on exactly what it read, and a function that only reads cells yields its value over the cells |
| Passes.SinkStore | SwiftX/ObserverAdministrator.swift:42 | `onChange` storing into one sink changes that cell, records it as changed, and keeps the state of the run |
| Passes.SinkStep | SwiftX/ObserverAdministrator.swift:42 | after storing one more sink, all sinks stored so far hold the tracked value and are changed |
| Passes.SinksDone | SwiftX/ObserverContext.swift:78-80 | once every sink is stored and the context cleared, the reaction's `updated()` has the effect `Fired` states |
| Passes.ReactionFrame | SwiftX/ObserverAdministrator.swift:37-44 | a reaction's run fires no cancellable, lets no other reaction gain a dependency, keeps every reaction's dependencies within what its function may read, and for a function over cells changes only the cells and the reaction |
| Passes.SinksPendingStep | SwiftX/ObserverAdministrator.swift:153-156 | after one more `updated()` call, the sinks of every reaction run so far in the round, and of the new one, are still in the changed set for the next round |
| Runs.ReadKept | SwiftX/IObservable.swift:20-30 | a read fires no cancellable and adds a dependency only to the context; a read of a cell changes only that cell's readers and the context |
| Graph.PruneCells | SwiftX/IObserver.swift:36-48 | when the observer depended on cells alone, the whole pruning bracket changes only the observer and cells, each cell only in its value and in whether it lists the observer |
| Passes.PassOrder | SwiftX/ObserverAdministrator.swift:174-200 | in a pass, a listed Computed gets `updated()` before every one of its readers |
| Passes.RegisterCells | SwiftX/ObserverAdministrator.swift:50-69 | registration of a reaction over cells reads exactly `Run`'s reads, and the detector flags exactly a cell both read and written |
| Passes.InvalidateKeeps | SwiftX/Computed.swift:93-97 | clearing a Computed's cache keeps the flush going |
| Passes.RegisterRun | SwiftX/ObserverAdministrator.swift:50-69 | after registration the engine is settled again, the reaction depends on its old dependencies plus what it read, and `isObserving` holds exactly when it did before or something was read |
| CyclicDetector.ReactionCyclicChangeDetector.constructor | SwiftX/ObserverAdministrator.swift:205-210 | the detector starts with both sets empty |
| CyclicDetector.ReactionCyclicChangeDetector.IsCyclic | SwiftX/ObserverAdministrator.swift:212-214 | `isCyclic` holds exactly when some cell was both read and written |
| CyclicDetector.ReactionCyclicChangeDetector.AccessedObservable | SwiftX/ObserverAdministrator.swift:216-218 | a read adds the cell to the read set only |
| CyclicDetector.ReactionCyclicChangeDetector.DidSetObservable | SwiftX/ObserverAdministrator.swift:220-222 | a write adds the cell to the written set only |
| CyclicDetector.ReactionCyclicChangeDetector.Clear | SwiftX/ObserverAdministrator.swift:224-227 | `clear` empties both sets, so the detector no longer reports a cycle |
| Reactive.Engine.constructor | SwiftX/ObserverAdministrator.swift:12-30 | the coordinator starts with no objects, no transaction, nothing changed, nothing pending and no flush requested |
| Reactive.Engine.Allocate | SwiftX/ObserverContext.swift:68-76 | a new object gets the next id and a fresh node, becomes alive, and the engine stays valid |
| Reactive.Engine.NewObservable | SwiftX/PropertyWrapper.swift:24-26 | a new cell stores its initial value without reporting it |
| Reactive.Engine.ScheduleUpdate | SwiftX/ObserverAdministrator.swift:147-150 | a flush block is enqueued only when none is requested, and then the flag is set |
| Reactive.Engine.BeginTransaction | SwiftX/ObserverAdministrator.swift:85-86 | the result says whether this is the outermost transaction, and the flag is set |
| Reactive.Engine.EndTransaction | SwiftX/ObserverAdministrator.swift:90-93 | only the outermost transaction clears the flag and requests a flush |
| Reactive.Engine.DidUpdate | SwiftX/ObserverAdministrator.swift:101-108 | the new state is the report of the cell: changed set, detector, transaction of its own |
| Reactive.Engine.SetObservable | SwiftX/PropertyWrapper.swift:39-41 | the value is stored and `didSet` reports the cell on every set, equal value or not |
| Reactive.Engine.WillGetValue | SwiftX/IObservable.swift:20-30 | the new state is the read: nothing with no context; otherwise reader edge, `didAccess` and the detector's read set |
| Reactive.Engine.ReadObservable | SwiftX/PropertyWrapper.swift:35-38 | a tracked read, then the stored value |
| Reactive.Engine.OnObserverCancelled | SwiftX/Computed.swift:78-85 | exactly that observer leaves the reader set, and for a cell nothing else changes; a Computed left with no readers drops all its own dependencies, and each live one forgets it; only older objects change, they only lose edges, and the graph stays symmetric |
| Reactive.Engine.UnobserveFromAllObservables | SwiftX/IObserver.swift:63-70 | the dependency map is emptied, every live dependency forgets the observer, and the graph becomes symmetric again |
| Reactive.Engine.NotifyDependencies | SwiftX/ObserverContext.swift:73-74 | every dependency still alive forgets the observer, and dead back-links are skipped |
| Reactive.Engine.StartTrackingRemovals | SwiftX/IObserver.swift:32-34 | only the tracking flag changes |
| Reactive.Engine.StopTrackingRemovals | SwiftX/IObserver.swift:36-48 | the dependencies become the old ones filtered to those accessed; every dropped dependency still alive forgets the observer; the flag is false, the accessed set empty, and the graph stays symmetric; when every dependency is a cell, apart from the observer only cells change, each only in its value and in whether it lists the observer |
| Reactive.Engine.ForgetDropped | SwiftX/IObserver.swift:39-45 | every dependency filtered out that is still alive forgets the observer, and the kept ones still list it; when every dependency is a cell, no other object changes except cells, each only in its value and in whether it lists the observer |
| Reactive.Engine.EvalAtomic | SwiftX/ObserverAdministrator.swift:83-96 | a nested `inTransaction` block inside a closure runs as `Runs.AtomicRun` states |
| Reactive.Engine.EvalUntracked | SwiftX/ObserverAdministrator.swift:73-81 | a `runWithoutObserverContext` block inside a closure runs as `Runs.UntrackedRun` states |
| Reactive.Engine.Eval | SwiftX/ObserverAdministrator.swift:88 | running a closure body, as `trackFunc()`, `transaction()` and `computeFunc()` are invoked (also `SwiftX/ObserverAdministrator.swift:40`, `SwiftX/ObserverAdministrator.swift:58`, `SwiftX/Computed.swift:49`, `SwiftX/Computed.swift:54`), keeps the invariant, makes the reads it must and only those it may, records every write on every path, and over cells does what `Run` says; the `Expr` constructors stand for the Swift closure bodies |
| Reactive.Engine.EvalPair | SwiftX/ObserverAdministrator.swift:40 | a closure body of two parts runs the first, then the second from the state the first left, and `Eval`'s contract holds of the whole |
| Reactive.Engine.EvalIf | SwiftX/ObserverAdministrator.swift:58 | a branching closure body runs its condition, then the branch its value selects, and `Eval`'s contract holds of the whole |
| Reactive.Engine.GetValue | SwiftX/PropertyWrapper.swift:35-38 | a read inside a closure makes one tracked read of a cell and yields its value, or runs the Computed getter |
| Reactive.Engine.EvalPut | SwiftX/PropertyWrapper.swift:39-41 | a write inside a closure stores the value and reports the cell |
| Reactive.Engine.ComputedValue | SwiftX/Computed.swift:27-61 | the getter registers the caller as a reader, returns the cache on a hit, and otherwise recomputes and caches the value |
| Reactive.Engine.Recompute | SwiftX/Computed.swift:41-55 | a miss recomputes tracked exactly when the Computed has readers, and caches the result either way |
| Reactive.Engine.RecomputeTracked | SwiftX/Computed.swift:45-52 | the tracked recomputation restores the caller's context; the Computed depends on exactly `Run`'s reads for a function over cells (between its reads on every path and its possible reads otherwise), is a reader of exactly its live dependencies, and every dropped live dependency has forgotten it |
| Reactive.Engine.TrackedCompute | SwiftX/Computed.swift:47-51 | with the Computed as the context and tracking removals, its function runs as `Eval` states and the result is cached; the graph stays symmetric and the Computed keeps its readers |
| Reactive.Engine.EnterTracked | SwiftX/Computed.swift:47-48 | the Computed becomes the context and starts tracking removals; the new state is exactly the start of its tracked run |
| Reactive.Engine.CacheValue | SwiftX/Computed.swift:49 | the result of `computeFunc()` becomes the Computed's cache and nothing else changes |
| Reactive.Engine.WillUpdate | SwiftX/Computed.swift:89-91 | a Computed schedules all its readers; a reaction changes nothing |
| Reactive.Engine.ScheduleObserversForUpdate | SwiftX/IObservable.swift:36-42 | the reader set as it is now is scheduled, and every reader in it is listed |
| Reactive.Engine.ScheduleForUpdates | SwiftX/ObserverAdministrator.swift:110-120 | every given observer is listed, inside a transaction of its own |
| Reactive.Engine.ScheduleEach | SwiftX/ObserverAdministrator.swift:132-144 | every given observer is listed with its count bumped and is told `willUpdate`; only newer observers are appended |
| Reactive.Engine.ScheduleOne | SwiftX/ObserverAdministrator.swift:135-142 | one observer is listed with its count bumped and told `willUpdate`; it is in the appended part of the list afterwards, nothing listed before is lost, and everything appended is newer than the scheduling object |
| Reactive.Engine.ListObserver | SwiftX/ObserverAdministrator.swift:135-141 | the count starts at 0 or goes up by one, and the observer is appended |
| Reactive.Engine.ResolveUpdatedObservers | SwiftX/ObserverAdministrator.swift:164-172 | every reader of every changed cell is listed, the list is closed under Computed readers and agrees with the counts, and the changed set is emptied |
| Reactive.Engine.UpdateCurrentObservers | SwiftX/ObserverAdministrator.swift:174-200 | the `updated()` calls are the walk's over the pending list and counts, each listed observer at its last listing; the list and counts are emptied afterwards; the states the loop goes through form a `Passes.Walk` from the state before to the state after: at the last listing of an observer the state changes exactly as its `updated()` does (`Passes.Fired`), at any other listing only its count goes down |
| Reactive.Engine.WalkPending | SwiftX/ObserverAdministrator.swift:179-195 | the loop over the pending list makes exactly the walk's `updated()` calls, leaves the walk's counts, and goes through a `Passes.Walk` of states from the state before to the state after |
| Reactive.Engine.WalkList | SwiftX/ObserverAdministrator.swift:179-195 | the loop itself: from the start of the walk to its end, one visit per entry, each recorded in the walk of states |
| Reactive.Engine.WalkStep | SwiftX/ObserverAdministrator.swift:187-193 | one iteration of that loop advances the walk by one listing and adds the state it leaves to the walk |
| Reactive.Engine.VisitPending | SwiftX/ObserverAdministrator.swift:187-193 | a count at most 0 fires `updated()`, with the effect `Passes.Fired` states (a Computed drops its cache, a cancelled reaction does nothing, any other reaction re-runs as `Passes.Reacted` states); any other count is decremented and nothing else changes |
| Reactive.Engine.Updated | SwiftX/ObserverContext.swift:78-80 | a Computed only drops its cache; a cancelled reaction does nothing; any other reaction re-runs, is a reader of exactly its dependencies, and writes one value to every sink; no cancelled flag changes and no other reaction gains a dependency; for a function over cells it depends on exactly `Run`'s reads, the sinks hold `Run`'s value, and apart from the reaction only cells changed, in their values and in reading the reaction |
| Reactive.Engine.RunReaction | SwiftX/ObserverAdministrator.swift:37-44 | the reaction's closure: the context is swapped in, the run is bracketed, `onChange` is applied, and the previous context is restored |
| Reactive.Engine.OnChange | SwiftX/ObserverAdministrator.swift:42 | every sink holds the tracked value and is in the changed set |
| Reactive.Engine.FlushPass | SwiftX/ObserverAdministrator.swift:153-156 | one round lists every reader of every changed cell (closed under Computed readers), calls `updated()` exactly once on every listed observer, and calls it on a listed Computed before its readers; the round is a `Passes.Round` from the state before to the state after (the changed set emptied, then a walk of states over the list); every sink of every reaction it ran that is not cancelled is in the changed set afterwards, so the next round propagates what `onChange` wrote; no cancelled flag changes |
| Reactive.Engine.Flush | SwiftX/ObserverAdministrator.swift:150-160 | rounds repeat while cells are changed; the rounds run form a `Passes.Rounds` chain from the state before the block to the state after it, each round started on a non-empty changed set; with at least one round allowed, every reader of every cell changed before the flush gets `updated()`; no cancelled flag changes; when the changed set is drained the flag is cleared and the engine is settled with nothing enqueued |
| Reactive.Engine.AddReaction | SwiftX/ObserverAdministrator.swift:50-69 | one tracked run with the observer as the context, no pruning and no `onChange`; the context is restored; the reaction's dependencies grow by what was read; cyclic is reported for a closure that reads and writes one cell on every path, and for a closure over cells exactly when `Run` reads a cell it writes |
| Reactive.Engine.TrackUnder | SwiftX/ObserverAdministrator.swift:52-59 | with the detector cleared, the closure runs under the reaction and the previous context is restored; no cancelled flag changes and no other reaction gains a dependency; the detector's verdict is as `AddReaction` states |
| Reactive.Engine.Reaction | SwiftX/Functions.swift:20-23 | a new registered reaction that is a reader of exactly its dependencies, which lie between its function's reads on every path and its possible reads; it has not run `onChange` and is observing exactly when it read something; no cancelled flag changes; for a function over cells the dependencies are exactly `Run`'s reads, the cells hold `Run`'s values, and the reports and the changed set are `Run`'s writes |
| Reactive.Engine.Autorun | SwiftX/Functions.swift:14-16 | the same as `Reaction` with no sinks: exact dependencies, `Run`'s values in the cells and `Run`'s writes reported for a function over cells, and no cancelled flag changed |
| Reactive.Engine.NewComputed | SwiftX/Computed.swift:63-70 | a new Computed that has not evaluated its function: no cache, no edges |
| Reactive.Engine.InTransaction | SwiftX/Functions.swift:25-27 | the block runs with no observer firing, every cell it writes on every path is changed, exactly one flush is enqueued, no cancelled flag changes and no reaction gains a dependency; a block over cells yields `Run`'s value, leaves `Run`'s values and changes nothing but cell values |
| Reactive.Engine.ValueOf | SwiftX/Computed.swift:27-61 | outside any closure: a cell yields its value and nothing changes; a Computed returns its cache on a hit and otherwise caches a fresh value, which for a function over cells is that function's value; no cancelled flag changes and no reaction gains a dependency |
| Reactive.Engine.Set | SwiftX/PropertyWrapper.swift:39-41 | outside any closure a write stores the value, reports the cell once and enqueues exactly one flush, and no observer runs |
| Reactive.Engine.Mutate | SwiftX/PropertyWrapper.swift:34-42 | an in-place mutation is one get and one set, so the cell is reported once |
| Reactive.Engine.Cancel | SwiftX/ObserverContext.swift:68-86 | the cancellable fires once. A reaction keeps its back-links, and every live dependency forgets it. A Computed drops all its dependencies. Every Computed dependency left with no readers has no dependencies and no live object lists it. A second cancel changes nothing |
| Reactive.Engine.FireCancellable | SwiftX/ObserverContext.swift:70-75 | the cancellable's block: the flag is set, every live dependency forgets the observer, and the graph stays symmetric |
| Reactive.Engine.Release | SwiftX/IObserver.swift:66 | a cell that nothing holds strongly becomes dead, so later walks skip its back-links |
| Propagation.CountsAheadStep | SwiftX/ObserverAdministrator.swift:187-193 | when each count ahead equals the listings still ahead minus one, the entry being visited has a count, that count is at most 0 exactly at its last listing, and after the visit the same holds one entry further on |
| Passes.WalkExtend | SwiftX/ObserverAdministrator.swift:179-195 | a walk of states extended by the state one more visit left is still a walk |
| Passes.WalkStart | SwiftX/ObserverAdministrator.swift:179 | before the loop, with counts equal to listings minus one, the walk holds only the state before |
| Passes.WalkVisit | SwiftX/ObserverAdministrator.swift:187-193 | a visit that fires at a count at most 0 with the effect of `updated()`, or else only counts down, extends the walk by the state it leaves |
| Passes.WalkBegin | SwiftX/ObserverAdministrator.swift:179 | at the start of the loop every listed observer has a count and the pass, its calls and its walk are at entry 0 |
| Passes.WalkDone | SwiftX/ObserverAdministrator.swift:195-197 | after the last entry the calls are exactly the walk's, the counts the walk's, and the states a complete walk ending in the current state |
| Passes.PassAdvance | SwiftX/ObserverAdministrator.swift:187-193 | one visit advances the calls and counts of the pass by one entry and keeps the sinks of the reactions run so far pending |
| Passes.WalkAdvance | SwiftX/ObserverAdministrator.swift:187-193 | one visit advances the whole loop state by one entry: calls, counts and the walk of states, with no cancelled flag changed |
| Passes.WalkCountsDown | SwiftX/ObserverAdministrator.swift:190-193 | when an observer is listed several times, every listing before the last leaves the state as it was |
| Passes.WalkOnly | SwiftX/ObserverAdministrator.swift:179-195 | when the list names one observer only, the walk takes the state before to the state after by exactly that observer's `updated()` |
| Passes.FiredReaction | SwiftX/ObserverAdministrator.swift:37-44 | what `updated()` did to a live reaction over cells: it depends on exactly what its function read, is a reader of exactly those live objects, the cells hold `Run`'s values except the sinks, which hold the tracked value, and its writes and sinks joined the changed set |
| Passes.FirstRoundCalled | SwiftX/ObserverAdministrator.swift:168-169 | when the list holds every reader of a changed cell and the round calls each listed observer once, every such reader was called |
| Passes.ReadersStillCalled | SwiftX/ObserverAdministrator.swift:153-156 | later rounds only add calls, so every reader called in the first round stays called |
| Passes.FlushBegin | SwiftX/ObserverAdministrator.swift:150-151 | when the block starts, with the engine settled and the block enqueued, the flush so far is empty and the state is the one before |
| Passes.FlushStep | SwiftX/ObserverAdministrator.swift:153-156 | one more round extends the chain of rounds by that round, keeps the call log growing and the cancelled flags, and after the first round every reader of a cell changed before the flush has been called |
| Passes.RoundsAppend | SwiftX/ObserverAdministrator.swift:153-156 | a round started on a non-empty changed set from where a chain of rounds ended extends the chain |
| Scenarios.TwoCellEngine | SwiftX/PropertyWrapper.swift:24-26 | a new engine with two new cells holds exactly those two cells with their initial values, and is settled |
| Scenarios.PrintTrackReads | SwiftXTests/SwiftXTests.swift:67-73 | the autorun of `testConditionalObservingAutorun` reads `print` and `message` while `print` holds, and `print` alone otherwise; it writes nothing |
| Scenarios.CountReaction | SwiftXTests/SwiftXTests.swift:132-137 | after registration, the reaction of `testSettingStateInReaction` reads `count` and is not cancelled |
| Scenarios.SettingStateFlushed | SwiftXTests/SwiftXTests.swift:146-150 | from the chain of rounds alone: the one round runs the reaction, which stores 100 into `greeting` |
| Scenarios.SettingStateInReaction | SwiftXTests/SwiftXTests.swift:129-151 | setting `count` to 100 and running the flush block leaves `greeting` at 100 |
| Scenarios.PrintAutorun | SwiftXTests/SwiftXTests.swift:57-73 | after registration, the autorun depends on both `print` and `message` |
| Scenarios.ConditionalFlushed | SwiftXTests/SwiftXTests.swift:80-89 | from the chain of rounds alone: with `print` cleared, the one round leaves the autorun depending on `print` only, no longer a reader of `message`, and nothing changed |
| Scenarios.ConditionalObservingAutorun | SwiftXTests/SwiftXTests.swift:57-90 | clearing `print` and running the flush block drops `message` from the autorun's dependencies and the autorun from `message`'s readers, and the flush drains |
| Scenarios.OnlyRound | SwiftXTests/SwiftXTests.swift:80-81 | with one reaction in the engine, reading a changed cell, a flush of one round took the state before to the state after by exactly that reaction's `updated()` |

## Left out

- Locks and threads. `MutexLock`, every `os_unfair_lock` call and the
  threads that take them are left out: the model is single-threaded.
- The main queue. `DispatchQueue.main.async` becomes the `queuedFlushes`
  counter, and the caller runs the block with `Engine.Flush`.
- Reactive.Engine.Flush: takes a bound on its rounds (`fuel`). The Swift loop
  runs until no cell is changed, which never happens for a reaction that keeps
  rewriting what it reads. When the bound is reached, `drained` is false and
  the engine stays inside the block.
- Value types. Values are `int`, and the generic `V` of the closures is not
  modelled.
- Closures. A closure is a term of `Closures.Expr`; arbitrary Swift side
  effects are not modelled. `onChange` is modelled as storing the tracked
  value into a list of cells.
- Weak references and deinit (`SwiftX/Weak.swift`, `CancellableDisposer`,
  the `deinit`s):
  - a back-link is an id checked against `alive`;
  - only cells can be released, with `Release`;
  - observers are never deallocated;
  - ids are never reused.
- `AnyCancellable`. Its internals are replaced by a one-shot `cancelled` flag.
- The `startDependencyCount` parameter. Every call passes its default, so the
  start count is the constant 0.
- Debug assertions. The two registration assertions (not cyclic, observing)
  are returned as booleans. The assertions inside the coordinator are proved:
  - line 133: the changed set is non-empty while scheduling;
  - lines 181-185: the missing-count branch is never taken;
  - line 197: no count above 1 after the walk.
- The detector's name. `ReactionCyclicChangeDetector.current` and `.shared`
  are the same single detector.
- Closures that read objects created after their owner. Every object a
  closure names must be older than the reaction or `Computed` that owns
  it. Swift allows more: in `SwiftXTests/SwiftXTests.swift:92-119` an
  autorun reads `parent.left`, a node assigned after the autorun was
  created. The model cannot express that program. The restriction keeps
  every reader newer than what it reads, which is what makes scheduling
  and the cancel cascade terminate in the model.
- Left out entirely:
  - `print` output;
  - Codable conformance, `projectedValue` and SwiftUI glue;
  - the superseded copies of these types elsewhere in the repository.
- Reactive.Engine.FlushPass: proves that every reader of a changed cell and
  of a listed Computed is scheduled and fires exactly once. It does not prove
  the converse, that every scheduled observer is reachable from a changed
  cell.
- Reactive.Engine.Updated: states the sinks' value and the exact
  dependencies only for a tracked function that reads only cells. A
  function that reads a `Computed` gets bounds on its dependencies, and
  all sinks receive one common value.
- Reactive.Engine.ValueOf: on a cache hit, the returned value is the cached
  one. The model does not prove that the cache agrees with the current cell
  values.
- Reactive.Engine.AddReaction: `cyclic` is stated in both directions only
  for a closure that reads only cells. For a closure that reads a
  `Computed`, only "reads and writes one cell on every path implies
  `cyclic`" is stated.
- Reactive.Engine.RecomputeTracked: the dependencies equal the reads of
  the path taken only for a function that reads only cells. A function
  that reads a `Computed` gets bounds (reads on every path, possible
  reads), because the nested getter's path is not given a reference
  semantics.
- Reactive.Engine.Reaction: exact dependencies, `Run`'s values and `Run`'s
  writes are stated only for a function that reads only cells; a function
  that reads a `Computed` gets bounds on its dependencies, for the same
  reason as `RecomputeTracked`.
- Reactive.Engine.Autorun: the same restriction as `Reaction`.
- Runs.ComputedTrackedRun: the same restriction as `RecomputeTracked`.
- Reactive.Engine.Flush: does not prove that the flush drains for graphs
  without write cycles.
- Reactive.Engine.Flush: the chain of rounds says how each round takes the
  state to the next (each visit is a `Fired` step or only a count going
  down), and which observers fire in the first round. Which observers a
  later round fires is known from its `Round` only up to the converse gap of
  `FlushPass` above.
- Passes.TransactionRun: the exact value, cell values and writes are stated
  only for a body that reads only cells. A body that reads a `Computed`
  gets bounds on its reads and writes.
- Reactive.Engine.Eval: `Run`'s value, `Run`'s cell values and the exact
  reads are stated only for a closure that reads only cells. A closure that
  reads a `Computed` gets bounds: the reads on every path, the possible
  reads, and the writes on every path.
- Reactive.Engine.GetValue: the value read and the exact read are stated
  only for a cell. A read of a `Computed` gets only what `Eval` states for
  every closure: the invariant is kept, and under a context the `Computed`
  becomes a dependency.
- Reactive.Engine.InTransaction: the block's value, the cell values and the
  changed cells are exact only for a block that reads only cells; a block
  that reads a `Computed` gets bounds.
- Reactive.Engine.ValueOf: on a cache miss, the value is the function's
  `Run` value only when the function reads only cells; otherwise only the
  invariant, the frame and the caching are stated.
