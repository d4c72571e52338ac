/**
 * The engine's mutable fields as one value, the invariant over it, the effect
 * of each straight-line operation of `ObserverAdministrator` and
 * `IObservable`, and what one run of a closure does. The engine's methods are
 * proved against these definitions; the lemmas here carry the reasoning.
 */
module EngineState {
  import opened Wrappers
  import opened Closures
  import opened Graph

  /** Every field the engine's methods change, as one value. */
  datatype State = State(
    nodes: seq<Node>,
    inTransaction: bool,       // `_inTransaction`
    hasScheduled: bool,        // `_hasScheduled`
    queuedFlushes: nat,        // flush blocks enqueued on the main queue
    context: Option<Id>,       // `_currentObserverContext`
    updated: set<Id>,          // `updatedObservables`
    pending: seq<Id>,          // `pendingUpdateList`
    counts: map<Id, int>,      // `pendingUpdatesDependencyCount`
    accessedLog: set<Id>,      // the detector's `accessedObservables`
    settedLog: set<Id>,        // the detector's `settedObservables`
    reported: seq<Id>,         // every `didUpdate(observable:)`, in order
    updatedCalls: seq<Id>)     // every `updated()` a flush made, in order

  /** The coordinator's fields agree with the objects and each other: the
      context is an observer, changed objects are live cells (the set holds
      them strongly), pending entries are observers, at most one flush block
      is enqueued, a change made outside a transaction always has a flush
      requested, and a Computed is the context only while it has readers
      (it recomputes tracked only then). */
  ghost predicate CoordOk(decls: seq<Decl>, alive: set<Id>, s: State) {
    && (s.context.Some? ==> s.context.value < |decls| && !decls[s.context.value].CellDecl?)
    && (s.context.Some? && s.context.value < |s.nodes| && decls[s.context.value].ComputedDecl? ==>
          s.nodes[s.context.value].observers != {})
    && (forall x :: x in s.updated ==> x in alive && x < |decls| && decls[x].CellDecl?)
    && (forall i :: 0 <= i < |s.pending| ==> s.pending[i] < |decls| && !decls[s.pending[i]].CellDecl?)
    && s.queuedFlushes <= 1
    && (s.queuedFlushes == 1 ==> s.hasScheduled)
    && (!s.inTransaction && s.updated != {} ==> s.hasScheduled)
  }

  /** The invariant that holds between any two steps. */
  ghost predicate Inv(decls: seq<Decl>, alive: set<Id>, s: State) {
    && Registry(decls, s.nodes, alive)
    && Ordered(decls, s.nodes)
    && Linked(decls, s.nodes, alive, {})
    && ClosuresWf(decls, alive)
    && CoordOk(decls, alive, s)
  }

  // ------------------------------------------------------------------ effects

  /** `_scheduleUpdate`: enqueue one flush block unless one is requested. */
  function Schedule(s: State): State {
    if s.hasScheduled then s else s.(hasScheduled := true, queuedFlushes := s.queuedFlushes + 1)
  }

  /** Entering `inTransaction`. */
  function BeginTx(s: State): State {
    s.(inTransaction := true)
  }

  /** Leaving `inTransaction`: only the outermost one clears the flag and
      requests a flush. */
  function EndTx(s: State, isFirst: bool): State {
    if isFirst then Schedule(s.(inTransaction := false)) else s
  }

  /** `didUpdate(observable:)`: inside a transaction of its own, the cell joins
      the changed set and the detector's written set. */
  function Report(s: State, x: Id): State {
    var inside := BeginTx(s);
    EndTx(inside.(updated := s.updated + {x}, settedLog := s.settedLog + {x}, reported := s.reported + [x]),
          !s.inTransaction)
  }

  /** `wrappedValue` set: the value is stored and `didSet` reports the cell. */
  function Store(s: State, x: Id, v: int): State
    requires x < |s.nodes|
  {
    Report(s.(nodes := s.nodes[x := s.nodes[x].(value := v)]), x)
  }

  /** The precondition of a read: under a context, the object read is older
      than the context. */
  ghost predicate CanRead(s: State, x: Id) {
    && x < |s.nodes|
    && (s.context.Some? ==> x < s.context.value < |s.nodes|)
  }

  /** `IObservable.willGetValue`: with no context nothing changes; under
      context `o`, `o` becomes a reader of `x`, `o.didAccess(x)`, and the
      detector records the read. */
  function Read(s: State, x: Id): State
    requires CanRead(s, x)
  {
    if s.context.Some? then
      s.(nodes := AddRead(s.nodes, x, s.context.value), accessedLog := s.accessedLog + {x})
    else s
  }

  /** The reads a single tracked read of `x` makes under the state's context. */
  function ReadSet(s: State, x: Id): set<Id> {
    if s.context.Some? then {x} else {}
  }

  // ------------------------------------------------------------------ lemmas about effects

  /** Reporting a live cell keeps the invariant, leaves the objects alone,
      records the cell exactly once in the changed set, and requests a flush
      unless a transaction is open. */
  lemma ReportPreserves(decls: seq<Decl>, alive: set<Id>, s: State, x: Id)
    requires Inv(decls, alive, s) && x in alive && x < |decls| && decls[x].CellDecl?
    ensures Inv(decls, alive, Report(s, x))
    ensures Report(s, x).updated == s.updated + {x} && Report(s, x).reported == s.reported + [x]
    ensures Report(s, x).inTransaction == s.inTransaction
    ensures !s.inTransaction ==> Report(s, x).hasScheduled
    ensures s.inTransaction ==> Report(s, x).hasScheduled == s.hasScheduled
    ensures Report(s, x).nodes == s.nodes && Report(s, x).context == s.context
  {
  }

  /** A sequence of `didUpdate(observable:)` calls, in order. */
  function ReportAll(s: State, xs: seq<Id>): State
    decreases |xs|
  {
    if xs == [] then s else ReportAll(Report(s, xs[0]), xs[1..])
  }

  /** However many times cells are reported, each is in the changed set once
      (the set is keyed by identity), every call is recorded, and at most one
      flush block is enqueued: the first report outside a transaction
      enqueues it and every later one finds it requested. */
  lemma {:induction false} ReportAllEffect(s: State, xs: seq<Id>)
    ensures ReportAll(s, xs).updated == s.updated + set x | x in xs
    ensures ReportAll(s, xs).reported == s.reported + xs
    ensures ReportAll(s, xs).inTransaction == s.inTransaction
    ensures ReportAll(s, xs).hasScheduled == (s.hasScheduled || (!s.inTransaction && xs != []))
    ensures ReportAll(s, xs).queuedFlushes ==
      s.queuedFlushes + if !s.hasScheduled && !s.inTransaction && xs != [] then 1 else 0
    ensures ReportAll(s, xs).nodes == s.nodes
    decreases |xs|
  {
    if xs != [] {
      ReportAllEffect(Report(s, xs[0]), xs[1..]);
      assert (set x | x in xs) == {xs[0]} + set x | x in xs[1..];
      assert s.reported + xs == s.reported + [xs[0]] + xs[1..];
    }
  }

  /** Storing into a live cell changes its value and nothing else about the
      objects. */
  lemma StorePreserves(decls: seq<Decl>, alive: set<Id>, s: State, x: Id, v: int)
    requires Inv(decls, alive, s) && x in alive && x < |decls| && decls[x].CellDecl?
    ensures Inv(decls, alive, Store(s, x, v))
    ensures Store(s, x, v).nodes[x].value == v
    ensures forall q :: 0 <= q < |s.nodes| && q != x ==> Store(s, x, v).nodes[q] == s.nodes[q]
  {
    var n := s.nodes[x := s.nodes[x].(value := v)];
    SameEdges(decls, alive, s.nodes, n);
    ReportPreserves(decls, alive, s.(nodes := n), x);
  }

  /** A read keeps the invariant, which includes `Linked`; under context `o`
      the edge between `o` and `x` is added in both directions, and from
      `x + 1` up only `o` changes, by recording the read. */
  lemma ReadPreserves(decls: seq<Decl>, alive: set<Id>, s: State, x: Id, lvl: nat)
    requires Inv(decls, alive, s) && CanRead(s, x) && !decls[x].ReactionDecl?
    requires Quiet(s.nodes, lvl) && (s.context.Some? ==> lvl <= s.context.value)
    ensures Inv(decls, alive, Read(s, x)) && Quiet(Read(s, x).nodes, lvl)
    ensures Frame(s.nodes, Read(s, x).nodes, x + 1, s.context, ReadSet(s, x))
    ensures s.context.Some? ==>
      s.context.value in Read(s, x).nodes[x].observers && x in Read(s, x).nodes[s.context.value].observing
  {
    if s.context.Some? {
      AddReadPreserves(decls, alive, s.nodes, x, s.context.value, lvl);
    }
  }
}
