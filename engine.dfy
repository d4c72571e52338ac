/**
 * The SwiftX engine: the `ObserverAdministrator` singleton together with every
 * `Observable`, `Computed` and `ObserverContext` it coordinates.
 *
 * One `Engine` object holds the coordinator's fields and, keyed by object
 * identity, the declaration and the mutable fields of every object. A weak
 * reference is an id checked against `alive`. The main-queue block that
 * `_scheduleUpdate` enqueues is counted in `queuedFlushes` and run by `Flush`.
 */
module Reactive {
  import opened Wrappers
  import opened Closures
  import opened Propagation
  import opened Graph
  import opened CyclicDetector
  import opened EngineState
  import opened Runs
  import opened Passes

  class Engine {
    // The objects, by `ObjectIdentifier`.
    var decls: seq<Decl>
    var nodes: seq<Node>
    var alive: set<Id>

    // `ObserverAdministrator`'s fields.
    var inTransaction: bool
    var hasScheduled: bool
    var currentObserverContext: Option<Id>
    var updatedObservables: set<Id>
    var pendingUpdateList: seq<Id>
    var pendingUpdatesDependencyCount: map<Id, int>
    /** Flush blocks enqueued on the main queue and not yet run. */
    var queuedFlushes: nat

    /** `ReactionCyclicChangeDetector.shared`. */
    const detector: ReactionCyclicChangeDetector

    /** Every `updated()` call made by a flush, in order. */
    ghost var updatedCalls: seq<Id>
    /** Every `didUpdate(observable:)` call, in order. */
    ghost var reported: seq<Id>

    /** The fields the methods change, as one value. */
    ghost function Snap(): State
      reads this, detector
    {
      State(nodes, inTransaction, hasScheduled, queuedFlushes, currentObserverContext,
            updatedObservables, pendingUpdateList, pendingUpdatesDependencyCount,
            detector.accessedObservables, detector.settedObservables, reported, updatedCalls)
    }

    /** The state between two calls of the public API. */
    ghost predicate Valid()
      reads this, detector
    {
      Settled(decls, alive, Snap())
    }

    constructor ()
      ensures Valid() && fresh(detector)
      ensures decls == [] && updatedObservables == {} && !hasScheduled && queuedFlushes == 0
      ensures detector.accessedObservables == {} && detector.settedObservables == {}
    {
      decls, nodes, alive := [], [], {};
      inTransaction, hasScheduled, currentObserverContext := false, false, None;
      updatedObservables, pendingUpdateList, pendingUpdatesDependencyCount := {}, [], map[];
      queuedFlushes := 0;
      detector := new ReactionCyclicChangeDetector();
      updatedCalls, reported := [], [];
    }

    /** Creates an object under the next id. */
    method Allocate(d: Decl, v: int) returns (x: Id)
      requires Valid() && WfDecl(d, |decls|, decls, alive)
      modifies this`decls, this`nodes, this`alive
      ensures Valid()
      ensures x == old(|decls|) && decls == old(decls) + [d] && nodes == old(nodes) + [FreshNode(v)]
      ensures alive == old(alive) + {x}
    {
      x := |decls|;
      AllocatePreserves(decls, nodes, alive, d, v);
      decls, nodes, alive := decls + [d], nodes + [FreshNode(v)], alive + {x};
    }

    /** `Observable(wrappedValue:)`: stores the initial value without
        reporting it; `didSet` does not run in an initializer. */
    method NewObservable(v: int) returns (x: Id)
      requires Valid()
      modifies this`decls, this`nodes, this`alive
      ensures Valid()
      ensures x == old(|decls|) && decls == old(decls) + [CellDecl] && nodes == old(nodes) + [FreshNode(v)]
      ensures alive == old(alive) + {x}
    {
      x := Allocate(CellDecl, v);
    }

    // ---------------------------------------------------------------- transactions

    /** `_scheduleUpdate`. */
    method ScheduleUpdate()
      modifies this`hasScheduled, this`queuedFlushes
      ensures Snap() == Schedule(old(Snap()))
    {
      if !hasScheduled {
        hasScheduled := true;
        queuedFlushes := queuedFlushes + 1;
      }
    }

    /** The entry half of `inTransaction`: remembers whether this is the
        outermost transaction and sets the flag. */
    method BeginTransaction() returns (isFirst: bool)
      modifies this`inTransaction
      ensures isFirst == !old(inTransaction)
      ensures Snap() == BeginTx(old(Snap()))
    {
      isFirst := !inTransaction;
      inTransaction := true;
    }

    /** The exit half of `inTransaction`. */
    method EndTransaction(isFirst: bool)
      modifies this`inTransaction, this`hasScheduled, this`queuedFlushes
      ensures Snap() == EndTx(old(Snap()), isFirst)
    {
      if isFirst {
        inTransaction := false;
        ScheduleUpdate();
      }
    }

    // ---------------------------------------------------------------- cells

    /** `didUpdate(observable:)`. */
    method DidUpdate(x: Id)
      modifies this`updatedObservables, this`inTransaction, this`hasScheduled, this`queuedFlushes,
               this`reported, detector
      ensures Snap() == Report(old(Snap()), x)
    {
      var isFirst := BeginTransaction();
      updatedObservables := updatedObservables + {x};
      detector.DidSetObservable(x);
      reported := reported + [x];
      EndTransaction(isFirst);
    }

    /** `wrappedValue` set: stores the value, and `didSet` reports the cell
        every time, whether or not the value changed. */
    method SetObservable(x: Id, v: int)
      requires x < |nodes|
      modifies this`nodes, this`updatedObservables, this`inTransaction, this`hasScheduled,
               this`queuedFlushes, this`reported, detector
      ensures Snap() == Store(old(Snap()), x, v)
    {
      nodes := nodes[x := nodes[x].(value := v)];
      DidUpdate(x);
    }

    /** `IObservable.willGetValue`. */
    method WillGetValue(x: Id)
      requires CanRead(Snap(), x)
      modifies this`nodes, detector
      ensures Snap() == Read(old(Snap()), x)
    {
      if currentObserverContext.Some? {
        nodes := AddRead(nodes, x, currentObserverContext.value);
        detector.AccessedObservable(x);
      }
    }

    /** `wrappedValue` get: a tracked read, then the stored value. */
    method ReadObservable(x: Id) returns (r: int)
      requires CanRead(Snap(), x)
      modifies this`nodes, detector
      ensures Snap() == Read(old(Snap()), x)
      ensures r == old(nodes)[x].value
    {
      WillGetValue(x);
      r := nodes[x].value;
    }

    // ---------------------------------------------------------------- cancellation cascade

    /** `onObserverCancelled(_:)`: removes exactly the observer `o` from `x`'s
        readers. `Computed` overrides it: when its last reader goes, it drops
        all its own upstream edges, and each dependency still alive forgets
        it. The ghost `busy` holds the observers unlinking themselves, `o`
        among them; the graph stays linked up to them. Reader edges of
        readers newer than `x` all survive. */
    method OnObserverCancelled(x: Id, o: Id, ghost busy: set<Id>)
      requires Registry(decls, nodes, alive) && Ordered(decls, nodes)
      requires Linked(decls, nodes, alive, busy) && o in busy
      requires x in alive && !decls[x].ReactionDecl?
      modifies this`nodes
      decreases x, 2
      ensures Ordered(decls, nodes) && Linked(decls, nodes, alive, busy) && UnlinksBelow(old(nodes), nodes, x + 1)
      ensures ReadersAbove(old(nodes)[x := old(nodes)[x].(observers := old(nodes)[x].observers - {o})], nodes, x)
      ensures nodes[x].observers == old(nodes)[x].observers - {o}
      ensures nodes[x].observing ==
        if decls[x].ComputedDecl? && nodes[x].observers == {} then {} else old(nodes)[x].observing
      ensures decls[x].ComputedDecl? && nodes[x].observers == {} ==>
        forall y :: y in old(nodes)[x].observing && y in alive ==> x !in nodes[y].observers
      ensures decls[x].CellDecl? ==> nodes == old(nodes)[x := old(nodes)[x].(observers := old(nodes)[x].observers - {o})]
    {
      DropReaderLinked(decls, nodes, alive, busy, x, o);
      nodes := nodes[x := nodes[x].(observers := nodes[x].observers - {o})];
      UnlinksPreserve(decls, old(nodes), nodes, x + 1, 0);
      if decls[x].ComputedDecl? && nodes[x].observers == {} {
        ghost var n1 := nodes;
        UnobserveFromAllObservables(x, busy);
        UnlinksTrans(old(nodes), n1, nodes, x + 1);
      }
    }

    /** `unobserveFromAllObservables`: every dependency that is still alive
        forgets this observer, and the dependency map is emptied, which takes
        `c` out of the observers unlinking themselves. */
    method UnobserveFromAllObservables(c: Id, ghost busy: set<Id>)
      requires Registry(decls, nodes, alive) && Ordered(decls, nodes)
      requires Linked(decls, nodes, alive, busy + {c})
      requires c < |decls| && !decls[c].CellDecl?
      modifies this`nodes
      decreases c, 1
      ensures Ordered(decls, nodes) && Linked(decls, nodes, alive, busy) && UnlinksBelow(old(nodes), nodes, c + 1)
      ensures ReadersAbove(old(nodes), nodes, c)
      ensures nodes[c] == old(nodes)[c].(observing := {})
      ensures forall y :: y in old(nodes)[c].observing && y in alive ==> c !in nodes[y].observers
    {
      NotifyDependencies(c, busy + {c});
      ghost var n2 := nodes;
      ClearDepsLinked(decls, nodes, alive, busy, c);
      nodes := nodes[c := nodes[c].(observing := {})];
      UnlinksPreserve(decls, n2, nodes, c + 1, 0);
      assert forall q :: 0 <= q < |nodes| ==> nodes[q].observers == n2[q].observers;
    }

    /** The walk over `c`'s back-links that both `unobserveFromAllObservables`
        and a reaction's cancellable make: every dependency still alive gets
        `onObserverCancelled(c)`; dead ones are skipped. Only older objects
        change, they only lose edges, and readers newer than `c` keep theirs. */
    method NotifyDependencies(c: Id, ghost busy: set<Id>)
      requires Registry(decls, nodes, alive) && Ordered(decls, nodes)
      requires Linked(decls, nodes, alive, busy) && c in busy
      requires c < |decls| && !decls[c].CellDecl?
      modifies this`nodes
      decreases c, 0
      ensures Ordered(decls, nodes) && Linked(decls, nodes, alive, busy) && UnlinksBelow(old(nodes), nodes, c)
      ensures ReadersAbove(old(nodes), nodes, c)
      ensures forall y :: y in old(nodes)[c].observing && y in alive ==> c !in nodes[y].observers
    {
      ghost var n0 := nodes;
      var todo := nodes[c].observing;
      while todo != {}
        invariant Ordered(decls, nodes) && Linked(decls, nodes, alive, busy) && UnlinksBelow(n0, nodes, c)
        invariant ReadersAbove(n0, nodes, c)
        invariant todo <= n0[c].observing
        invariant forall y :: y in n0[c].observing - todo && y in alive ==> c !in nodes[y].observers
        decreases todo
      {
        var y :| y in todo;
        if y in alive {
          ghost var n1 := nodes;
          OnObserverCancelled(y, c, busy);
          UnlinksTrans(n0, n1, nodes, c);
          ReadersAboveStep(n0, n1, nodes, y, c);
        }
        todo := todo - {y};
      }
    }

    // ---------------------------------------------------------------- pruning

    /** `startTrackingRemovals`: only sets the tracking flag. */
    method StartTrackingRemovals(o: Id)
      requires o < |nodes|
      modifies this`nodes
      ensures nodes == old(nodes)[o := old(nodes)[o].(tracking := true)]
    {
      nodes := nodes[o := nodes[o].(tracking := true)];
    }

    /** `stopTrackingRemovals`: clears the tracking flag, keeps exactly the
        dependencies accessed since tracking started, tells every dropped
        dependency that is still alive to forget this observer, and empties
        the accessed set. The graph stays linked: every kept dependency
        still lists the observer among its readers. */
    method StopTrackingRemovals(o: Id)
      requires Registry(decls, nodes, alive) && Ordered(decls, nodes) && Linked(decls, nodes, alive, {})
      requires o < |decls| && !decls[o].CellDecl?
      requires decls[o].ComputedDecl? ==> nodes[o].observers != {}
      modifies this`nodes
      ensures Ordered(decls, nodes) && Linked(decls, nodes, alive, {}) && Pruned(alive, old(nodes), nodes, o)
      ensures CellDeps(decls, old(nodes)[o].observing) ==>
        CellsOnly(decls, old(nodes), nodes, {o})
    {
      SameEdges(decls, alive, nodes, nodes[o := nodes[o].(tracking := false)]);
      nodes := nodes[o := nodes[o].(tracking := false)];
      ghost var n0 := nodes;
      var keep := nodes[o].accessed;
      ForgetDropped(o, keep);
      assert !(decls[o].ReactionDecl? && n0[o].cancelled) ==>
        forall y :: y in n0[o].observing * keep && y in alive && y < |nodes| ==> o in nodes[y].observers;
      ShrinkLinked(decls, nodes, alive, o, nodes[o].observing * keep);
      ShrinkDepsPreserves(decls, nodes, o, nodes[o].observing * keep);
      ghost var n1 := nodes;
      nodes := nodes[o := nodes[o].(observing := nodes[o].observing * keep, accessed := {}, tracking := false)];
      PruneCells(decls, old(nodes), n0, n1, nodes, o);
    }

    /** The loop of `stopTrackingRemovals`: every dependency of `o` not in
        `keep` that is still alive gets `onObserverCancelled(o)`. Only older
        objects change, and every other object that lists `o` as a reader
        still does. */
    method ForgetDropped(o: Id, keep: set<Id>)
      requires Registry(decls, nodes, alive) && Ordered(decls, nodes) && Linked(decls, nodes, alive, {o})
      requires o < |decls| && !decls[o].CellDecl?
      modifies this`nodes
      ensures Ordered(decls, nodes) && Linked(decls, nodes, alive, {o}) && UnlinksBelow(old(nodes), nodes, o)
      ensures forall y :: y in old(nodes)[o].observing - keep && y in alive ==> o !in nodes[y].observers
      ensures forall y :: 0 <= y < |nodes| && y !in old(nodes)[o].observing - keep && o in old(nodes)[y].observers ==>
        o in nodes[y].observers
      ensures CellDeps(decls, old(nodes)[o].observing) ==>
        CellsOnly(decls, old(nodes), nodes, {o})
    {
      ghost var n0 := nodes;
      ghost var cells := CellDeps(decls, n0[o].observing);
      var todo := nodes[o].observing;
      while todo != {}
        invariant Ordered(decls, nodes) && Linked(decls, nodes, alive, {o}) && UnlinksBelow(n0, nodes, o)
        invariant cells ==> CellsOnly(decls, n0, nodes, {o})
        invariant todo <= n0[o].observing
        invariant forall y :: y in n0[o].observing - todo - keep && y in alive ==> o !in nodes[y].observers
        invariant forall y :: 0 <= y < |nodes| && y !in n0[o].observing - keep && o in n0[y].observers ==>
          o in nodes[y].observers
        decreases todo
      {
        var y :| y in todo;
        if y !in keep && y in alive {
          ghost var n1 := nodes;
          assert cells ==> y < |decls| && decls[y].CellDecl?;
          OnObserverCancelled(y, o, {o});
          ForgetStep(decls, n0, n1, nodes, y, o, cells);
        }
        todo := todo - {y};
      }
    }

    // ---------------------------------------------------------------- evaluation

    /** Runs closure `e`, owned by the object `lvl`, under the current context,
        which is either none or `lvl` itself. The ghost result `rd` is the set
        of objects read under that context. */
    method Eval(e: Expr, ghost lvl: nat) returns (r: int, ghost rd: set<Id>)
      requires EvalPre(decls, alive, Snap(), e, lvl)
      modifies this`nodes, this`updatedObservables, this`inTransaction, this`hasScheduled,
               this`queuedFlushes, this`currentObserverContext, this`reported, detector
      decreases lvl, 0, e, 1
      ensures EvalPost(decls, alive, old(Snap()), Snap(), e, lvl, r, rd)
    {
      match e
      case Lit(n) =>
        r, rd := n, {};
        LitRun(decls, alive, Snap(), n, lvl);
      case Get(x) =>
        r, rd := GetValue(x, lvl);
      case Add(_, _) =>
        r, rd := EvalPair(e, lvl);
      case Seq(_, _) =>
        r, rd := EvalPair(e, lvl);
      case If(_, _, _) =>
        r, rd := EvalIf(e, lvl);
      case Put(_, _) =>
        r, rd := EvalPut(e, lvl);
      case Atomic(_) =>
        r, rd := EvalAtomic(e, lvl);
      case Untracked(_) =>
        r, rd := EvalUntracked(e, lvl);
    }

    /** `a + b` or `a; b`: the two parts in order. */
    method EvalPair(e: Expr, ghost lvl: nat) returns (r: int, ghost rd: set<Id>)
      requires e.Add? || e.Seq?
      requires EvalPre(decls, alive, Snap(), e, lvl)
      modifies this`nodes, this`updatedObservables, this`inTransaction, this`hasScheduled,
               this`queuedFlushes, this`currentObserverContext, this`reported, detector
      decreases lvl, 0, e, 0
      ensures EvalPost(decls, alive, old(Snap()), Snap(), e, lvl, r, rd)
    {
      ghost var s0 := Snap();
      var a, b := if e.Add? then e.left else e.first, if e.Add? then e.right else e.last;
      SubPre(decls, alive, s0, e, a, lvl);
      var va, ra := Eval(a, lvl);
      ghost var s1 := Snap();
      PostPre(decls, alive, s0, s1, a, e, lvl, va, ra);
      SubPre(decls, alive, s1, e, b, lvl);
      var vb, rb := Eval(b, lvl);
      PairRun(decls, alive, s0, s1, Snap(), a, b, lvl, va, ra, vb, rb);
      r, rd := if e.Add? then va + vb else vb, ra + rb;
    }

    /** A conditional: the condition, then the branch it selects. */
    method EvalIf(e: Expr, ghost lvl: nat) returns (r: int, ghost rd: set<Id>)
      requires e.If? && EvalPre(decls, alive, Snap(), e, lvl)
      modifies this`nodes, this`updatedObservables, this`inTransaction, this`hasScheduled,
               this`queuedFlushes, this`currentObserverContext, this`reported, detector
      decreases lvl, 0, e, 0
      ensures EvalPost(decls, alive, old(Snap()), Snap(), e, lvl, r, rd)
    {
      ghost var s0 := Snap();
      SubPre(decls, alive, s0, e, e.cond, lvl);
      var vc, rc := Eval(e.cond, lvl);
      ghost var s1 := Snap();
      PostPre(decls, alive, s0, s1, e.cond, e, lvl, vc, rc);
      var branch := if vc != 0 then e.thn else e.els;
      SubPre(decls, alive, s1, e, branch, lvl);
      ghost var rv;
      r, rv := Eval(branch, lvl);
      IfRun(decls, alive, s0, s1, Snap(), e.cond, e.thn, e.els, lvl, vc, rc, r, rv);
      rd := rc + rv;
    }

    /** A write: the argument, then the `wrappedValue` set. */
    method EvalPut(e: Expr, ghost lvl: nat) returns (r: int, ghost rd: set<Id>)
      requires e.Put? && EvalPre(decls, alive, Snap(), e, lvl)
      modifies this`nodes, this`updatedObservables, this`inTransaction, this`hasScheduled,
               this`queuedFlushes, this`currentObserverContext, this`reported, detector
      decreases lvl, 0, e, 0
      ensures EvalPost(decls, alive, old(Snap()), Snap(), e, lvl, r, rd)
    {
      ghost var s0 := Snap();
      SubPre(decls, alive, s0, e, e.arg, lvl);
      r, rd := Eval(e.arg, lvl);
      PutRun(decls, alive, s0, Snap(), e.x, e.arg, lvl, r, rd);
      SetObservable(e.x, r);
    }

    /** `inTransaction { body }`. */
    method EvalAtomic(e: Expr, ghost lvl: nat) returns (r: int, ghost rd: set<Id>)
      requires e.Atomic? && EvalPre(decls, alive, Snap(), e, lvl)
      modifies this`nodes, this`updatedObservables, this`inTransaction, this`hasScheduled,
               this`queuedFlushes, this`currentObserverContext, this`reported, detector
      decreases lvl, 0, e, 0
      ensures EvalPost(decls, alive, old(Snap()), Snap(), e, lvl, r, rd)
    {
      ghost var s0 := Snap();
      AtomicPre(decls, alive, s0, e.body, lvl);
      var isFirst := BeginTransaction();
      r, rd := Eval(e.body, lvl);
      AtomicRun(decls, alive, s0, Snap(), e.body, lvl, r, rd);
      EndTransaction(isFirst);
    }

    /** `runWithoutObserverContext { body }`: the context is saved, cleared
        for the body, and restored. */
    method EvalUntracked(e: Expr, ghost lvl: nat) returns (r: int, ghost rd: set<Id>)
      requires e.Untracked? && EvalPre(decls, alive, Snap(), e, lvl)
      modifies this`nodes, this`updatedObservables, this`inTransaction, this`hasScheduled,
               this`queuedFlushes, this`currentObserverContext, this`reported, detector
      decreases lvl, 0, e, 0
      ensures EvalPost(decls, alive, old(Snap()), Snap(), e, lvl, r, rd)
    {
      ghost var s0 := Snap();
      UntrackedPre(decls, alive, s0, e.body, lvl);
      var saved := currentObserverContext;
      currentObserverContext := None;
      ghost var rb;
      r, rb := Eval(e.body, lvl);
      UntrackedRun(decls, alive, s0, Snap(), e.body, lvl, r, rb);
      currentObserverContext := saved;
      rd := {};
    }

    /** A read from a closure: a cell's `wrappedValue` get or a Computed's
        `value`. */
    method GetValue(x: Id, ghost lvl: nat) returns (r: int, ghost rd: set<Id>)
      requires EvalPre(decls, alive, Snap(), Get(x), lvl)
      modifies this`nodes, this`updatedObservables, this`inTransaction, this`hasScheduled,
               this`queuedFlushes, this`currentObserverContext, this`reported, detector
      decreases lvl, 0, Get(x), 0
      ensures EvalPost(decls, alive, old(Snap()), Snap(), Get(x), lvl, r, rd)
    {
      ghost var s0 := Snap();
      GetBound(decls, alive, s0, x, lvl);
      rd := ReadSet(s0, x);
      if decls[x].CellDecl? {
        GetCellRun(decls, alive, s0, x, lvl);
        r := ReadObservable(x);
      } else {
        GetComputedPre(decls, alive, s0, x, lvl);
        r := ComputedValue(x);
        GetComputedRun(decls, alive, s0, Snap(), x, lvl, r);
      }
    }

    /** `Computed.value`: registers the caller as a reader, then returns the
        cached value, computing it first on a miss. */
    method ComputedValue(c: Id) returns (r: int)
      requires ComputedPre(decls, alive, Snap(), c)
      modifies this`nodes, this`updatedObservables, this`inTransaction, this`hasScheduled,
               this`queuedFlushes, this`currentObserverContext, this`reported, detector
      decreases c, 4
      ensures ComputedPost(decls, alive, old(Snap()), Snap(), c, r)
    {
      ghost var s0 := Snap();
      ComputedRead(decls, alive, s0, c);
      WillGetValue(c);
      if nodes[c].cached.Some? {
        r := nodes[c].cached.value;
        ComputedHitRun(decls, alive, s0, c);
      } else {
        r := Recompute(c, s0);
      }
    }

    /** The miss branch of `Computed.value`, after `willGetValue`: the
        function runs tracked when the Computed has readers, and untracked
        with no context otherwise; either way the result is cached. */
    method Recompute(c: Id, ghost s0: State) returns (r: int)
      requires ComputedPre(decls, alive, s0, c) && s0.nodes[c].cached == None
      requires CanRead(s0, c) && Snap() == Read(s0, c)
      modifies this`nodes, this`updatedObservables, this`inTransaction, this`hasScheduled,
               this`queuedFlushes, this`currentObserverContext, this`reported, detector
      decreases c, 3
      ensures ComputedPost(decls, alive, s0, Snap(), c, r)
    {
      ComputedRead(decls, alive, s0, c);
      if nodes[c].observers != {} {
        r := RecomputeTracked(c, s0);
      } else {
        UntrackedPreC(decls, alive, s0, c);
        ghost var rd;
        r, rd := Eval(decls[c].computeFunc, c);
        ghost var s2 := Snap();
        nodes := nodes[c := nodes[c].(cached := Some(r))];
        ComputedUntrackedRun(decls, alive, s0, s2, c, r, rd);
      }
    }

    /** A Computed with readers recomputes inside
        `runWithoutObserverContext`, with itself as the context and inside the
        pruning bracket, so that its dependencies become what this run read
        (for a function over cells, exactly the reads of the path it took);
        the caller's context is restored afterwards. */
    method RecomputeTracked(c: Id, ghost s0: State) returns (r: int)
      requires ComputedPre(decls, alive, s0, c) && s0.nodes[c].cached == None
      requires CanRead(s0, c) && Snap() == Read(s0, c) && Observed(s0, c)
      modifies this`nodes, this`updatedObservables, this`inTransaction, this`hasScheduled,
               this`queuedFlushes, this`currentObserverContext, this`reported, detector
      decreases c, 2
      ensures ComputedPost(decls, alive, s0, Snap(), c, r)
    {
      var saved := currentObserverContext;
      ghost var rd, s4;
      r, rd, s4 := TrackedCompute(c, s0);
      StopTrackingRemovals(c);
      currentObserverContext := saved;
      assert Snap() == s4.(nodes := nodes, context := s0.context);
      ComputedTrackedRun(decls, alive, s0, s4, nodes, c, r, rd);
    }

    /** The body of the tracked recomputation up to `stopTrackingRemovals`:
        the Computed becomes the context, starts tracking removals, runs its
        function and caches the result. */
    method TrackedCompute(c: Id, ghost s0: State) returns (r: int, ghost rd: set<Id>, ghost s4: State)
      requires ComputedPre(decls, alive, s0, c) && CanRead(s0, c) && Snap() == Read(s0, c) && Observed(s0, c)
      modifies this`nodes, this`updatedObservables, this`inTransaction, this`hasScheduled,
               this`queuedFlushes, this`currentObserverContext, this`reported, detector
      decreases c, 1
      ensures EvalPost(decls, alive, TrackedStart(s0, c), s4, decls[c].computeFunc, c, r, rd)
      ensures c < |s4.nodes| && Snap() == s4.(nodes := s4.nodes[c := s4.nodes[c].(cached := Some(r))])
      ensures Registry(decls, nodes, alive) && Ordered(decls, nodes) && Linked(decls, nodes, alive, {})
      ensures nodes[c].observers != {}
    {
      EnterTracked(c, s0);
      TrackedPre(decls, alive, s0, c);
      r, rd := Eval(decls[c].computeFunc, c);
      s4 := Snap();
      TrackedCached(decls, alive, s0, s4, c, r, rd);
      CacheValue(c, r);
    }

    /** The recomputed value becomes the Computed's cache; nothing else changes. */
    method CacheValue(c: Id, r: int)
      requires c < |nodes|
      modifies this`nodes
      ensures Snap() == old(Snap()).(nodes := old(nodes)[c := old(nodes)[c].(cached := Some(r))])
    {
      nodes := nodes[c := nodes[c].(cached := Some(r))];
    }

    /** The Computed becomes the context and starts tracking removals. */
    method EnterTracked(c: Id, ghost s0: State)
      requires CanRead(s0, c) && Snap() == Read(s0, c)
      modifies this`nodes, this`currentObserverContext
      ensures Snap() == TrackedStart(s0, c)
    {
      currentObserverContext := Some(c);
      StartTrackingRemovals(c);
    }

    // ---------------------------------------------------------------- scheduling

    /** `willUpdate`: a reaction does nothing; a Computed schedules its own
        readers, which are newer than it. */
    method WillUpdate(q: Id)
      requires Scheduling(decls, alive, Snap()) && q < |decls| && !decls[q].CellDecl?
      modifies this`pendingUpdateList, this`pendingUpdatesDependencyCount, this`inTransaction,
               this`hasScheduled, this`queuedFlushes
      decreases |decls| - q, 4
      ensures Appended(decls, old(Snap()), Snap(), q)
      ensures decls[q].ComputedDecl? ==>
        forall y :: y in nodes[q].observers ==> y in pendingUpdateList[|old(pendingUpdateList)|..]
      ensures decls[q].ReactionDecl? ==> Snap() == old(Snap())
    {
      if decls[q].ComputedDecl? {
        ScheduleObserversForUpdate(q);
      } else {
        AppendedRefl(decls, alive, Snap(), q);
      }
    }

    /** `scheduleObserversForUpdate`: the coordinator gets a copy of the
        reader set, taken now. */
    method ScheduleObserversForUpdate(x: Id)
      requires Scheduling(decls, alive, Snap()) && x < |decls| && !decls[x].ReactionDecl?
      modifies this`pendingUpdateList, this`pendingUpdatesDependencyCount, this`inTransaction,
               this`hasScheduled, this`queuedFlushes
      decreases |decls| - x, 3
      ensures Appended(decls, old(Snap()), Snap(), x)
      ensures forall y :: y in nodes[x].observers ==> y in pendingUpdateList[|old(pendingUpdateList)|..]
    {
      var snapshot := nodes[x].observers;
      ScheduleForUpdates(snapshot, x);
    }

    /** `scheduleForUpdates(observers:)`: `_scheduleForUpdates` inside a
        transaction of its own. */
    method ScheduleForUpdates(observers: set<Id>, ghost b: Id)
      requires Scheduling(decls, alive, Snap())
      requires b < |decls| && forall q :: q in observers ==> b < q < |decls| && !decls[q].CellDecl?
      modifies this`pendingUpdateList, this`pendingUpdatesDependencyCount, this`inTransaction,
               this`hasScheduled, this`queuedFlushes
      decreases |decls| - b, 2
      ensures Appended(decls, old(Snap()), Snap(), b)
      ensures forall q :: q in observers ==> q in pendingUpdateList[|old(pendingUpdateList)|..]
    {
      ghost var s0 := Snap();
      var isFirst := BeginTransaction();
      ScheduleEach(observers, b);
      TxAppended(decls, alive, s0, Snap(), b);
      EndTransaction(isFirst);
    }

    /** `_scheduleForUpdates(observers:)`: every observer in the set is
        scheduled once. */
    method ScheduleEach(observers: set<Id>, ghost b: Id)
      requires Scheduling(decls, alive, Snap())
      requires b < |decls| && forall q :: q in observers ==> b < q < |decls| && !decls[q].CellDecl?
      modifies this`pendingUpdateList, this`pendingUpdatesDependencyCount, this`inTransaction,
               this`hasScheduled, this`queuedFlushes
      decreases |decls| - b, 1
      ensures Appended(decls, old(Snap()), Snap(), b)
      ensures forall q :: q in observers ==> q in pendingUpdateList[|old(pendingUpdateList)|..]
    {
      ghost var s0 := Snap();
      AppendedRefl(decls, alive, s0, b);
      var todo := observers;
      while todo != {}
        invariant todo <= observers
        invariant Appended(decls, s0, Snap(), b)
        invariant forall q :: q in observers - todo ==> q in pendingUpdateList[|s0.pending|..]
        decreases todo
      {
        var q :| q in todo;
        ScheduleOne(q, s0, b);
        todo := todo - {q};
      }
    }

    /** The body of the loop of `_scheduleForUpdates` for observer `q`: its
        count starts at the start count 0 the first time in a pass and goes
        up by one each later time, it is appended to the pending list, and
        it is told `willUpdate`. */
    method ScheduleOne(q: Id, ghost s0: State, ghost b: Id)
      requires Scheduling(decls, alive, s0) && Appended(decls, s0, Snap(), b)
      requires b < q < |decls| && !decls[q].CellDecl?
      modifies this`pendingUpdateList, this`pendingUpdatesDependencyCount, this`inTransaction,
               this`hasScheduled, this`queuedFlushes
      decreases |decls| - b, 0
      ensures Appended(decls, s0, Snap(), b)
      ensures q in pendingUpdateList[|s0.pending|..]
      ensures forall y :: y in old(pendingUpdateList)[|s0.pending|..] ==> y in pendingUpdateList[|s0.pending|..]
    {
      ghost var s1 := Snap();
      AppendedKeeps(decls, alive, s0, s1, b);
      ListOneKeeps(decls, alive, s1, q);
      ListObserver(q);
      WillUpdate(q);
      AppendOne(decls, s0, s1, Snap(), q, b);
    }

    /** Counting and listing one scheduling of `q`. */
    method ListObserver(q: Id)
      modifies this`pendingUpdateList, this`pendingUpdatesDependencyCount
      ensures Snap() == ListOne(old(Snap()), q)
    {
      if q in pendingUpdatesDependencyCount {
        pendingUpdatesDependencyCount := pendingUpdatesDependencyCount[q := pendingUpdatesDependencyCount[q] + 1];
      } else {
        pendingUpdatesDependencyCount := pendingUpdatesDependencyCount[q := 0];
      }
      pendingUpdateList := pendingUpdateList + [q];
    }

    // ---------------------------------------------------------------- the flush block

    /** `_resolveUpdatedObservers`: for each changed cell, its readers are
        scheduled (and through `willUpdate` every Computed's readers in
        turn); then the changed set is emptied. */
    method ResolveUpdatedObservers()
      requires Flushing(decls, alive, Snap()) && pendingUpdateList == [] && pendingUpdatesDependencyCount == map[]
      modifies this`pendingUpdateList, this`pendingUpdatesDependencyCount, this`inTransaction,
               this`hasScheduled, this`queuedFlushes, this`updatedObservables
      ensures Flushing(decls, alive, Snap()) && CountsMatch(pendingUpdateList, pendingUpdatesDependencyCount)
      ensures Snap() == old(Snap()).(updated := {}, pending := pendingUpdateList, counts := pendingUpdatesDependencyCount)
      ensures forall x, y :: x in old(updatedObservables) && y in nodes[x].observers ==> y in pendingUpdateList
      ensures ClosedFrom(decls, nodes, pendingUpdateList, 0)
    {
      ghost var s0 := Snap();
      var todo := updatedObservables;
      while todo != {}
        invariant todo <= s0.updated && Appended(decls, s0, Snap(), -1)
        invariant forall x, y :: x in s0.updated - todo && y in nodes[x].observers ==> y in pendingUpdateList
        decreases todo
      {
        var x :| x in todo;
        ghost var s1 := Snap();
        AppendedKeeps(decls, alive, s0, s1, -1);
        ScheduleEach(nodes[x].observers, x);
        AppendedTrans(decls, s0, s1, Snap(), -1, x);
        Listed(s1.pending, pendingUpdateList, |s1.pending|);
        todo := todo - {x};
      }
      updatedObservables := {};
    }

    /** `_updateCurrentObservers`: walks the pending list; an observer whose
        count is at most 0 is updated, any other has its count decremented;
        then the list and the counts are emptied. Every listed observer has
        a count, so the branch for a missing one (an assertion failure in
        the source) is never taken. The ghost result is the states the walk
        went through, one visit per entry, from the state before the walk to
        the state it leaves. */
    method UpdateCurrentObservers() returns (ghost states: seq<State>)
      requires Flushing(decls, alive, Snap()) && CountsMatch(pendingUpdateList, pendingUpdatesDependencyCount)
      modifies this`nodes, this`updatedObservables, this`inTransaction, this`hasScheduled,
               this`queuedFlushes, this`currentObserverContext, this`reported, detector,
               this`pendingUpdateList, this`pendingUpdatesDependencyCount, this`updatedCalls
      ensures Flushing(decls, alive, Snap()) && pendingUpdateList == [] && pendingUpdatesDependencyCount == map[]
      ensures updatedCalls == old(updatedCalls) + Drain(old(pendingUpdateList), old(pendingUpdatesDependencyCount)).fired
      ensures old(updatedObservables) <= updatedObservables && SameCancelled(old(nodes), nodes)
      ensures SinksPending(decls, Snap(), updatedCalls[|old(updatedCalls)|..])
      ensures |states| == |old(pendingUpdateList)| + 1 && Walk(decls, alive, old(pendingUpdateList), states)
      ensures states[0] == Bare(old(Snap())) && states[|old(pendingUpdateList)|] == Bare(Snap())
    {
      PassOutcome(pendingUpdateList, pendingUpdatesDependencyCount);
      states := WalkPending();
      // The assertion at ObserverAdministrator.swift:197 holds: every count
      // has come down to 0.
      assert AllZero(pendingUpdatesDependencyCount);
      PendingCleared(decls, alive, Snap());
      pendingUpdateList := [];
      pendingUpdatesDependencyCount := map[];
    }

    /** The loop of `_updateCurrentObservers`, over a list the counts agree
        with, as scheduling leaves them. The ghost result is the states the
        walk went through. */
    method WalkPending() returns (ghost states: seq<State>)
      requires Flushing(decls, alive, Snap()) && CountsMatch(pendingUpdateList, pendingUpdatesDependencyCount)
      modifies this`nodes, this`updatedObservables, this`inTransaction, this`hasScheduled,
               this`queuedFlushes, this`currentObserverContext, this`reported, detector,
               this`pendingUpdatesDependencyCount, this`updatedCalls
      ensures Flushing(decls, alive, Snap()) && pendingUpdateList == old(pendingUpdateList)
      ensures var pass := Drain(old(pendingUpdateList), old(pendingUpdatesDependencyCount));
        updatedCalls == old(updatedCalls) + pass.fired && pendingUpdatesDependencyCount == pass.counts
      ensures old(updatedObservables) <= updatedObservables && SameCancelled(old(nodes), nodes)
      ensures SinksPending(decls, Snap(), updatedCalls[|old(updatedCalls)|..])
      ensures |states| == |old(pendingUpdateList)| + 1 && Walk(decls, alive, old(pendingUpdateList), states)
      ensures states[0] == Bare(old(Snap())) && states[|old(pendingUpdateList)|] == Bare(Snap())
    {
      WalkBegin(decls, alive, Snap());
      var list := pendingUpdateList;
      ghost var pass := Drain(list, pendingUpdatesDependencyCount);
      ghost var calls0 := updatedCalls;
      states := WalkList(list, pass, calls0, [Bare(Snap())]);
      WalkDone(decls, alive, list, pass, calls0, states, Snap());
    }

    /** The walk itself: each pending entry is visited in turn. */
    method WalkList(list: seq<Id>, ghost pass: Pass, ghost calls0: seq<Id>, ghost states0: seq<State>)
      returns (ghost states: seq<State>)
      requires Walked(list, 0, pass, calls0, states0)
      modifies this`nodes, this`updatedObservables, this`inTransaction, this`hasScheduled,
               this`queuedFlushes, this`currentObserverContext, this`reported, detector,
               this`pendingUpdatesDependencyCount, this`updatedCalls
      ensures Walked(list, |list|, pass, calls0, states) && states[0] == states0[0]
      ensures old(updatedObservables) <= updatedObservables && SameCancelled(old(nodes), nodes)
    {
      states := states0;
      var i := 0;
      while i < |list|
        invariant 0 <= i <= |list|
        invariant Walked(list, i, pass, calls0, states) && states[0] == states0[0]
        invariant old(updatedObservables) <= updatedObservables && SameCancelled(old(nodes), nodes)
      {
        WalkStep(list, i, pass, calls0, states);
        states := states + [Bare(Snap())];
        i := i + 1;
      }
    }

    /** The walk over `list` has done its first `i` steps of the pass `pass`,
        which started with the calls `calls0`, and went through `states`. */
    ghost predicate Walked(list: seq<Id>, i: nat, pass: Pass, calls0: seq<Id>, states: seq<State>)
      reads this, detector
    {
      WalkedAt(decls, alive, list, i, pass, calls0, states, Snap())
    }

    /** One step of the walk: the pending entry at `i` is visited. */
    method WalkStep(list: seq<Id>, i: nat, ghost pass: Pass, ghost calls0: seq<Id>, ghost states: seq<State>)
      requires i < |list| && Walked(list, i, pass, calls0, states)
      modifies this`nodes, this`updatedObservables, this`inTransaction, this`hasScheduled,
               this`queuedFlushes, this`currentObserverContext, this`reported, detector,
               this`pendingUpdatesDependencyCount, this`updatedCalls
      ensures Walked(list, i + 1, pass, calls0, states + [Bare(Snap())])
      ensures old(updatedObservables) <= updatedObservables && SameCancelled(old(nodes), nodes)
    {
      ghost var s0 := Snap();
      VisitPending(list[i]);
      WalkAdvance(decls, alive, list, i, pass, calls0, states, s0, Snap());
    }

    /** One step of the walk over the pending list. */
    method VisitPending(o: Id)
      requires Flushing(decls, alive, Snap()) && o in pendingUpdatesDependencyCount
      requires o < |decls| && !decls[o].CellDecl?
      modifies this`nodes, this`updatedObservables, this`inTransaction, this`hasScheduled,
               this`queuedFlushes, this`currentObserverContext, this`reported, detector,
               this`pendingUpdatesDependencyCount, this`updatedCalls
      ensures Flushing(decls, alive, Snap()) && pendingUpdateList == old(pendingUpdateList)
      ensures var c := old(pendingUpdatesDependencyCount);
        if c[o] <= 0 then pendingUpdatesDependencyCount == c && updatedCalls == old(updatedCalls) + [o]
        else pendingUpdatesDependencyCount == c[o := c[o] - 1] && updatedCalls == old(updatedCalls)
      ensures old(pendingUpdatesDependencyCount)[o] <= 0 ==>
        Fired(decls, alive, old(Snap()), Snap().(updatedCalls := old(updatedCalls)), o)
      ensures old(pendingUpdatesDependencyCount)[o] > 0 ==>
        Snap() == old(Snap()).(counts := pendingUpdatesDependencyCount)
      ensures old(updatedObservables) <= updatedObservables
    {
      var depCount := pendingUpdatesDependencyCount[o];
      if depCount <= 0 {
        updatedCalls := updatedCalls + [o];
        Updated(o);
      } else {
        pendingUpdatesDependencyCount := pendingUpdatesDependencyCount[o := depCount - 1];
      }
    }

    /** `updated()`: a Computed drops its cache (`Computed.updated`); a
        reaction runs its closure unless it was cancelled
        (`ObserverContext.updated`). */
    method Updated(o: Id)
      requires Flushing(decls, alive, Snap()) && o < |decls| && !decls[o].CellDecl?
      modifies this`nodes, this`updatedObservables, this`inTransaction, this`hasScheduled,
               this`queuedFlushes, this`currentObserverContext, this`reported, detector
      ensures Fired(decls, alive, old(Snap()), Snap(), o)
    {
      if decls[o].ComputedDecl? {
        InvalidateKeeps(decls, alive, Snap(), o);
        nodes := nodes[o := nodes[o].(cached := None)];
      } else if !nodes[o].cancelled {
        RunReaction(o);
      }
    }

    /** The closure `addReaction` gives a reaction: with the reaction as the
        context and inside the pruning bracket it runs the tracked function,
        hands the value to `onChange` (still under the reaction's context),
        and restores the previous context. */
    method RunReaction(o: Id)
      requires Flushing(decls, alive, Snap()) && o < |decls| && decls[o].ReactionDecl? && !nodes[o].cancelled
      modifies this`nodes, this`updatedObservables, this`inTransaction, this`hasScheduled,
               this`queuedFlushes, this`currentObserverContext, this`reported, detector
      ensures Fired(decls, alive, old(Snap()), Snap(), o)
    {
      ghost var s0 := Snap();
      var prev := currentObserverContext;
      currentObserverContext := Some(o);
      StartTrackingRemovals(o);
      assert Snap() == ReactionStart(s0, o);
      ReactionPre(decls, alive, s0, o);
      var v, rd := Eval(decls[o].handler.track, o);
      ghost var s4 := Snap();
      if ReadsCellsOnly(decls[o].handler.track, decls) {
        ReactionDepsCells(decls, alive, s0, s4, o, v, rd);
      }
      StopTrackingRemovals(o);
      ReactionTrackedRun(decls, alive, s0, s4, nodes, o, v, rd);
      OnChange(o, v, s0);
      currentObserverContext := prev;
    }

    /** `onChange(dataInput)`: the tracked value is stored into each sink. */
    method OnChange(o: Id, v: int, ghost s0: State)
      requires o < |decls| && decls[o].ReactionDecl? && ReactionRan(decls, alive, s0, Snap(), o, v, [])
      requires Flushing(decls, alive, s0) && !s0.nodes[o].cancelled
      modifies this`nodes, this`updatedObservables, this`inTransaction, this`hasScheduled,
               this`queuedFlushes, this`reported, detector
      ensures Fired(decls, alive, s0, Snap().(context := None), o)
    {
      var sinks := decls[o].handler.sinks;
      assert WfDecl(decls[o], o, decls, alive);
      assert sinks[..0] == [];
      for i := 0 to |sinks|
        invariant SinksRan(decls, alive, s0, Snap(), o, v, sinks, i)
      {
        SinkStep(decls, alive, s0, Snap(), o, v, sinks, i);
        SetObservable(sinks[i], v);
      }
      SinksDone(decls, alive, s0, Snap(), o, v);
    }

    /** One round of the flush block's loop: `_resolveUpdatedObservers`,
        then `_updateCurrentObservers`. The ghost result is the pending list
        the round built: every reader of a changed cell, and every reader of
        a listed Computed, is listed after it; every observer on it had
        `updated()` called exactly once in the round, however many times it
        was listed, and a listed Computed before each of its readers, so a
        reaction reading it finds its cache already dropped. The ghost
        `states` are the states the round went through, its bookkeeping left
        out: the first has no cell changed, and each later one is what
        visiting the next pending entry left (`Round`). */
    method FlushPass() returns (ghost scheduled: seq<Id>, ghost states: seq<State>)
      requires Flushing(decls, alive, Snap()) && pendingUpdateList == [] && pendingUpdatesDependencyCount == map[]
      modifies this`nodes, this`updatedObservables, this`inTransaction, this`hasScheduled,
               this`queuedFlushes, this`currentObserverContext, this`reported, detector,
               this`pendingUpdateList, this`pendingUpdatesDependencyCount, this`updatedCalls
      ensures Flushing(decls, alive, Snap()) && pendingUpdateList == [] && pendingUpdatesDependencyCount == map[]
      ensures forall x, y :: x in old(updatedObservables) && y in old(nodes)[x].observers ==> y in scheduled
      ensures ClosedFrom(decls, old(nodes), scheduled, 0)
      ensures |old(updatedCalls)| <= |updatedCalls| && updatedCalls[..|old(updatedCalls)|] == old(updatedCalls)
      ensures forall p :: Occurrences(updatedCalls[|old(updatedCalls)|..], p) == if p in scheduled then 1 else 0
      ensures forall c, y :: c in scheduled && c < |old(nodes)| && decls[c].ComputedDecl? && y in old(nodes)[c].observers ==>
        Before(updatedCalls[|old(updatedCalls)|..], c, y)
      ensures SinksPending(decls, Snap(), updatedCalls[|old(updatedCalls)|..]) && SameCancelled(old(nodes), nodes)
      ensures Round(decls, alive, Bare(old(Snap())), scheduled, states)
      ensures |states| == |scheduled| + 1 && states[|scheduled|] == Bare(Snap())
    {
      ResolveUpdatedObservers();
      scheduled := pendingUpdateList;
      ghost var counts := pendingUpdatesDependencyCount;
      ghost var calls := updatedCalls;
      ghost var n0 := nodes;
      states := UpdateCurrentObservers();
      PassOutcome(scheduled, counts);
      assert updatedCalls[..|calls|] == calls && updatedCalls[|calls|..] == Drain(scheduled, counts).fired;
      PassOrder(decls, n0, scheduled, counts);
    }

    /** The block `_scheduleUpdate` enqueues on the main queue: while cells
        are changed, run a round; then clear the flag so that the next
        change enqueues a new block. Writes made by observers during a
        round are propagated by a later round. The source loops for as long
        as changes keep coming; `fuel` bounds the rounds, and `drained` says
        whether the loop ended on its own. The ghost `log` holds each round's
        pending list and the states it went through (`Rounds`), from the
        state the block started in to the state it leaves. */
    method Flush(fuel: nat) returns (drained: bool, ghost log: seq<RoundLog>)
      requires Valid() && queuedFlushes == 1
      modifies this`nodes, this`updatedObservables, this`inTransaction, this`hasScheduled,
               this`queuedFlushes, this`currentObserverContext, this`reported, detector,
               this`pendingUpdateList, this`pendingUpdatesDependencyCount, this`updatedCalls
      ensures drained <==> updatedObservables == {}
      ensures drained ==> Valid() && !hasScheduled && queuedFlushes == 0
      ensures !drained ==> Flushing(decls, alive, Snap()) && pendingUpdateList == [] && pendingUpdatesDependencyCount == map[]
      ensures |old(updatedCalls)| <= |updatedCalls| && updatedCalls[..|old(updatedCalls)|] == old(updatedCalls)
      ensures fuel > 0 ==> ReadersCalled(old(Snap()), updatedCalls[|old(updatedCalls)|..])
      ensures SameCancelled(old(nodes), nodes)
      ensures |log| <= fuel && (!drained ==> |log| == fuel)
      ensures Rounds(decls, alive, Bare(old(Snap())).(queuedFlushes := 0), log, Bare(Snap()).(hasScheduled := true))
    {
      FlushBegin(decls, alive, Snap());
      queuedFlushes := 0;
      log := [];
      var rounds := 0;
      while updatedObservables != {} && rounds < fuel
        invariant rounds <= fuel && |log| == rounds && FlushedSoFar(decls, alive, old(Snap()), log, Snap())
        decreases fuel - rounds
      {
        ghost var s1 := Snap();
        ghost var scheduled, states := FlushPass();
        FlushStep(decls, alive, old(Snap()), log, s1, Snap(), scheduled, states);
        log := log + [RoundLog(scheduled, states)];
        rounds := rounds + 1;
      }
      drained := updatedObservables == {};
      if drained {
        hasScheduled := false;
      }
    }

    // ---------------------------------------------------------------- registration

    /** `addReaction(observer:_:)` for the new reaction `o`: with the detector
        cleared and `o` as the context, the tracked function runs once,
        without the pruning bracket and without `onChange`; the previous
        context is restored. The two debug assertions become results:
        `cyclic` is the detector's verdict on the run (the source asserts it
        is false) and `observing` is `isObserving` (the source asserts it is
        true). The ghost result `rd` is what the run read under `o`. */
    method AddReaction(o: Id) returns (cyclic: bool, observing: bool, ghost rd: set<Id>)
      requires Valid() && o < |decls| && decls[o].ReactionDecl?
      modifies this`nodes, this`updatedObservables, this`inTransaction, this`hasScheduled,
               this`queuedFlushes, this`currentObserverContext, this`reported, detector
      ensures Valid() && o < |nodes| && updatedCalls == old(updatedCalls) && Kept(decls, old(nodes), nodes, Some(o))
      ensures nodes[o].observing == old(nodes)[o].observing + rd && nodes[o].cancelled == old(nodes)[o].cancelled
      ensures !nodes[o].cancelled ==>
        forall y :: y in alive && y < |nodes| ==> (o in nodes[y].observers <==> y in nodes[o].observing)
      ensures var t := decls[o].handler.track; MustTrack(t) <= rd <= MayTrack(t)
      ensures observing <==> old(nodes)[o].isObserving || rd != {}
      ensures var t := decls[o].handler.track; MustTrack(t) * MustWrite(t) != {} ==> cyclic
      ensures var t := decls[o].handler.track; ReadsCellsOnly(t, decls) ==>
        var out := Run(t, Values(old(nodes)));
        && rd == out.tracked && (cyclic <==> out.tracked * Elems(out.written) != {})
        && Values(nodes) == out.store && reported == old(reported) + out.written
        && updatedObservables == old(updatedObservables) + Elems(out.written)
      ensures detector.accessedObservables == {} && detector.settedObservables == {}
    {
      rd := TrackUnder(o);
      cyclic := detector.IsCyclic();
      detector.Clear();
      observing := nodes[o].isObserving;
    }

    /** The tracking run of `AddReaction`, up to the detector's verdict: the
        detector starts empty, the closure runs under the reaction, and the
        previous context is restored. */
    method TrackUnder(o: Id) returns (ghost rd: set<Id>)
      requires Valid() && o < |decls| && decls[o].ReactionDecl?
      modifies this`nodes, this`updatedObservables, this`inTransaction, this`hasScheduled,
               this`queuedFlushes, this`currentObserverContext, this`reported, detector
      ensures Valid() && o < |nodes| && updatedCalls == old(updatedCalls) && Kept(decls, old(nodes), nodes, Some(o))
      ensures nodes[o].observing == old(nodes)[o].observing + rd && nodes[o].cancelled == old(nodes)[o].cancelled
      ensures nodes[o].isObserving == (old(nodes)[o].isObserving || rd != {})
      ensures var t := decls[o].handler.track; MustTrack(t) <= rd <= MayTrack(t)
      ensures var t := decls[o].handler.track; MustTrack(t) * MustWrite(t) != {} ==> detector.IsCyclic()
      ensures var t := decls[o].handler.track; ReadsCellsOnly(t, decls) ==>
        var out := Run(t, Values(old(nodes)));
        && rd == out.tracked && (detector.IsCyclic() <==> out.tracked * Elems(out.written) != {})
        && Values(nodes) == out.store && reported == old(reported) + out.written
        && updatedObservables == old(updatedObservables) + Elems(out.written)
    {
      detector.Clear();
      ghost var s0 := Snap();
      var prev := currentObserverContext;
      currentObserverContext := Some(o);
      RegisterPre(decls, alive, s0, o);
      var v;
      v, rd := Eval(decls[o].handler.track, o);
      ghost var s2 := Snap();
      currentObserverContext := prev;
      RegisterRun(decls, alive, s0, s2, o, v, rd);
      if ReadsCellsOnly(decls[o].handler.track, decls) {
        RegisterCells(decls, s0.(context := Some(o)), s2, decls[o].handler.track, v, rd);
      }
    }

    // ---------------------------------------------------------------- public API

    /** `reaction(trackFunc, onChange)`: a new `ObserverContext` registered
        through the coordinator. The returned id stands for the context's
        cancellable. */
    method Reaction(h: Handler) returns (o: Id, cyclic: bool, observing: bool)
      requires Valid() && WfHandler(h, |decls|, decls, alive)
      modifies this`decls, this`nodes, this`alive, this`updatedObservables, this`inTransaction,
               this`hasScheduled, this`queuedFlushes, this`currentObserverContext, this`reported, detector
      ensures Valid() && o == old(|decls|) && decls == old(decls) + [ReactionDecl(h)] && alive == old(alive) + {o}
      ensures MustTrack(h.track) <= nodes[o].observing <= MayTrack(h.track)
      ensures forall y :: y in alive && y < |nodes| ==> (o in nodes[y].observers <==> y in nodes[o].observing)
      ensures ReadsCellsOnly(h.track, decls) ==>
        var out := Run(h.track, Values(old(nodes) + [FreshNode(0)]));
        && nodes[o].observing == out.tracked && (cyclic <==> out.tracked * Elems(out.written) != {})
        && Values(nodes) == out.store && reported == old(reported) + out.written
        && updatedObservables == old(updatedObservables) + Elems(out.written)
      ensures observing <==> nodes[o].observing != {}
      ensures MustTrack(h.track) * MustWrite(h.track) != {} ==> cyclic
      ensures !nodes[o].cancelled && updatedCalls == old(updatedCalls) && SameCancelled(old(nodes), nodes)
    {
      o := Allocate(ReactionDecl(h), 0);
      ghost var rd;
      cyclic, observing, rd := AddReaction(o);
    }

    /** `autorun(closure)`: a reaction whose `onChange` does nothing. */
    method Autorun(track: Expr) returns (o: Id, cyclic: bool, observing: bool)
      requires Valid() && WfExpr(track, |decls|, decls, alive)
      modifies this`decls, this`nodes, this`alive, this`updatedObservables, this`inTransaction,
               this`hasScheduled, this`queuedFlushes, this`currentObserverContext, this`reported, detector
      ensures Valid() && o == old(|decls|) && decls == old(decls) + [ReactionDecl(Handler(track, []))]
      ensures alive == old(alive) + {o}
      ensures MustTrack(track) <= nodes[o].observing <= MayTrack(track)
      ensures forall y :: y in alive && y < |nodes| ==> (o in nodes[y].observers <==> y in nodes[o].observing)
      ensures ReadsCellsOnly(track, decls) ==>
        var out := Run(track, Values(old(nodes) + [FreshNode(0)]));
        && nodes[o].observing == out.tracked && (cyclic <==> out.tracked * Elems(out.written) != {})
        && Values(nodes) == out.store && reported == old(reported) + out.written
        && updatedObservables == old(updatedObservables) + Elems(out.written)
      ensures observing <==> nodes[o].observing != {}
      ensures MustTrack(track) * MustWrite(track) != {} ==> cyclic
      ensures !nodes[o].cancelled && updatedCalls == old(updatedCalls) && SameCancelled(old(nodes), nodes)
    {
      o, cyclic, observing := Reaction(Handler(track, []));
    }

    /** `computed(f)`: a new `Computed` that has not evaluated `f`, has no
        cached value and no edges. */
    method NewComputed(f: Expr) returns (c: Id)
      requires Valid() && WfExpr(f, |decls|, decls, alive)
      modifies this`decls, this`nodes, this`alive
      ensures Valid() && c == old(|decls|) && decls == old(decls) + [ComputedDecl(f)] && alive == old(alive) + {c}
      ensures nodes == old(nodes) + [FreshNode(0)]
    {
      c := Allocate(ComputedDecl(f), 0);
    }

    /** `inTransaction(body)` from outside any closure: the body runs with the
        flag set, so every cell it writes joins the changed set and no
        observer runs; leaving the outermost transaction requests one flush.
        A body that reads only cells does what `Run` says: its value, the
        cells' new values, and its writes reported in order. */
    method InTransaction(body: Expr) returns (r: int)
      requires Valid() && WfExpr(body, |decls|, decls, alive)
      modifies this`nodes, this`updatedObservables, this`inTransaction, this`hasScheduled,
               this`queuedFlushes, this`currentObserverContext, this`reported, detector
      ensures Valid() && hasScheduled && queuedFlushes == 1
      ensures old(updatedObservables) + MustWrite(body) <= updatedObservables
      ensures updatedCalls == old(updatedCalls)
      ensures Kept(decls, old(nodes), nodes, None)
      ensures ReadsCellsOnly(body, decls) ==>
        var out := Run(body, Values(old(nodes)));
        && r == out.value && Values(nodes) == out.store && reported == old(reported) + out.written
        && updatedObservables == old(updatedObservables) + Elems(out.written)
        && CellsOnly(decls, old(nodes), nodes, {})
    {
      ghost var s0 := Snap();
      var isFirst := BeginTransaction();
      ghost var rd;
      r, rd := Eval(body, |decls|);
      ghost var s1 := Snap();
      EndTransaction(isFirst);
      TransactionRun(decls, alive, s0, s1, body, r, rd);
    }

    /** A read from outside any closure: a cell's `wrappedValue` get or a
        Computed's `value`. With no context no edge is made; a cell yields
        its stored value and changes nothing; a Computed yields its cached
        value, computing and caching it first on a miss. */
    method ValueOf(x: Id) returns (r: int)
      requires Valid() && x in alive && x < |decls| && !decls[x].ReactionDecl?
      modifies this`nodes, this`updatedObservables, this`inTransaction, this`hasScheduled,
               this`queuedFlushes, this`currentObserverContext, this`reported, detector
      ensures Valid() && updatedCalls == old(updatedCalls) && Kept(decls, old(nodes), nodes, None)
      ensures decls[x].CellDecl? ==> r == old(nodes)[x].value && Snap() == old(Snap())
      ensures decls[x].ComputedDecl? ==> nodes[x].cached == Some(r)
      ensures decls[x].ComputedDecl? && old(nodes)[x].cached.Some? ==>
        r == old(nodes)[x].cached.value && Snap() == old(Snap())
      ensures decls[x].ComputedDecl? && old(nodes)[x].cached == None && ReadsCellsOnly(decls[x].computeFunc, decls) ==>
        var out := Run(decls[x].computeFunc, Values(old(nodes)));
        && r == out.value && Values(nodes) == out.store && reported == old(reported) + out.written
        && updatedObservables == old(updatedObservables) + Elems(out.written)
    {
      if decls[x].CellDecl? {
        r := ReadObservable(x);
      } else {
        ghost var s0 := Snap();
        r := ComputedValue(x);
        SettledStep(decls, alive, s0, Snap(), x + 1, {});
      }
    }

    /** `wrappedValue` set from outside any closure: the value is stored, the
        cell is reported (also when the value is unchanged) and one flush is
        requested; no observer runs before the flush. */
    method Set(x: Id, v: int)
      requires Valid() && x in alive && x < |decls| && decls[x].CellDecl?
      modifies this`nodes, this`updatedObservables, this`inTransaction, this`hasScheduled,
               this`queuedFlushes, this`reported, detector
      ensures Valid() && hasScheduled && queuedFlushes == 1
      ensures nodes == old(nodes)[x := old(nodes)[x].(value := v)]
      ensures updatedObservables == old(updatedObservables) + {x} && reported == old(reported) + [x]
      ensures updatedCalls == old(updatedCalls)
    {
      StoreSettled(decls, alive, Snap(), x, v);
      SetObservable(x, v);
    }

    /** An in-place mutation through the wrapper (`cell.wrappedValue += d`):
        one get, then one set, so the cell is reported once. */
    method Mutate(x: Id, d: int)
      requires Valid() && x in alive && x < |decls| && decls[x].CellDecl?
      modifies this`nodes, this`updatedObservables, this`inTransaction, this`hasScheduled,
               this`queuedFlushes, this`currentObserverContext, this`reported, detector
      ensures Valid() && hasScheduled && queuedFlushes == 1
      ensures nodes == old(nodes)[x := old(nodes)[x].(value := old(nodes)[x].value + d)]
      ensures updatedObservables == old(updatedObservables) + {x} && reported == old(reported) + [x]
    {
      var r := ValueOf(x);
      Set(x, r + d);
    }

    /** `cancel()` on observer `o`, which fires its cancellable; a cancellable
        fires once, so a second call does nothing. A reaction's cancellable
        drops the closure, so every later `updated()` is a no-op, and tells
        each dependency still alive to forget the reaction, keeping its own
        back-links. A Computed's cancellable runs
        `unobserveFromAllObservables`. */
    method Cancel(o: Id)
      requires Valid() && o < |decls| && !decls[o].CellDecl?
      modifies this`nodes
      ensures Valid() && nodes[o].cancelled
      ensures old(nodes)[o].cancelled ==> nodes == old(nodes)
      ensures !old(nodes)[o].cancelled ==>
        forall y :: y in old(nodes)[o].observing && y in alive ==> o !in nodes[y].observers
      ensures !old(nodes)[o].cancelled ==>
        nodes[o] == old(nodes)[o].(cancelled := true,
                                   observing := if decls[o].ReactionDecl? then old(nodes)[o].observing else {})
      ensures forall q :: 0 <= q < |nodes| && q != o ==>
        if q < o then Unlinked(old(nodes)[q], nodes[q]) else nodes[q] == old(nodes)[q]
      ensures forall c :: c in old(nodes)[o].observing && c < |nodes| && decls[c].ComputedDecl? && nodes[c].observers == {} ==>
        nodes[c].observing == {} && forall y :: y in alive && y < |nodes| ==> c !in nodes[y].observers
    {
      if nodes[o].cancelled {
        return;
      }
      ghost var s0 := Snap();
      FireCancellable(o);
      RelinkedSettled(decls, alive, s0, nodes);
      assert Snap() == s0.(nodes := nodes);
      Orphans(decls, nodes, alive);
    }

    /** The body of the cancellable of observer `o`, which has not fired:
        it is marked cancelled, a reaction's dependencies forget it, and a
        Computed unobserves all of them. */
    method FireCancellable(o: Id)
      requires Registry(decls, nodes, alive) && Ordered(decls, nodes) && Linked(decls, nodes, alive, {})
      requires Quiet(nodes, |nodes|) && o < |decls| && !decls[o].CellDecl? && !nodes[o].cancelled
      modifies this`nodes
      ensures Ordered(decls, nodes) && Linked(decls, nodes, alive, {}) && Quiet(nodes, |nodes|)
      ensures forall y :: y in old(nodes)[o].observing && y in alive ==> o !in nodes[y].observers
      ensures nodes[o] == old(nodes)[o].(cancelled := true,
                                          observing := if decls[o].ReactionDecl? then old(nodes)[o].observing else {})
      ensures forall q :: 0 <= q < |nodes| && q != o ==>
        if q < o then Unlinked(old(nodes)[q], nodes[q]) else nodes[q] == old(nodes)[q]
    {
      SameEdges(decls, alive, nodes, nodes[o := nodes[o].(cancelled := true)]);
      nodes := nodes[o := nodes[o].(cancelled := true)];
      ghost var n1 := nodes;
      if decls[o].ReactionDecl? {
        NotifyDependencies(o, {o});
        CancelledLinked(decls, nodes, alive, o);
        UnlinksPreserve(decls, n1, nodes, o, |nodes|);
      } else {
        UnobserveFromAllObservables(o, {});
        UnlinksPreserve(decls, n1, nodes, o + 1, |nodes|);
      }
    }

    /** The last strong reference to cell `x` goes away, so every weak
        back-link to it now reads as `nil`. Closures and the changed set hold
        their cells strongly, so neither may refer to `x`. */
    method Release(x: Id)
      requires Valid() && x in alive && x < |decls| && decls[x].CellDecl?
      requires x !in updatedObservables && forall q :: 0 <= q < |decls| ==> !Captures(decls[q], x)
      modifies this`alive
      ensures Valid() && alive == old(alive) - {x}
    {
      forall q | 0 <= q < |decls| ensures WfDecl(decls[q], q, decls, alive - {x}) {
        WfDeclRelease(decls[q], q, decls, alive, x);
      }
      alive := alive - {x};
    }
  }
}
