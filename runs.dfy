/**
 * What running a closure does to the engine, and what a `Computed` getter
 * does: the pre- and postconditions of the engine's `Eval` and
 * `ComputedValue`, as relations between two `State`s, and one lemma per way
 * of building a run out of smaller runs.
 */
module Runs {
  import opened Wrappers
  import opened Closures
  import opened Graph
  import opened EngineState

  /** Flush requests only accumulate: a requested flush stays requested, a new
      request enqueues exactly one block, and inside a transaction none is
      made. */
  ghost predicate Requests(s0: State, s1: State) {
    && (s0.hasScheduled ==> s1.hasScheduled)
    && s1.queuedFlushes == s0.queuedFlushes + (if s1.hasScheduled && !s0.hasScheduled then 1 else 0)
    && (s0.inTransaction ==> s1.hasScheduled == s0.hasScheduled)
  }

  /** What every run owned by object `lvl` keeps: the invariant, quiet objects
      below `lvl`, the context, the transaction flag, the pass in progress,
      and every object from `lvl` up except the context, which made the reads
      `rd` (none without a context); no cancellable fires and no reaction
      but the context gains a dependency; the detector's logs and the
      changed set only grow. */
  ghost predicate Step(decls: seq<Decl>, alive: set<Id>, s0: State, s1: State, lvl: nat, rd: set<Id>) {
    && Inv(decls, alive, s1) && Quiet(s1.nodes, lvl)
    && s1.context == s0.context && s1.inTransaction == s0.inTransaction
    && s1.pending == s0.pending && s1.counts == s0.counts && s1.updatedCalls == s0.updatedCalls
    && Requests(s0, s1)
    && Frame(s0.nodes, s1.nodes, lvl, s0.context, rd)
    && Kept(decls, s0.nodes, s1.nodes, s0.context)
    && (s0.context == None ==> rd == {})
    && (s0.context.Some? ==> rd <= s1.accessedLog)
    && s0.accessedLog <= s1.accessedLog && s0.settedLog <= s1.settedLog
    && s0.updated <= s1.updated
  }

  lemma StepTrans(decls: seq<Decl>, alive: set<Id>, s0: State, s1: State, s2: State, lvl: nat, ra: set<Id>, rb: set<Id>)
    requires Step(decls, alive, s0, s1, lvl, ra) && Step(decls, alive, s1, s2, lvl, rb)
    ensures Step(decls, alive, s0, s2, lvl, ra + rb)
  {
    FrameTrans(s0.nodes, s1.nodes, s2.nodes, lvl, s0.context, ra, rb);
  }

  /** The cells hold the values `out` ends with, and exactly the cells
      `out` wrote were reported, in order, and recorded as changed and by
      the detector. */
  ghost predicate Wrote(s0: State, s1: State, out: Outcome) {
    && Values(s1.nodes) == out.store
    && s1.updated == s0.updated + Elems(out.written)
    && s1.settedLog == s0.settedLog + Elems(out.written)
    && s1.reported == s0.reported + out.written
  }

  /** A closure `e` owned by object `lvl` may run: the invariant holds, nothing
      below its owner is in a tracked run, the context is none or the owner,
      and the closure refers only to live objects older than its owner. */
  ghost predicate EvalPre(decls: seq<Decl>, alive: set<Id>, s: State, e: Expr, lvl: nat) {
    && Inv(decls, alive, s) && lvl <= |decls| && Quiet(s.nodes, lvl)
    && (s.context == None || s.context == Some(lvl))
    && WfExpr(e, lvl, decls, alive)
  }

  /** What a run of `e` from `s0` to `s1` that yielded `r` and made the reads
      `rd` did, beyond `Step`: the reads made on every path are among `rd`,
      and only reads the closure can make under the context are; every cell
      written on every path was recorded by the detector and is in the
      changed set. A closure that reads only cells did exactly what `Run`
      says over the cells' values: it yielded `Run`'s value, left `Run`'s
      values in the cells, reported exactly `Run`'s writes, and made exactly
      `Run`'s reads under the context, which the detector recorded; apart
      from the context, only cells changed, in their values and in gaining
      the context as a reader. */
  ghost predicate Effects(decls: seq<Decl>, s0: State, s1: State, e: Expr, r: int, rd: set<Id>) {
    && (s0.context.Some? ==> MustTrack(e) <= rd <= MayTrack(e))
    && MustWrite(e) <= s1.settedLog && MustWrite(e) <= s1.updated
    && (ReadsCellsOnly(e, decls) ==>
          && r == Run(e, Values(s0.nodes)).value && Wrote(s0, s1, Run(e, Values(s0.nodes)))
          && (s0.context.Some? ==> rd == Run(e, Values(s0.nodes)).tracked)
          && s1.accessedLog == s0.accessedLog + rd
          && CellsOnly(decls, s0.nodes, s1.nodes, CtxIds(s0.context)))
  }

  ghost predicate EvalPost(decls: seq<Decl>, alive: set<Id>, s0: State, s1: State, e: Expr, lvl: nat, r: int, rd: set<Id>) {
    Step(decls, alive, s0, s1, lvl, rd) && Effects(decls, s0, s1, e, r, rd)
  }

  /** The object a read names is a live cell or Computed older than the owner. */
  lemma GetBound(decls: seq<Decl>, alive: set<Id>, s: State, x: Id, lvl: nat)
    requires EvalPre(decls, alive, s, Get(x), lvl)
    ensures x < lvl && x < |decls| && x in alive && !decls[x].ReactionDecl?
  {
    assert x in Reads(Get(x));
  }

  /** A part of a closure may run where the closure may. */
  lemma SubPre(decls: seq<Decl>, alive: set<Id>, s: State, e: Expr, sub: Expr, lvl: nat)
    requires EvalPre(decls, alive, s, e, lvl)
    requires Reads(sub) <= Reads(e) && Writes(sub) <= Writes(e)
    ensures EvalPre(decls, alive, s, sub, lvl)
  {
  }

  /** After a run of one part, the rest of the closure may still run. */
  lemma PostPre(decls: seq<Decl>, alive: set<Id>, s0: State, s1: State, a: Expr, e: Expr, lvl: nat, r: int, rd: set<Id>)
    requires EvalPre(decls, alive, s0, e, lvl) && EvalPost(decls, alive, s0, s1, a, lvl, r, rd)
    ensures EvalPre(decls, alive, s1, e, lvl)
  {
  }

  lemma LitRun(decls: seq<Decl>, alive: set<Id>, s: State, n: int, lvl: nat)
    requires EvalPre(decls, alive, s, Lit(n), lvl)
    ensures EvalPost(decls, alive, s, s, Lit(n), lvl, n, {})
  {
    FrameRefl(s.nodes, lvl, s.context);
  }

  /** Reading a cell yields its stored value and records one tracked read. */
  lemma GetCellRun(decls: seq<Decl>, alive: set<Id>, s: State, x: Id, lvl: nat)
    requires EvalPre(decls, alive, s, Get(x), lvl) && x < |decls| && decls[x].CellDecl?
    ensures CanRead(s, x)
    ensures EvalPost(decls, alive, s, Read(s, x), Get(x), lvl, s.nodes[x].value, ReadSet(s, x))
  {
    ReadPreserves(decls, alive, s, x, lvl);
    ReadValues(s, x);
    ReadKept(decls, s, x);
  }

  /** A read fires no cancellable and adds a dependency only to the
      context; a read of a cell changes only that cell's readers and the
      context. */
  lemma ReadKept(decls: seq<Decl>, s: State, x: Id)
    requires CanRead(s, x) && x < |decls| && !decls[x].ReactionDecl?
    ensures Kept(decls, s.nodes, Read(s, x).nodes, s.context)
    ensures decls[x].CellDecl? ==> CellsOnly(decls, s.nodes, Read(s, x).nodes, CtxIds(s.context))
  {
    if s.context.Some? {
      var o := s.context.value;
      var n := Read(s, x).nodes;
      assert n == s.nodes[x := s.nodes[x].(observers := s.nodes[x].observers + {o})][o := DidAccessNode(s.nodes[o], x)];
      forall q | 0 <= q < |s.nodes| && q != o && q != x ensures n[q] == s.nodes[q] {
      }
    }
  }

  /** A read leaves every stored value alone. */
  lemma ReadValues(s: State, x: Id)
    requires CanRead(s, x)
    ensures Values(Read(s, x).nodes) == Values(s.nodes)
  {
    var n1 := Read(s, x).nodes;
    forall q | 0 <= q < |n1| ensures n1[q].value == s.nodes[q].value {
    }
    SameValues(s.nodes, n1);
  }

  /** Two parts run one after the other; their reads add up. */
  lemma PairEffects(decls: seq<Decl>, s0: State, s1: State, s2: State, a: Expr, b: Expr,
                    va: int, ra: set<Id>, vb: int, rb: set<Id>)
    requires Effects(decls, s0, s1, a, va, ra) && Effects(decls, s1, s2, b, vb, rb)
    requires s1.context == s0.context && s1.settedLog <= s2.settedLog && s1.updated <= s2.updated
    ensures Effects(decls, s0, s2, Add(a, b), va + vb, ra + rb)
    ensures Effects(decls, s0, s2, Seq(a, b), vb, ra + rb)
  {
    if ReadsCellsOnly(Add(a, b), decls) {
      assert ReadsCellsOnly(a, decls) && ReadsCellsOnly(b, decls);
      PairCells(decls, s0, s1, s2, a, b, va, ra, vb, rb);
    }
  }

  /** The same for two parts over cells: `Run` composes them in order. */
  lemma PairCells(decls: seq<Decl>, s0: State, s1: State, s2: State, a: Expr, b: Expr,
                  va: int, ra: set<Id>, vb: int, rb: set<Id>)
    requires ReadsCellsOnly(a, decls) && ReadsCellsOnly(b, decls)
    requires Effects(decls, s0, s1, a, va, ra) && Effects(decls, s1, s2, b, vb, rb) && s1.context == s0.context
    ensures var oa := Run(a, Values(s0.nodes)); var ob := Run(b, oa.store);
      && va == oa.value && vb == ob.value
      && Wrote(s0, s2, Outcome(ob.value, ob.store, oa.tracked + ob.tracked, oa.written + ob.written))
      && (s0.context.Some? ==> ra + rb == oa.tracked + ob.tracked)
      && s2.accessedLog == s0.accessedLog + (ra + rb)
  {
    var oa := Run(a, Values(s0.nodes));
    var ob := Run(b, oa.store);
    WroteConcat(s0, s1, s2, oa, ob);
  }

  /** Two runs' writes, one after the other, are the writes of the whole. */
  lemma WroteConcat(s0: State, s1: State, s2: State, oa: Outcome, ob: Outcome)
    requires Wrote(s0, s1, oa) && Wrote(s1, s2, ob)
    ensures Wrote(s0, s2, Outcome(ob.value, ob.store, oa.tracked + ob.tracked, oa.written + ob.written))
  {
    ElemsConcat(oa.written, ob.written);
    assert s0.reported + oa.written + ob.written == s0.reported + (oa.written + ob.written);
  }

  lemma PairRun(decls: seq<Decl>, alive: set<Id>, s0: State, s1: State, s2: State, a: Expr, b: Expr, lvl: nat,
                va: int, ra: set<Id>, vb: int, rb: set<Id>)
    requires EvalPost(decls, alive, s0, s1, a, lvl, va, ra) && EvalPost(decls, alive, s1, s2, b, lvl, vb, rb)
    ensures EvalPost(decls, alive, s0, s2, Add(a, b), lvl, va + vb, ra + rb)
    ensures EvalPost(decls, alive, s0, s2, Seq(a, b), lvl, vb, ra + rb)
  {
    StepTrans(decls, alive, s0, s1, s2, lvl, ra, rb);
    PairEffects(decls, s0, s1, s2, a, b, va, ra, vb, rb);
  }

  /** The condition, then the branch it selects; the reads made on every path
      of both branches are made either way. */
  lemma IfEffects(decls: seq<Decl>, s0: State, s1: State, s2: State, c: Expr, t: Expr, f: Expr,
                  vc: int, rc: set<Id>, v: int, rv: set<Id>)
    requires Effects(decls, s0, s1, c, vc, rc) && Effects(decls, s1, s2, if vc != 0 then t else f, v, rv)
    requires s1.context == s0.context && s1.settedLog <= s2.settedLog && s1.updated <= s2.updated
    ensures Effects(decls, s0, s2, If(c, t, f), v, rc + rv)
  {
    if ReadsCellsOnly(If(c, t, f), decls) {
      assert ReadsCellsOnly(c, decls) && ReadsCellsOnly(t, decls) && ReadsCellsOnly(f, decls);
      if vc != 0 {
        IfCells(decls, s0, s1, s2, c, t, f, t, vc, rc, v, rv);
      } else {
        IfCells(decls, s0, s1, s2, c, t, f, f, vc, rc, v, rv);
      }
    }
  }

  /** The same for a closure over cells, with `b` the branch taken. */
  lemma IfCells(decls: seq<Decl>, s0: State, s1: State, s2: State, c: Expr, t: Expr, f: Expr, b: Expr,
                vc: int, rc: set<Id>, v: int, rv: set<Id>)
    requires b == if vc != 0 then t else f
    requires ReadsCellsOnly(c, decls) && ReadsCellsOnly(b, decls)
    requires Effects(decls, s0, s1, c, vc, rc) && Effects(decls, s1, s2, b, v, rv) && s1.context == s0.context
    ensures var out := Run(If(c, t, f), Values(s0.nodes));
      && v == out.value && Wrote(s0, s2, out)
      && (s0.context.Some? ==> rc + rv == out.tracked)
      && s2.accessedLog == s0.accessedLog + (rc + rv)
  {
    var oc := Run(c, Values(s0.nodes));
    var ob := Run(b, oc.store);
    assert Run(If(c, t, f), Values(s0.nodes)) == Outcome(ob.value, ob.store, oc.tracked + ob.tracked, oc.written + ob.written);
    ElemsConcat(oc.written, ob.written);
    assert s0.reported + oc.written + ob.written == s0.reported + (oc.written + ob.written);
  }

  lemma IfRun(decls: seq<Decl>, alive: set<Id>, s0: State, s1: State, s2: State, c: Expr, t: Expr, f: Expr, lvl: nat,
              vc: int, rc: set<Id>, v: int, rv: set<Id>)
    requires EvalPost(decls, alive, s0, s1, c, lvl, vc, rc)
    requires EvalPost(decls, alive, s1, s2, if vc != 0 then t else f, lvl, v, rv)
    ensures EvalPost(decls, alive, s0, s2, If(c, t, f), lvl, v, rc + rv)
  {
    StepTrans(decls, alive, s0, s1, s2, lvl, rc, rv);
    IfEffects(decls, s0, s1, s2, c, t, f, vc, rc, v, rv);
  }

  /** A store into an object below `lvl` keeps everything below `lvl` quiet
      and changes nothing from `lvl` up. */
  lemma StoreFrame(s: State, x: Id, v: int, lvl: nat, ctx: Option<Id>)
    requires x < lvl && x < |s.nodes| && Quiet(s.nodes, lvl)
    ensures Quiet(Store(s, x, v).nodes, lvl) && Frame(s.nodes, Store(s, x, v).nodes, lvl, ctx, {})
  {
    var n := Store(s, x, v).nodes;
    forall q | 0 <= q < lvl && q < |n| ensures !n[q].tracking && n[q].accessed == {} {
      assert n[q].tracking == s.nodes[q].tracking && n[q].accessed == s.nodes[q].accessed;
    }
    forall q | lvl <= q < |s.nodes| ensures n[q] == s.nodes[q] {
    }
  }

  /** Storing the argument's value into a cell older than the owner. */
  lemma PutRun(decls: seq<Decl>, alive: set<Id>, s0: State, s1: State, x: Id, a: Expr, lvl: nat, v: int, ra: set<Id>)
    requires EvalPre(decls, alive, s0, Put(x, a), lvl) && EvalPost(decls, alive, s0, s1, a, lvl, v, ra)
    ensures x in alive && x < |decls| && decls[x].CellDecl? && x < |s1.nodes|
    ensures EvalPost(decls, alive, s0, Store(s1, x, v), Put(x, a), lvl, v, ra)
  {
    assert x in Writes(Put(x, a));
    StoreStep(decls, alive, s0, s1, x, v, lvl, ra);
    if ReadsCellsOnly(Put(x, a), decls) {
      PutCells(decls, s0, s1, x, a, v, ra);
      StoreCell(decls, s0.nodes, s1.nodes, x, v, CtxIds(s0.context));
    }
  }

  /** The store itself extends the step of the argument. */
  lemma StoreStep(decls: seq<Decl>, alive: set<Id>, s0: State, s1: State, x: Id, v: int, lvl: nat, ra: set<Id>)
    requires Step(decls, alive, s0, s1, lvl, ra)
    requires x in alive && x < |decls| && decls[x].CellDecl? && x < lvl && x < |s1.nodes|
    ensures Step(decls, alive, s0, Store(s1, x, v), lvl, ra)
  {
    StorePreserves(decls, alive, s1, x, v);
    var s2 := Store(s1, x, v);
    StoreFrame(s1, x, v, lvl, s0.context);
    FrameTrans(s0.nodes, s1.nodes, s2.nodes, lvl, s0.context, ra, {});
    assert ra + {} == ra;
    assert Kept(decls, s1.nodes, s2.nodes, s0.context);
  }

  /** The same for a closure over cells: the write is `Run`'s last. */
  lemma PutCells(decls: seq<Decl>, s0: State, s1: State, x: Id, a: Expr, v: int, ra: set<Id>)
    requires v == Run(a, Values(s0.nodes)).value && Wrote(s0, s1, Run(a, Values(s0.nodes)))
    requires s1.accessedLog == s0.accessedLog + ra && x < |s1.nodes|
    ensures var out := Run(Put(x, a), Values(s0.nodes));
      v == out.value && Wrote(s0, Store(s1, x, v), out) && Store(s1, x, v).accessedLog == s0.accessedLog + ra
  {
    var oa := Run(a, Values(s0.nodes));
    var n := s1.nodes[x := s1.nodes[x].(value := v)];
    assert Values(n) == Values(s1.nodes)[x := v];
    ElemsConcat(oa.written, [x]);
  }

  /** `inTransaction { b }` runs `b` with the flag set. */
  lemma AtomicPre(decls: seq<Decl>, alive: set<Id>, s: State, b: Expr, lvl: nat)
    requires EvalPre(decls, alive, s, Atomic(b), lvl)
    ensures EvalPre(decls, alive, BeginTx(s), b, lvl)
  {
    var s' := BeginTx(s);
    assert Inv(decls, alive, s');
    assert Quiet(s'.nodes, lvl);
    assert Reads(Atomic(b)) == Reads(b) && Writes(Atomic(b)) == Writes(b);
    assert WfExpr(b, lvl, decls, alive);
  }

  /** Leaving the transaction: an outermost one requests a flush even when
      the body changed nothing. */
  lemma AtomicRun(decls: seq<Decl>, alive: set<Id>, s0: State, s1: State, b: Expr, lvl: nat, v: int, rb: set<Id>)
    requires EvalPre(decls, alive, s0, Atomic(b), lvl)
    requires EvalPost(decls, alive, BeginTx(s0), s1, b, lvl, v, rb)
    ensures EvalPost(decls, alive, s0, EndTx(s1, !s0.inTransaction), Atomic(b), lvl, v, rb)
    ensures !s0.inTransaction ==> EndTx(s1, !s0.inTransaction).hasScheduled
  {
  }

  /** `runWithoutObserverContext { b }` runs `b` with no context. */
  lemma UntrackedPre(decls: seq<Decl>, alive: set<Id>, s: State, b: Expr, lvl: nat)
    requires EvalPre(decls, alive, s, Untracked(b), lvl)
    ensures EvalPre(decls, alive, s.(context := None), b, lvl)
  {
    assert Reads(Untracked(b)) == Reads(b) && Writes(Untracked(b)) == Writes(b);
  }

  /** Restoring the context afterwards: the caller's context made no reads. */
  lemma UntrackedRun(decls: seq<Decl>, alive: set<Id>, s0: State, s1: State, b: Expr, lvl: nat, v: int, rb: set<Id>)
    requires EvalPre(decls, alive, s0, Untracked(b), lvl)
    requires EvalPost(decls, alive, s0.(context := None), s1, b, lvl, v, rb)
    ensures EvalPost(decls, alive, s0, s1.(context := s0.context), Untracked(b), lvl, v, {})
  {
    assert Frame(s0.nodes, s1.nodes, lvl, s0.context, {}) by {
      forall q | lvl <= q < |s0.nodes|
        ensures if s0.context == Some(q) then TrackedNode(s0.nodes[q], s1.nodes[q], {}) else s1.nodes[q] == s0.nodes[q]
      {
        assert s1.nodes[q] == s0.nodes[q];
        assert s0.nodes[q].observing + {} == s0.nodes[q].observing;
        assert s0.nodes[q].accessed + {} == s0.nodes[q].accessed;
      }
    }
    if ReadsCellsOnly(Untracked(b), decls) {
      CellsOnlyWiden(decls, s0.nodes, s1.nodes, {}, CtxIds(s0.context));
    }
  }

  // ---------------------------------------------------------------- `Computed.value`

  /** The getter of Computed `c` may run: the invariant holds, nothing up to
      `c` is in a tracked run, and a context reading `c` is newer than it. */
  ghost predicate ComputedPre(decls: seq<Decl>, alive: set<Id>, s: State, c: Id) {
    && Inv(decls, alive, s) && c < |decls| && decls[c].ComputedDecl?
    && Quiet(s.nodes, c + 1)
    && (s.context.Some? ==> c < s.context.value)
  }

  /** After `willGetValue`, `c` has readers exactly when it had some or is
      read under a context: then a recomputation is tracked. */
  ghost predicate Observed(s: State, c: Id)
    requires c < |s.nodes|
  {
    s.nodes[c].observers != {} || s.context.Some?
  }

  /** A recomputation. When tracked, the Computed now depends on what it
      read: everything its function reads on every path and only what the
      function can read; and it is a reader of exactly its live
      dependencies, so every dependency it dropped that is still alive has
      forgotten it. When untracked, its dependencies are unchanged. A
      function that reads only cells yields `Run`'s value over the cells as
      they were, has `Run`'s effect on them, and when tracked leaves the
      Computed depending on exactly `Run`'s reads: those of the path the
      function took. */
  ghost predicate Recomputed(decls: seq<Decl>, alive: set<Id>, s0: State, s1: State, c: Id, r: int)
    requires c < |decls| && decls[c].ComputedDecl? && c < |s0.nodes| && c < |s1.nodes|
  {
    var f := decls[c].computeFunc;
    && (Observed(s0, c) ==> MustTrack(f) <= s1.nodes[c].observing <= MayTrack(f))
    && (Observed(s0, c) ==>
          forall y :: y in alive && y < |s1.nodes| ==> (c in s1.nodes[y].observers <==> y in s1.nodes[c].observing))
    && (!Observed(s0, c) ==> s1.nodes[c].observing == s0.nodes[c].observing)
    && (ReadsCellsOnly(f, decls) ==>
          && r == Run(f, Values(s0.nodes)).value && Wrote(s0, s1, Run(f, Values(s0.nodes)))
          && (Observed(s0, c) ==> s1.nodes[c].observing == Run(f, Values(s0.nodes)).tracked))
  }

  /** The getter of `c` went from `s0` to `s1` and yielded `r`: one tracked
      read of `c`, which is quiet again and now caches `r`; a context that
      read it is among its readers; a cached value is returned as is, with no
      other change; otherwise the function ran as `Recomputed` says. */
  ghost predicate ComputedPost(decls: seq<Decl>, alive: set<Id>, s0: State, s1: State, c: Id, r: int) {
    && c < |decls| && decls[c].ComputedDecl?
    && Step(decls, alive, s0, s1, c + 1, ReadSet(s0, c))
    && c < |s0.nodes|
    && s1.nodes[c].cached == Some(r)
    && (s0.context.Some? ==> s0.context.value in s1.nodes[c].observers)
    && (s0.nodes[c].cached.Some? ==> CanRead(s0, c) && s1 == Read(s0, c) && r == s0.nodes[c].cached.value)
    && (s0.nodes[c].cached == None ==> Recomputed(decls, alive, s0, s1, c, r))
  }

  /** The read of `c` itself, and whether the recomputation will be tracked. */
  lemma ComputedRead(decls: seq<Decl>, alive: set<Id>, s0: State, c: Id)
    requires ComputedPre(decls, alive, s0, c)
    ensures CanRead(s0, c) && Inv(decls, alive, Read(s0, c))
    ensures Read(s0, c).nodes[c].observers != {} <==> Observed(s0, c)
    ensures Read(s0, c).nodes[c].cached == s0.nodes[c].cached
  {
    ReadPreserves(decls, alive, s0, c, c + 1);
  }

  lemma ComputedHitRun(decls: seq<Decl>, alive: set<Id>, s0: State, c: Id)
    requires ComputedPre(decls, alive, s0, c) && s0.nodes[c].cached.Some?
    ensures CanRead(s0, c)
    ensures ComputedPost(decls, alive, s0, Read(s0, c), c, s0.nodes[c].cached.value)
  {
    ReadPreserves(decls, alive, s0, c, c + 1);
  }

  /** The state in which a tracked recomputation runs the function: after the
      read, with `c` as the context and tracking removals. */
  function TrackedStart(s0: State, c: Id): State
    requires CanRead(s0, c)
  {
    var s1 := Read(s0, c);
    s1.(context := Some(c), nodes := s1.nodes[c := s1.nodes[c].(tracking := true)])
  }

  lemma TrackedPre(decls: seq<Decl>, alive: set<Id>, s0: State, c: Id)
    requires ComputedPre(decls, alive, s0, c) && Observed(s0, c)
    ensures CanRead(s0, c)
    ensures EvalPre(decls, alive, TrackedStart(s0, c), decls[c].computeFunc, c)
  {
    ReadPreserves(decls, alive, s0, c, c + 1);
    var s1 := Read(s0, c);
    var s3 := TrackedStart(s0, c);
    ComputedRead(decls, alive, s0, c);
    SameEdges(decls, alive, s1.nodes, s3.nodes);
    assert WfDecl(decls[c], c, decls, alive);
  }

  /** After the pruning bracket of `c`, nothing up to `c` is in a tracked
      run. */
  lemma PrunedQuiet(alive: set<Id>, n4: seq<Node>, n6: seq<Node>, c: Id, v: int)
    requires c < |n4| && Quiet(n4, c) && Pruned(alive, n4[c := n4[c].(cached := Some(v))], n6, c)
    ensures Quiet(n6, c + 1)
  {
    forall q | 0 <= q < c + 1 && q < |n6| ensures !n6[q].tracking && n6[q].accessed == {} {
      if q < c {
        assert n6[q].tracking == n4[q].tracking && n6[q].accessed == n4[q].accessed;
      }
    }
  }

  /** From `c + 1` up, a tracked recomputation of `c` changed only what the
      read of `c` itself did. */
  lemma TrackedFrame(alive: set<Id>, s0: State, n4: seq<Node>, n6: seq<Node>, c: Id, v: int, rd: set<Id>)
    requires CanRead(s0, c) && Frame(TrackedStart(s0, c).nodes, n4, c, Some(c), rd)
    requires c < |n4| && Pruned(alive, n4[c := n4[c].(cached := Some(v))], n6, c)
    requires Frame(s0.nodes, Read(s0, c).nodes, c + 1, s0.context, ReadSet(s0, c))
    ensures Frame(s0.nodes, n6, c + 1, s0.context, ReadSet(s0, c))
  {
    var n1 := Read(s0, c).nodes;
    var n3 := TrackedStart(s0, c).nodes;
    forall q | c + 1 <= q < |s0.nodes|
      ensures if s0.context == Some(q) then TrackedNode(s0.nodes[q], n6[q], ReadSet(s0, c)) else n6[q] == s0.nodes[q]
    {
      assert n6[q] == n4[q] == n3[q] == n1[q];
    }
  }

  /** A tracked recomputation: read, run the function under context `c`,
      cache the result, stop tracking, restore the caller's context. */
  lemma ComputedTrackedRun(decls: seq<Decl>, alive: set<Id>, s0: State, s4: State, n6: seq<Node>, c: Id, v: int, rd: set<Id>)
    requires ComputedPre(decls, alive, s0, c) && s0.nodes[c].cached == None
    requires CanRead(s0, c) && Observed(s0, c)
    requires EvalPost(decls, alive, TrackedStart(s0, c), s4, decls[c].computeFunc, c, v, rd)
    requires c < |s4.nodes|
    requires Pruned(alive, s4.nodes[c := s4.nodes[c].(cached := Some(v))], n6, c)
    requires Ordered(decls, n6) && Linked(decls, n6, alive, {})
    ensures ComputedPost(decls, alive, s0, s4.(nodes := n6, context := s0.context), c, v)
  {
    TrackedStep(decls, alive, s0, s4, n6, c, v, rd);
    TrackedRecomputed(decls, alive, s0, s4, n6, c, v, rd);
  }

  /** The tracked run, cached and pruned, with the caller's context back, is
      a step of the read of `c` that keeps exactly the reads it made. */
  lemma TrackedStep(decls: seq<Decl>, alive: set<Id>, s0: State, s4: State, n6: seq<Node>, c: Id, v: int, rd: set<Id>)
    requires ComputedPre(decls, alive, s0, c) && s0.nodes[c].cached == None
    requires CanRead(s0, c) && Observed(s0, c)
    requires EvalPost(decls, alive, TrackedStart(s0, c), s4, decls[c].computeFunc, c, v, rd)
    requires c < |s4.nodes|
    requires Pruned(alive, s4.nodes[c := s4.nodes[c].(cached := Some(v))], n6, c)
    requires Ordered(decls, n6) && Linked(decls, n6, alive, {})
    ensures c < |n6| && n6[c].observing == rd && n6[c].cached == Some(v)
    ensures Step(decls, alive, s0, s4.(nodes := n6, context := s0.context), c + 1, ReadSet(s0, c))
  {
    var s3 := TrackedStart(s0, c);
    var s7 := s4.(nodes := n6, context := s0.context);
    ReadPreserves(decls, alive, s0, c, c + 1);
    assert s4.nodes[c] == s3.nodes[c].(observing := s3.nodes[c].observing + rd, accessed := s3.nodes[c].accessed + rd,
                                       isObserving := s3.nodes[c].isObserving || rd != {});
    assert n6[c].observing == rd;
    PrunedQuiet(alive, s4.nodes, n6, c, v);
    TrackedFrame(alive, s0, s4.nodes, n6, c, v, rd);
    TrackedKept(decls, alive, s0, s4.nodes, n6, c, v);
    assert Inv(decls, alive, s7);
  }

  /** A tracked recomputation of Computed `c` fires no cancellable and adds
      no dependency to a reaction other than the caller's context. */
  lemma TrackedKept(decls: seq<Decl>, alive: set<Id>, s0: State, n4: seq<Node>, n6: seq<Node>, c: Id, v: int)
    requires CanRead(s0, c) && c < |decls| && decls[c].ComputedDecl?
    requires Kept(decls, TrackedStart(s0, c).nodes, n4, Some(c))
    requires c < |n4| && Pruned(alive, n4[c := n4[c].(cached := Some(v))], n6, c)
    ensures Kept(decls, s0.nodes, n6, s0.context)
  {
    var n1 := Read(s0, c).nodes;
    var n3 := TrackedStart(s0, c).nodes;
    ReadKept(decls, s0, c);
    assert Kept(decls, n1, n3, s0.context);
  }

  /** What the tracked run of the function leaves in `c`'s dependencies and
      in the cells, once the caller's context is back. */
  lemma TrackedRecomputed(decls: seq<Decl>, alive: set<Id>, s0: State, s4: State, n6: seq<Node>, c: Id, v: int, rd: set<Id>)
    requires ComputedPre(decls, alive, s0, c) && CanRead(s0, c) && Observed(s0, c)
    requires Effects(decls, TrackedStart(s0, c), s4, decls[c].computeFunc, v, rd)
    requires c < |s4.nodes| && c < |n6|
    requires Pruned(alive, s4.nodes[c := s4.nodes[c].(cached := Some(v))], n6, c)
    requires n6[c].observing == rd && Linked(decls, n6, alive, {})
    ensures Recomputed(decls, alive, s0, s4.(nodes := n6, context := s0.context), c, v)
  {
    var s3 := TrackedStart(s0, c);
    SameValues(s0.nodes, s3.nodes);
    SameValues(s4.nodes[c := s4.nodes[c].(cached := Some(v))], n6);
  }

  /** Caching the result of the tracked run keeps the graph linked, and the
      Computed, being the context, still has readers. */
  lemma TrackedCached(decls: seq<Decl>, alive: set<Id>, s0: State, s4: State, c: Id, v: int, rd: set<Id>)
    requires ComputedPre(decls, alive, s0, c) && CanRead(s0, c)
    requires EvalPost(decls, alive, TrackedStart(s0, c), s4, decls[c].computeFunc, c, v, rd)
    ensures c < |s4.nodes|
    ensures var n := s4.nodes[c := s4.nodes[c].(cached := Some(v))];
      && Registry(decls, n, alive) && Ordered(decls, n) && Linked(decls, n, alive, {}) && n[c].observers != {}
  {
    CachePreserves(decls, alive, s4.nodes, c, v);
  }

  /** An unobserved recomputation: the function runs with no context and
      only its result is cached. */
  lemma UntrackedPreC(decls: seq<Decl>, alive: set<Id>, s0: State, c: Id)
    requires ComputedPre(decls, alive, s0, c) && !Observed(s0, c)
    ensures CanRead(s0, c) && Read(s0, c) == s0
    ensures EvalPre(decls, alive, s0, decls[c].computeFunc, c)
  {
    assert WfDecl(decls[c], c, decls, alive);
  }

  lemma ComputedUntrackedRun(decls: seq<Decl>, alive: set<Id>, s0: State, s2: State, c: Id, v: int, rd: set<Id>)
    requires ComputedPre(decls, alive, s0, c) && s0.nodes[c].cached == None && !Observed(s0, c)
    requires EvalPost(decls, alive, s0, s2, decls[c].computeFunc, c, v, rd)
    requires c < |s2.nodes|
    ensures ComputedPost(decls, alive, s0, s2.(nodes := s2.nodes[c := s2.nodes[c].(cached := Some(v))]), c, v)
  {
    var n3 := s2.nodes[c := s2.nodes[c].(cached := Some(v))];
    assert s2.nodes[c] == s0.nodes[c];
    SameEdges(decls, alive, s2.nodes, n3);
    assert Frame(s0.nodes, n3, c + 1, s0.context, {}) by {
      forall q | c + 1 <= q < |s0.nodes| ensures n3[q] == s0.nodes[q] {
      }
    }
    if ReadsCellsOnly(decls[c].computeFunc, decls) {
      SameValues(s2.nodes, n3);
    }
  }

  /** Reading a Computed from a closure. */
  lemma GetComputedPre(decls: seq<Decl>, alive: set<Id>, s: State, c: Id, lvl: nat)
    requires EvalPre(decls, alive, s, Get(c), lvl) && c < |decls| && decls[c].ComputedDecl?
    ensures ComputedPre(decls, alive, s, c)
  {
    GetBound(decls, alive, s, c, lvl);
  }

  lemma GetComputedRun(decls: seq<Decl>, alive: set<Id>, s0: State, s1: State, c: Id, lvl: nat, r: int)
    requires EvalPre(decls, alive, s0, Get(c), lvl) && ComputedPost(decls, alive, s0, s1, c, r)
    ensures EvalPost(decls, alive, s0, s1, Get(c), lvl, r, ReadSet(s0, c))
  {
    GetBound(decls, alive, s0, c, lvl);
    assert Quiet(s1.nodes, lvl) by {
      forall q | 0 <= q < lvl && q < |s1.nodes| ensures !s1.nodes[q].tracking && s1.nodes[q].accessed == {} {
        if q > c {
          assert s1.nodes[q] == s0.nodes[q];
        }
      }
    }
  }
}
