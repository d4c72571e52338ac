/**
 * The propagation side of `ObserverAdministrator` as relations between two
 * `State`s: the state between two calls of the public API and the state
 * inside the flush block, what scheduling observers appends to the pass's
 * bookkeeping, what one `updated()` call does, and the lemmas that compose
 * them. The engine's flush, scheduling and reaction methods are proved
 * against these definitions.
 */
module Passes {
  import opened Wrappers
  import opened Closures
  import opened Propagation
  import opened Graph
  import opened EngineState
  import opened Runs

  /** Between two calls of the public API: no transaction, no context, no
      tracked run, no pass in progress, and a flush block is enqueued exactly
      when one was requested. */
  ghost predicate Settled(decls: seq<Decl>, alive: set<Id>, s: State) {
    && Inv(decls, alive, s) && Quiet(s.nodes, |s.nodes|) && DepsBounded(decls, s.nodes)
    && !s.inTransaction && s.context == None
    && s.pending == [] && s.counts == map[]
    && (s.hasScheduled <==> s.queuedFlushes == 1)
  }

  /** Inside the flush block: the block has left the queue, and the flag that
      keeps a second one from being enqueued is still set. */
  ghost predicate Flushing(decls: seq<Decl>, alive: set<Id>, s: State) {
    && Inv(decls, alive, s) && Quiet(s.nodes, |s.nodes|) && DepsBounded(decls, s.nodes)
    && !s.inTransaction && s.context == None
    && s.hasScheduled && s.queuedFlushes == 0
  }

  /** Emptying the pending list and the counts at the end of a round. */
  lemma PendingCleared(decls: seq<Decl>, alive: set<Id>, s: State)
    requires Flushing(decls, alive, s)
    ensures Flushing(decls, alive, s.(pending := [], counts := map[]))
  {
  }

  /** Replacing the objects by a graph that is still ordered, linked and
      quiet keeps the engine settled. */
  lemma RelinkedSettled(decls: seq<Decl>, alive: set<Id>, s: State, n: seq<Node>)
    requires Settled(decls, alive, s) && |n| == |s.nodes|
    requires Ordered(decls, n) && Linked(decls, n, alive, {}) && Quiet(n, |n|) && DepsBounded(decls, n)
    ensures Settled(decls, alive, s.(nodes := n))
  {
  }

  /** Registration of a reaction whose tracked function reads only cells,
      started with the detector cleared: the reaction read exactly `Run`'s
      reads, the detector flags exactly a cell both read and written, and
      the cells and reports are `Run`'s. */
  lemma RegisterCells(decls: seq<Decl>, s0: State, s2: State, t: Expr, v: int, rd: set<Id>)
    requires Effects(decls, s0, s2, t, v, rd) && ReadsCellsOnly(t, decls)
    requires s0.context.Some? && s0.accessedLog == {} && s0.settedLog == {}
    ensures var out := Run(t, Values(s0.nodes));
      && rd == out.tracked
      && ((exists x :: x in s2.accessedLog && x in s2.settedLog) <==> out.tracked * Elems(out.written) != {})
      && Values(s2.nodes) == out.store && s2.reported == s0.reported + out.written
      && s2.updated == s0.updated + Elems(out.written)
  {
    var out := Run(t, Values(s0.nodes));
    assert s2.accessedLog == out.tracked && s2.settedLog == Elems(out.written);
    if out.tracked * Elems(out.written) != {} {
      var x :| x in out.tracked * Elems(out.written);
      assert x in s2.accessedLog && x in s2.settedLog;
    }
  }

  /** A run started from a settled state, with no context, ends settled: it
      changed nothing from `lvl` up and left everything below quiet, and a
      flush it requested is the one block enqueued. */
  lemma SettledStep(decls: seq<Decl>, alive: set<Id>, s0: State, s1: State, lvl: nat, rd: set<Id>)
    requires Settled(decls, alive, s0) && Step(decls, alive, s0, s1, lvl, rd)
    ensures Settled(decls, alive, s1)
  {
    forall q | 0 <= q < |s1.nodes| ensures !s1.nodes[q].tracking && s1.nodes[q].accessed == {} {
      if q >= lvl {
        assert s1.nodes[q] == s0.nodes[q];
      }
    }
  }

  /** A write from a settled state (a `wrappedValue` set outside any
      closure) stays settled and leaves exactly one flush block enqueued. */
  lemma StoreSettled(decls: seq<Decl>, alive: set<Id>, s: State, x: Id, v: int)
    requires Settled(decls, alive, s) && x in alive && x < |decls| && decls[x].CellDecl?
    ensures Settled(decls, alive, Store(s, x, v))
    ensures Store(s, x, v).hasScheduled && Store(s, x, v).queuedFlushes == 1
    ensures Store(s, x, v).updated == s.updated + {x} && Store(s, x, v).reported == s.reported + [x]
  {
    StorePreserves(decls, alive, s, x, v);
    ReportPreserves(decls, alive, s.(nodes := s.nodes[x := s.nodes[x].(value := v)]), x);
  }

  /** An outermost transaction run from a settled state ends settled, with
      exactly one flush block enqueued whether or not the body changed
      anything; every cell the body writes on every path is in the changed
      set, and no observer ran. A body that reads only cells yields `Run`'s
      value and leaves exactly `Run`'s values, changes and reports. */
  lemma TransactionRun(decls: seq<Decl>, alive: set<Id>, s0: State, s1: State, body: Expr, r: int, rd: set<Id>)
    requires Settled(decls, alive, s0) && EvalPost(decls, alive, BeginTx(s0), s1, body, |decls|, r, rd)
    ensures Settled(decls, alive, EndTx(s1, true))
    ensures EndTx(s1, true).hasScheduled && EndTx(s1, true).queuedFlushes == 1
    ensures s0.updated + MustWrite(body) <= EndTx(s1, true).updated
    ensures EndTx(s1, true).updatedCalls == s0.updatedCalls
    ensures Kept(decls, s0.nodes, s1.nodes, None)
    ensures ReadsCellsOnly(body, decls) ==>
      && r == Run(body, Values(s0.nodes)).value && Wrote(s0, EndTx(s1, true), Run(body, Values(s0.nodes)))
      && CellsOnly(decls, s0.nodes, s1.nodes, {})
  {
  }

  // ---------------------------------------------------------------- scheduling

  /** `_scheduleForUpdates` may run: the changed set is not empty (the
      assertion at ObserverAdministrator.swift:133) and the pending list and
      the counts agree. */
  ghost predicate Scheduling(decls: seq<Decl>, alive: set<Id>, s: State) {
    Inv(decls, alive, s) && s.updated != {} && CountsMatch(s.pending, s.counts)
  }

  /** Every Computed listed from position `k` on has all its readers listed
      after it: `Computed.willUpdate` schedules them once the Computed itself
      is listed. */
  ghost predicate ClosedFrom(decls: seq<Decl>, nodes: seq<Node>, list: seq<Id>, k: nat) {
    forall i, q {:trigger q in nodes[list[i]].observers} ::
      && k <= i < |list| && list[i] < |nodes| && list[i] < |decls| && decls[list[i]].ComputedDecl?
      && q in nodes[list[i]].observers
      ==> q in list[i + 1..]
  }

  /** `s1` is `s0` with observers appended to the pending list and the counts
      bumped, and nothing else changed: the list and the counts still agree,
      every entry appended is an observer newer than `b`, and every Computed
      appended has its readers listed. */
  ghost predicate Appended(decls: seq<Decl>, s0: State, s1: State, b: int) {
    && s1 == s0.(pending := s1.pending, counts := s1.counts)
    && CountsMatch(s1.pending, s1.counts)
    && s0.pending <= s1.pending
    && (forall i :: |s0.pending| <= i < |s1.pending| ==>
          b < s1.pending[i] < |decls| && !decls[s1.pending[i]].CellDecl?)
    && ClosedFrom(decls, s0.nodes, s1.pending, |s0.pending|)
  }

  lemma AppendedRefl(decls: seq<Decl>, alive: set<Id>, s: State, b: int)
    requires Scheduling(decls, alive, s)
    ensures Appended(decls, s, s, b)
  {
  }

  /** Appending keeps scheduling possible. */
  lemma AppendedKeeps(decls: seq<Decl>, alive: set<Id>, s0: State, s1: State, b: int)
    requires Scheduling(decls, alive, s0) && Appended(decls, s0, s1, b) && b >= -1
    ensures Scheduling(decls, alive, s1)
  {
    forall i | 0 <= i < |s1.pending| ensures s1.pending[i] < |decls| && !decls[s1.pending[i]].CellDecl? {
      if i < |s0.pending| {
        assert s1.pending[i] == s0.pending[i];
      }
    }
  }

  /** Appending composes; the bound of the composition is the smaller one. */
  lemma AppendedTrans(decls: seq<Decl>, s0: State, s1: State, s2: State, b: int, b2: int)
    requires Appended(decls, s0, s1, b) && Appended(decls, s1, s2, b2) && b <= b2
    ensures Appended(decls, s0, s2, b)
  {
    forall i, q | |s0.pending| <= i < |s2.pending| && s2.pending[i] < |s0.nodes| && s2.pending[i] < |decls|
        && decls[s2.pending[i]].ComputedDecl? && q in s0.nodes[s2.pending[i]].observers
      ensures q in s2.pending[i + 1..]
    {
      if i < |s1.pending| {
        assert s2.pending[i] == s1.pending[i];
        assert q in s1.pending[i + 1..];
        SuffixIncl(s1.pending, s2.pending, i + 1);
      }
    }
  }

  /** What is listed from position `k` on stays listed there as the list
      grows. */
  lemma SuffixIncl(p1: seq<Id>, p2: seq<Id>, k: nat)
    requires p1 <= p2 && k <= |p1|
    ensures forall y :: y in p1[k..] ==> y in p2[k..]
  {
    forall y | y in p1[k..] ensures y in p2[k..] {
      var j :| 0 <= j < |p1[k..]| && p1[k..][j] == y;
      assert p2[k..][j] == y;
    }
  }

  /** What is listed stays listed as the list grows. */
  lemma Listed(p1: seq<Id>, p2: seq<Id>, k: nat)
    requires p1 <= p2 && k <= |p2|
    ensures forall y :: y in p1 ==> y in p2
    ensures forall y :: y in p2[k..] ==> y in p2
  {
    forall y | y in p1 ensures y in p2 {
      var j :| 0 <= j < |p1| && p1[j] == y;
      assert p2[j] == y;
    }
    forall y | y in p2[k..] ensures y in p2 {
      var j :| 0 <= j < |p2[k..]| && p2[k..][j] == y;
      assert p2[k + j] == y;
    }
  }

  /** The state after one observer `q` is listed with its count bumped. */
  function ListOne(s: State, q: Id): State {
    s.(pending := s.pending + [q], counts := Bump(s.counts, q))
  }

  lemma ListOneKeeps(decls: seq<Decl>, alive: set<Id>, s: State, q: Id)
    requires Scheduling(decls, alive, s) && q < |decls| && !decls[q].CellDecl?
    ensures Scheduling(decls, alive, ListOne(s, q))
  {
    BumpKeepsCountsMatch(s.pending, s.counts, q);
  }

  /** Listing observer `q`, newer than `b`, and letting it schedule its own
      readers: what was listed before stays listed and `q` is now listed. */
  lemma AppendOne(decls: seq<Decl>, s0: State, s1: State, s2: State, q: Id, b: int)
    requires Appended(decls, s0, s1, b) && b < q < |decls| && !decls[q].CellDecl?
    requires Appended(decls, ListOne(s1, q), s2, q)
    requires q < |s1.nodes| && decls[q].ComputedDecl? ==>
      forall y :: y in s1.nodes[q].observers ==> y in s2.pending[|s1.pending| + 1..]
    ensures Appended(decls, s0, s2, b)
    ensures q in s2.pending[|s0.pending|..]
    ensures forall y :: y in s1.pending[|s0.pending|..] ==> y in s2.pending[|s0.pending|..]
  {
    SuffixKept(s1.pending, s2.pending, |s0.pending|, q);
    BoundsAppend(decls, s1.pending, s2.pending, |s0.pending|, q, b);
    ClosedAppend(decls, s0.nodes, s1.pending, s2.pending, |s0.pending|, q);
  }

  /** Appending `q` and more keeps every entry of a suffix and lists `q` in it. */
  lemma SuffixKept(p1: seq<Id>, p2: seq<Id>, k: nat, q: Id)
    requires k <= |p1| && p1 + [q] <= p2
    ensures q in p2[k..]
    ensures forall y :: y in p1[k..] ==> y in p2[k..]
  {
    assert p2[k..][|p1| - k] == (p1 + [q])[|p1|] == q;
    forall y | y in p1[k..] ensures y in p2[k..] {
      var j :| 0 <= j < |p1[k..]| && p1[k..][j] == y;
      assert p2[k..][j] == (p1 + [q])[k + j] == y;
    }
  }

  /** Entries appended after `q`, which are newer than `q`, are newer than
      anything `q` is newer than. */
  lemma BoundsAppend(decls: seq<Decl>, p1: seq<Id>, p2: seq<Id>, k: nat, q: Id, b: int)
    requires k <= |p1| && p1 + [q] <= p2 && b < q < |decls| && !decls[q].CellDecl?
    requires forall i :: k <= i < |p1| ==> b < p1[i] < |decls| && !decls[p1[i]].CellDecl?
    requires forall i :: |p1| + 1 <= i < |p2| ==> q < p2[i] < |decls| && !decls[p2[i]].CellDecl?
    ensures forall i :: k <= i < |p2| ==> b < p2[i] < |decls| && !decls[p2[i]].CellDecl?
  {
    forall i | k <= i < |p2| ensures b < p2[i] < |decls| && !decls[p2[i]].CellDecl? {
      if i <= |p1| {
        assert p2[i] == (p1 + [q])[i];
      }
    }
  }

  /** The Computeds listed before `q`, `q` itself and those listed after it
      all have their readers listed. */
  lemma ClosedAppend(decls: seq<Decl>, nodes: seq<Node>, p1: seq<Id>, p2: seq<Id>, k: nat, q: Id)
    requires k <= |p1| && p1 + [q] <= p2 && q < |decls|
    requires ClosedFrom(decls, nodes, p1, k) && ClosedFrom(decls, nodes, p2, |p1| + 1)
    requires q < |nodes| && decls[q].ComputedDecl? ==> forall y :: y in nodes[q].observers ==> y in p2[|p1| + 1..]
    ensures ClosedFrom(decls, nodes, p2, k)
  {
    forall i, y | k <= i < |p2| && p2[i] < |nodes| && p2[i] < |decls|
        && decls[p2[i]].ComputedDecl? && y in nodes[p2[i]].observers
      ensures y in p2[i + 1..]
    {
      if i < |p1| {
        assert p2[i] == (p1 + [q])[i] == p1[i];
        assert p1 <= p2;
        SuffixIncl(p1, p2, i + 1);
      } else if i == |p1| {
        assert p2[i] == (p1 + [q])[i] == q;
      }
    }
  }

  /** The `inTransaction` wrapper of `scheduleForUpdates`: while changed
      cells are being resolved a flush is already requested, so leaving the
      transaction restores the flag and requests nothing. */
  lemma TxAppended(decls: seq<Decl>, alive: set<Id>, s0: State, s1: State, b: int)
    requires Scheduling(decls, alive, s0) && Appended(decls, BeginTx(s0), s1, b)
    ensures Appended(decls, s0, EndTx(s1, !s0.inTransaction), b)
  {
  }

  // ---------------------------------------------------------------- `updated()`

  /** The state in which a reaction's tracked function runs: the reaction is
      the context and is tracking removals. */
  function ReactionStart(s: State, o: Id): State
    requires o < |s.nodes|
  {
    s.(context := Some(o), nodes := s.nodes[o := s.nodes[o].(tracking := true)])
  }

  lemma ReactionPre(decls: seq<Decl>, alive: set<Id>, s: State, o: Id)
    requires Flushing(decls, alive, s) && o < |decls| && decls[o].ReactionDecl?
    ensures EvalPre(decls, alive, ReactionStart(s, o), decls[o].handler.track, o)
  {
    SameEdges(decls, alive, s.nodes, ReactionStart(s, o).nodes);
    assert WfDecl(decls[o], o, decls, alive);
  }

  /** The cells hold what `out` left in them, except the sinks stored so
      far, `done`, which hold `v`; the changed set, the detector's written
      set and the reports are those before, then `out`'s writes, then the
      sinks stored so far. */
  ghost predicate SinksStored(s0: State, s1: State, out: Outcome, done: seq<Id>, v: int) {
    && |s1.nodes| == |out.store|
    && (forall q :: 0 <= q < |out.store| ==> s1.nodes[q].value == if q in done then v else out.store[q])
    && s1.updated == s0.updated + Elems(out.written) + Elems(done)
    && s1.settedLog == s0.settedLog + Elems(out.written) + Elems(done)
    && s1.reported == s0.reported + out.written + done
  }

  /** Before any sink is stored, `SinksStored` is `Wrote`. */
  lemma WroteStored(s0: State, s1: State, out: Outcome, v: int)
    requires Wrote(s0, s1, out)
    ensures SinksStored(s0, s1, out, [], v)
  {
    assert Elems([]) == {};
    assert s0.reported + out.written + [] == s0.reported + out.written;
  }

  /** Storing `v` into one more sink. */
  lemma StoreStored(s0: State, s1: State, out: Outcome, done: seq<Id>, v: int, x: Id)
    requires SinksStored(s0, s1, out, done, v) && x < |s1.nodes|
    ensures SinksStored(s0, Store(s1, x, v), out, done + [x], v)
  {
    ElemsConcat(done, [x]);
    assert s0.reported + out.written + done + [x] == s0.reported + out.written + (done + [x]);
  }

  /** Where a reaction's run stands after `stopTrackingRemovals`, with the
      tracked value `v`, once the sinks `done` are stored: the reaction is
      still the context, everything is quiet, the pass's bookkeeping is
      untouched, its dependencies are what the function read, and it is a
      reader of exactly its live dependencies. A function that reads only
      cells yielded `Run`'s value over the cells as they were when the run
      started, and the reaction depends on exactly `Run`'s reads: those of
      the path the function took. */
  ghost predicate ReactionRan(decls: seq<Decl>, alive: set<Id>, s0: State, s1: State, o: Id, v: int, done: seq<Id>)
    requires o < |decls| && decls[o].ReactionDecl?
  {
    var track := decls[o].handler.track;
    && Inv(decls, alive, s1) && Quiet(s1.nodes, |s1.nodes|) && DepsBounded(decls, s1.nodes)
    && s1.context == Some(o) && !s1.inTransaction && s1.hasScheduled && s1.queuedFlushes == 0
    && s1.pending == s0.pending && s1.counts == s0.counts && s1.updatedCalls == s0.updatedCalls
    && s0.updated <= s1.updated
    && o < |s1.nodes| && Kept(decls, s0.nodes, s1.nodes, Some(o))
    && MustTrack(track) <= s1.nodes[o].observing <= MayTrack(track)
    && (forall y :: y in alive && y < |s1.nodes| ==> (o in s1.nodes[y].observers <==> y in s1.nodes[o].observing))
    && (ReadsCellsOnly(track, decls) ==>
          && v == Run(track, Values(s0.nodes)).value
          && s1.nodes[o].observing == Run(track, Values(s0.nodes)).tracked
          && SinksStored(s0, s1, Run(track, Values(s0.nodes)), done, v)
          && CellsOnly(decls, s0.nodes, s1.nodes, {o}))
  }

  lemma ReactionTrackedRun(decls: seq<Decl>, alive: set<Id>, s0: State, s4: State, n6: seq<Node>, o: Id, v: int, rd: set<Id>)
    requires Flushing(decls, alive, s0) && o < |decls| && decls[o].ReactionDecl? && o < |s0.nodes| && !s0.nodes[o].cancelled
    requires EvalPost(decls, alive, ReactionStart(s0, o), s4, decls[o].handler.track, o, v, rd)
    requires Pruned(alive, s4.nodes, n6, o) && Ordered(decls, n6) && Linked(decls, n6, alive, {})
    requires ReadsCellsOnly(decls[o].handler.track, decls) ==> CellsOnly(decls, s4.nodes, n6, {o})
    ensures ReactionRan(decls, alive, s0, s4.(nodes := n6), o, v, [])
  {
    var s3 := ReactionStart(s0, o);
    assert s4.nodes[o] == s3.nodes[o].(observing := s3.nodes[o].observing + rd, accessed := rd,
                                       isObserving := s3.nodes[o].isObserving || rd != {});
    assert n6[o].observing == rd;
    assert Quiet(n6, |n6|) by {
      forall q | 0 <= q < |n6| ensures !n6[q].tracking && n6[q].accessed == {} {
        if q < o {
          assert n6[q].tracking == s4.nodes[q].tracking && n6[q].accessed == s4.nodes[q].accessed;
        } else if q > o {
          assert n6[q] == s4.nodes[q] == s3.nodes[q] == s0.nodes[q];
        }
      }
    }
    SameValues(s0.nodes, s3.nodes);
    SameValues(s4.nodes, n6);
    ReactionCells(decls, alive, s0, s3, s4, s4.(nodes := n6), o, v, rd);
    ReactionFrame(decls, alive, s0, s4, n6, o, v, rd);
  }

  /** The tracked run and the pruning fire no cancellable, change no other
      reaction's dependencies but to drop some, and leave the reaction's own
      within what its function may read; for a function over cells only the
      cells and the reaction changed, the cells only in their values and in
      reading the reaction. */
  lemma ReactionFrame(decls: seq<Decl>, alive: set<Id>, s0: State, s4: State, n6: seq<Node>, o: Id, v: int, rd: set<Id>)
    requires Flushing(decls, alive, s0) && o < |decls| && decls[o].ReactionDecl? && o < |s0.nodes|
    requires EvalPost(decls, alive, ReactionStart(s0, o), s4, decls[o].handler.track, o, v, rd)
    requires Pruned(alive, s4.nodes, n6, o) && n6[o].observing == rd
    requires ReadsCellsOnly(decls[o].handler.track, decls) ==> CellsOnly(decls, s4.nodes, n6, {o})
    ensures Kept(decls, s0.nodes, n6, Some(o)) && DepsBounded(decls, n6)
    ensures ReadsCellsOnly(decls[o].handler.track, decls) ==> CellsOnly(decls, s0.nodes, n6, {o})
  {
    var s3 := ReactionStart(s0, o);
    assert Kept(decls, s0.nodes, s3.nodes, Some(o));
    assert Kept(decls, s4.nodes, n6, Some(o));
    if ReadsCellsOnly(decls[o].handler.track, decls) {
      assert CellsOnly(decls, s0.nodes, s3.nodes, {o});
      CellsOnlyTrans(decls, s0.nodes, s3.nodes, s4.nodes, {o});
      CellsOnlyTrans(decls, s0.nodes, s4.nodes, n6, {o});
    }
  }

  /** Before the pruning, a reaction whose tracked function reads only cells
      depends on cells alone: its earlier dependencies are bounded by what
      the function may read, and so are the reads of this run. */
  lemma ReactionDepsCells(decls: seq<Decl>, alive: set<Id>, s0: State, s4: State, o: Id, v: int, rd: set<Id>)
    requires Flushing(decls, alive, s0) && o < |decls| && decls[o].ReactionDecl? && o < |s0.nodes|
    requires EvalPost(decls, alive, ReactionStart(s0, o), s4, decls[o].handler.track, o, v, rd)
    requires ReadsCellsOnly(decls[o].handler.track, decls)
    ensures o < |s4.nodes| && CellDeps(decls, s4.nodes[o].observing)
  {
    var track := decls[o].handler.track;
    TrackBounds(track);
    CellsOnlyReads(track, decls);
    assert s4.nodes[o].observing == s0.nodes[o].observing + rd;
  }

  /** What the tracked run leaves in the reaction's dependencies and in the
      cells. */
  lemma ReactionCells(decls: seq<Decl>, alive: set<Id>, s0: State, s3: State, s4: State, s5: State, o: Id, v: int, rd: set<Id>)
    requires o < |decls| && decls[o].ReactionDecl? && o < |s5.nodes| && !s5.nodes[o].cancelled
    requires s3.context == Some(o) && Values(s3.nodes) == Values(s0.nodes)
    requires Effects(decls, s3, s4, decls[o].handler.track, v, rd)
    requires s5 == s4.(nodes := s5.nodes) && Values(s5.nodes) == Values(s4.nodes)
    requires s3.updated == s0.updated && s3.settedLog == s0.settedLog && s3.reported == s0.reported
    requires s5.nodes[o].observing == rd && Linked(decls, s5.nodes, alive, {})
    ensures forall y :: y in alive && y < |s5.nodes| ==> (o in s5.nodes[y].observers <==> y in s5.nodes[o].observing)
    ensures ReadsCellsOnly(decls[o].handler.track, decls) ==>
      && v == Run(decls[o].handler.track, Values(s0.nodes)).value
      && s5.nodes[o].observing == Run(decls[o].handler.track, Values(s0.nodes)).tracked
      && SinksStored(s0, s5, Run(decls[o].handler.track, Values(s0.nodes)), [], v)
  {
    if ReadsCellsOnly(decls[o].handler.track, decls) {
      WroteStored(s0, s5, Run(decls[o].handler.track, Values(s0.nodes)), v);
    }
  }

  /** `onChange` stores the tracked value into one more sink: the run's
      position is kept, and the sink now holds the value. */
  lemma SinkStore(decls: seq<Decl>, alive: set<Id>, s0: State, s1: State, o: Id, v: int, done: seq<Id>, x: Id)
    requires o < |decls| && decls[o].ReactionDecl? && ReactionRan(decls, alive, s0, s1, o, v, done)
    requires x in alive && x < |decls| && decls[x].CellDecl?
    ensures ReactionRan(decls, alive, s0, Store(s1, x, v), o, v, done + [x])
    ensures Store(s1, x, v).updated == s1.updated + {x}
    ensures Store(s1, x, v).nodes[x].value == v
    ensures forall q :: 0 <= q < |s1.nodes| && q != x ==> Store(s1, x, v).nodes[q] == s1.nodes[q]
  {
    StorePreserves(decls, alive, s1, x, v);
    var s2 := Store(s1, x, v);
    assert Quiet(s2.nodes, |s2.nodes|) by {
      forall q | 0 <= q < |s2.nodes| ensures !s2.nodes[q].tracking && s2.nodes[q].accessed == {} {
        assert s2.nodes[q].tracking == s1.nodes[q].tracking && s2.nodes[q].accessed == s1.nodes[q].accessed;
      }
    }
    assert s2.nodes[o] == s1.nodes[o];
    forall y | y in alive && y < |s2.nodes| ensures s2.nodes[y].observers == s1.nodes[y].observers {
    }
    var track := decls[o].handler.track;
    StoreKept(decls, s0.nodes, s1.nodes, s2.nodes, x, v, o);
    if ReadsCellsOnly(track, decls) {
      StoreStored(s0, s1, Run(track, Values(s0.nodes)), done, v, x);
    }
  }

  /** Storing into a cell keeps the reaction's frame. */
  lemma StoreKept(decls: seq<Decl>, n0: seq<Node>, n1: seq<Node>, n2: seq<Node>, x: Id, v: int, o: Id)
    requires x < |n1| && x < |decls| && decls[x].CellDecl? && n2 == n1[x := n1[x].(value := v)]
    requires Kept(decls, n0, n1, Some(o)) && DepsBounded(decls, n1)
    ensures Kept(decls, n0, n2, Some(o)) && DepsBounded(decls, n2)
    ensures CellsOnly(decls, n0, n1, {o}) ==> CellsOnly(decls, n0, n2, {o})
  {
    if CellsOnly(decls, n0, n1, {o}) {
      StoreCell(decls, n0, n1, x, v, {o});
    }
  }

  /** What one `updated()` call of a flush did to observer `o`: the flush can
      go on, the pass's bookkeeping is untouched and the changed set only
      grew; no object was created, no reaction changed its cancelled flag,
      and no reaction other than `o` gained a dependency (`Kept`). A
      Computed only dropped its cache; a cancelled reaction did nothing; any
      other reaction re-ran its tracked function as `Reacted` says. */
  ghost predicate Fired(decls: seq<Decl>, alive: set<Id>, s0: State, s1: State, o: Id)
    requires o < |decls| && o < |s0.nodes| && !decls[o].CellDecl?
  {
    && Flushing(decls, alive, s1)
    && s1.pending == s0.pending && s1.counts == s0.counts && s1.updatedCalls == s0.updatedCalls
    && s0.updated <= s1.updated && Kept(decls, s0.nodes, s1.nodes, Some(o))
    && (decls[o].ComputedDecl? ==> s1 == s0.(nodes := s0.nodes[o := s0.nodes[o].(cached := None)]))
    && (decls[o].ReactionDecl? && s0.nodes[o].cancelled ==> s1 == s0)
    && (decls[o].ReactionDecl? && !s0.nodes[o].cancelled ==> Reacted(decls, alive, s0, s1, o))
  }

  /** A reaction that re-ran depends on what its tracked function read and
      is a reader of exactly its live dependencies; every sink was reported
      and holds the same value. A tracked function that reads only cells
      left the reaction depending on exactly `Run`'s reads, and the cells
      hold `Run`'s values except the sinks, which hold `Run`'s result; the
      reports are `Run`'s writes followed by the sinks in order; and apart
      from `o` itself only cells changed, each in its value and its readers,
      with readers other than `o` untouched (`CellsOnly`). */
  ghost predicate Reacted(decls: seq<Decl>, alive: set<Id>, s0: State, s1: State, o: Id)
    requires o < |decls| && decls[o].ReactionDecl?
  {
    var h := decls[o].handler;
    && o < |s1.nodes|
    && MustTrack(h.track) <= s1.nodes[o].observing <= MayTrack(h.track)
    && (forall y :: y in alive && y < |s1.nodes| ==> (o in s1.nodes[y].observers <==> y in s1.nodes[o].observing))
    && (forall j :: 0 <= j < |h.sinks| ==> h.sinks[j] in s1.updated && h.sinks[j] < |s1.nodes|)
    && (forall j, k :: 0 <= j < |h.sinks| && 0 <= k < |h.sinks| ==>
          s1.nodes[h.sinks[j]].value == s1.nodes[h.sinks[k]].value)
    && (ReadsCellsOnly(h.track, decls) ==>
          && s1.nodes[o].observing == Run(h.track, Values(s0.nodes)).tracked
          && SinksStored(s0, s1, Run(h.track, Values(s0.nodes)), h.sinks, Run(h.track, Values(s0.nodes)).value)
          && CellsOnly(decls, s0.nodes, s1.nodes, {o}))
  }

  /** `onChange` has stored `v` into the first `i` sinks: the reaction ran,
      and each of those sinks holds `v` and is recorded as changed. */
  ghost predicate SinksRan(decls: seq<Decl>, alive: set<Id>, s0: State, s1: State, o: Id, v: int, sinks: seq<Id>, i: nat)
    requires o < |decls| && decls[o].ReactionDecl? && i <= |sinks|
  {
    && ReactionRan(decls, alive, s0, s1, o, v, sinks[..i])
    && forall j :: 0 <= j < i ==> sinks[j] in s1.updated && sinks[j] < |s1.nodes| && s1.nodes[sinks[j]].value == v
  }

  /** Storing one more sink of `onChange`. */
  lemma SinkStep(decls: seq<Decl>, alive: set<Id>, s0: State, s1: State, o: Id, v: int, sinks: seq<Id>, i: nat)
    requires o < |decls| && decls[o].ReactionDecl? && i < |sinks|
    requires SinksRan(decls, alive, s0, s1, o, v, sinks, i)
    requires sinks[i] in alive && sinks[i] < |decls| && decls[sinks[i]].CellDecl?
    ensures sinks[i] < |s1.nodes| && SinksRan(decls, alive, s0, Store(s1, sinks[i], v), o, v, sinks, i + 1)
  {
    SinkStore(decls, alive, s0, s1, o, v, sinks[..i], sinks[i]);
    assert sinks[..i + 1] == sinks[..i] + [sinks[i]];
  }

  /** The sinks are all stored: the reaction's `updated()` is complete once
      the context is cleared. */
  lemma SinksDone(decls: seq<Decl>, alive: set<Id>, s0: State, s1: State, o: Id, v: int)
    requires Flushing(decls, alive, s0) && o < |decls| && decls[o].ReactionDecl? && o < |s0.nodes| && !s0.nodes[o].cancelled
    requires SinksRan(decls, alive, s0, s1, o, v, decls[o].handler.sinks, |decls[o].handler.sinks|)
    ensures Fired(decls, alive, s0, s1.(context := None), o)
  {
    assert decls[o].handler.sinks[..|decls[o].handler.sinks|] == decls[o].handler.sinks;
  }

  /** Every reaction among `fired` that is not cancelled has each of its
      sinks in the changed set, so the next round propagates what its
      `onChange` wrote. */
  ghost predicate SinksPending(decls: seq<Decl>, s: State, fired: seq<Id>) {
    forall p, j ::
      (p in fired && p < |decls| && p < |s.nodes| && decls[p].ReactionDecl? && !s.nodes[p].cancelled
       && 0 <= j < |decls[p].handler.sinks|) ==> decls[p].handler.sinks[j] in s.updated
  }

  /** One more `updated()` call keeps the sinks of the reactions fired so far
      pending, and adds those of `o`. */
  lemma SinksPendingStep(decls: seq<Decl>, alive: set<Id>, s0: State, s1: State, fired: seq<Id>, o: Id)
    requires o < |decls| && o < |s0.nodes| && !decls[o].CellDecl?
    requires SinksPending(decls, s0, fired) && Fired(decls, alive, s0, s1, o)
    ensures SinksPending(decls, s1, fired + [o])
  {
  }

  // ---------------------------------------------------------------- the states a pass goes through

  /** A state with the pass's bookkeeping (the pending list, the counts and
      the log of `updated()` calls) left out. */
  function Bare(s: State): State {
    s.(pending := [], counts := map[], updatedCalls := [])
  }

  /** `Fired` does not look at the pass's bookkeeping. */
  lemma FiredBare(decls: seq<Decl>, alive: set<Id>, s0: State, s1: State, o: Id)
    requires o < |decls| && o < |s0.nodes| && !decls[o].CellDecl?
    requires Fired(decls, alive, s0, s1, o)
    ensures Fired(decls, alive, Bare(s0), Bare(s1), o)
  {
  }

  /** Visiting entry `k` of the pending list took the engine from `s0` to
      `s1`: at the observer's last occurrence in the list its `updated()`
      ran, with the effect `Fired` describes; an earlier occurrence only
      counted down and left everything else as it was. */
  ghost predicate Visited(decls: seq<Decl>, alive: set<Id>, list: seq<Id>, k: nat, s0: State, s1: State)
    requires k < |list|
  {
    if list[k] in list[k + 1..] then s1 == s0
    else list[k] < |decls| && list[k] < |s0.nodes| && !decls[list[k]].CellDecl? && Fired(decls, alive, s0, s1, list[k])
  }

  /** `states` are the states a walk over `list` went through, its
      bookkeeping left out: `states[k + 1]` is what visiting `list[k]` left. */
  ghost predicate Walk(decls: seq<Decl>, alive: set<Id>, list: seq<Id>, states: seq<State>) {
    && 1 <= |states| <= |list| + 1
    && forall k :: 0 <= k < |states| - 1 ==> Visited(decls, alive, list, k, states[k], states[k + 1])
  }

  /** One more visit extends the walk by one state. */
  lemma WalkExtend(decls: seq<Decl>, alive: set<Id>, list: seq<Id>, states: seq<State>, s: State)
    requires Walk(decls, alive, list, states) && |states| <= |list|
    requires Visited(decls, alive, list, |states| - 1, states[|states| - 1], s)
    ensures Walk(decls, alive, list, states + [s])
  {
    var t := states + [s];
    forall k | 0 <= k < |t| - 1 ensures Visited(decls, alive, list, k, t[k], t[k + 1]) {
      if k < |states| - 1 {
        assert t[k] == states[k] && t[k + 1] == states[k + 1];
      }
    }
  }

  /** A walk over `list` has visited its first `i` entries: it went
      through `states`, ending in `s` (bookkeeping left out), and the counts
      agree with what is left of the list. */
  ghost predicate WalkedTo(decls: seq<Decl>, alive: set<Id>, list: seq<Id>, i: nat, counts: map<Id, int>,
                           states: seq<State>, s: State) {
    && i <= |list| && CountsAhead(list, i, counts)
    && |states| == i + 1 && Walk(decls, alive, list, states) && states[i] == s
  }

  /** A walk over a list the counts agree with starts with its first state. */
  lemma WalkStart(decls: seq<Decl>, alive: set<Id>, list: seq<Id>, counts: map<Id, int>, s: State)
    requires CountsMatch(list, counts)
    ensures WalkedTo(decls, alive, list, 0, counts, [s], s)
  {
    assert list[0..] == list;
  }

  /** Visiting `o`, the entry at `i`, from `s0` to `s1` with counts `c0`
      then `c1`: a count at most 0 is the last occurrence, and `updated()`
      ran with the effect `Fired` describes (the call log aside); any other
      count went down by one and nothing else changed. */
  lemma WalkVisit(decls: seq<Decl>, alive: set<Id>, list: seq<Id>, i: nat, c0: map<Id, int>, c1: map<Id, int>,
                  states: seq<State>, s0: State, s1: State)
    requires i < |list| && WalkedTo(decls, alive, list, i, c0, states, Bare(s0))
    requires var o := list[i]; o < |decls| && o < |s0.nodes| && !decls[o].CellDecl? && o in c0
    requires var o := list[i];
      c0[o] <= 0 ==> c1 == c0 && Fired(decls, alive, s0, s1.(updatedCalls := s0.updatedCalls), o)
    requires var o := list[i]; c0[o] > 0 ==> c1 == c0[o := c0[o] - 1] && Bare(s1) == Bare(s0)
    ensures WalkedTo(decls, alive, list, i + 1, c1, states + [Bare(s1)], Bare(s1))
  {
    var o := list[i];
    CountsAheadStep(list, i, c0);
    if c0[o] <= 0 {
      FiredBare(decls, alive, s0, s1.(updatedCalls := s0.updatedCalls), o);
      assert Bare(s1.(updatedCalls := s0.updatedCalls)) == Bare(s1);
    }
    WalkExtend(decls, alive, list, states, Bare(s1));
  }

  /** A walk over a list that names one observer `o` only, however many
      times (a diamond), counts down until the last entry and then calls
      `updated()` on `o` once: the walk's effect is that of one call. */
  lemma WalkOnly(decls: seq<Decl>, alive: set<Id>, list: seq<Id>, states: seq<State>, o: Id)
    requires Walk(decls, alive, list, states) && |states| == |list| + 1 && o in list
    requires forall k :: 0 <= k < |list| ==> list[k] == o
    ensures o < |decls| && o < |states[0].nodes| && !decls[o].CellDecl?
    ensures Fired(decls, alive, states[0], states[|list|], o)
  {
    var n := |list| - 1;
    WalkCountsDown(decls, alive, list, states, o, n);
    assert list[n] == o && list[n + 1..] == [];
    assert Visited(decls, alive, list, n, states[n], states[n + 1]);
  }

  /** What `updated()` did to a live reaction whose tracked function reads
      only cells: it depends on exactly what `Run` read, it is a reader of
      exactly its live dependencies, the cells hold what `Run` left except
      the sinks, which hold its value, and the cells it and the sinks wrote
      joined the changed set. */
  lemma FiredReaction(decls: seq<Decl>, alive: set<Id>, s0: State, s1: State, o: Id)
    requires o < |decls| && o < |s0.nodes| && decls[o].ReactionDecl? && !s0.nodes[o].cancelled
    requires ReadsCellsOnly(decls[o].handler.track, decls) && Fired(decls, alive, s0, s1, o)
    ensures var h, out := decls[o].handler, Run(decls[o].handler.track, Values(s0.nodes));
      && o < |s1.nodes| && s1.nodes[o].observing == out.tracked
      && (forall y :: y in alive && y < |s1.nodes| ==> (o in s1.nodes[y].observers <==> y in out.tracked))
      && |s1.nodes| == |s0.nodes|
      && (forall q :: 0 <= q < |s1.nodes| ==> s1.nodes[q].value == if q in h.sinks then out.value else out.store[q])
      && s1.updated == s0.updated + Elems(out.written) + Elems(h.sinks)
  {
  }

  /** Before the last entry of such a list, the walk has changed nothing. */
  lemma {:induction false} WalkCountsDown(decls: seq<Decl>, alive: set<Id>, list: seq<Id>, states: seq<State>, o: Id, k: nat)
    requires Walk(decls, alive, list, states) && |states| == |list| + 1 && k < |list|
    requires forall j :: 0 <= j < |list| ==> list[j] == o
    ensures states[k] == states[0]
    decreases k
  {
    if k > 0 {
      WalkCountsDown(decls, alive, list, states, o, k - 1);
      assert list[k - 1] == o && list[k] == o && o in list[k..];
      assert Visited(decls, alive, list, k - 1, states[k - 1], states[k]);
    }
  }

  /** The walk of `_updateCurrentObservers` over `list` has visited its
      first `i` entries of the pass `pass`, which started with the call log
      `calls0`, and went through `states` to `s`. */
  ghost predicate WalkedAt(decls: seq<Decl>, alive: set<Id>, list: seq<Id>, i: nat, pass: Pass, calls0: seq<Id>,
                           states: seq<State>, s: State) {
    && i <= |list| && Flushing(decls, alive, s) && s.pending == list
    && PassAt(decls, list, i, pass, calls0, s)
    && WalkedTo(decls, alive, list, i, s.counts, states, Bare(s))
  }

  /** The calls made so far and the rest of the pass make up the whole
      pass, and the reactions fired so far have their sinks pending. */
  ghost predicate PassAt(decls: seq<Decl>, list: seq<Id>, i: nat, pass: Pass, calls0: seq<Id>, s: State) {
    && i <= |list|
    && (forall j :: 0 <= j < |list| ==> list[j] in s.counts)
    && calls0 + pass.fired == s.updatedCalls + Drain(list[i..], s.counts).fired
    && pass.counts == Drain(list[i..], s.counts).counts
    && |calls0| <= |s.updatedCalls| && s.updatedCalls[..|calls0|] == calls0
    && SinksPending(decls, s, s.updatedCalls[|calls0|..])
  }

  /** The walk starts with nothing visited, the whole pass ahead. */
  lemma WalkBegin(decls: seq<Decl>, alive: set<Id>, s: State)
    requires Flushing(decls, alive, s) && CountsMatch(s.pending, s.counts)
    ensures forall j :: 0 <= j < |s.pending| ==> s.pending[j] in s.counts
    ensures WalkedAt(decls, alive, s.pending, 0, Drain(s.pending, s.counts), s.updatedCalls, [Bare(s)], s)
  {
    WalkStart(decls, alive, s.pending, s.counts, Bare(s));
    assert s.updatedCalls[|s.updatedCalls|..] == [] && s.pending[0..] == s.pending;
  }

  /** When every entry is visited, the pass is complete. */
  lemma WalkDone(decls: seq<Decl>, alive: set<Id>, list: seq<Id>, pass: Pass, calls0: seq<Id>,
                 states: seq<State>, s: State)
    requires WalkedAt(decls, alive, list, |list|, pass, calls0, states, s)
    ensures Flushing(decls, alive, s) && s.pending == list
    ensures s.updatedCalls == calls0 + pass.fired && s.counts == pass.counts
    ensures SinksPending(decls, s, s.updatedCalls[|calls0|..])
    ensures |states| == |list| + 1 && Walk(decls, alive, list, states) && states[|list|] == Bare(s)
  {
    assert list[|list|..] == [];
  }

  /** The call log and the counts after visiting `o`, the entry at `i`,
      from `s0` to `s1`. */
  lemma PassAdvance(decls: seq<Decl>, alive: set<Id>, list: seq<Id>, i: nat, pass: Pass, calls0: seq<Id>,
                    s0: State, s1: State)
    requires i < |list| && PassAt(decls, list, i, pass, calls0, s0)
    requires var o := list[i]; o < |decls| && o < |s0.nodes| && !decls[o].CellDecl?
    requires var o, c := list[i], s0.counts;
      if c[o] <= 0 then s1.counts == c && s1.updatedCalls == s0.updatedCalls + [o]
      else s1.counts == c[o := c[o] - 1] && s1.updatedCalls == s0.updatedCalls
    requires s0.counts[list[i]] <= 0 ==> Fired(decls, alive, s0, s1.(updatedCalls := s0.updatedCalls), list[i])
    requires s0.counts[list[i]] > 0 ==> s1 == s0.(counts := s1.counts)
    ensures PassAt(decls, list, i + 1, pass, calls0, s1)
  {
    var o, c0, calls1 := list[i], s0.counts, s0.updatedCalls;
    DrainAdvance(list, i, pass, calls0, c0, calls1, s1.counts, s1.updatedCalls);
    if c0[o] <= 0 {
      SinksPendingStep(decls, alive, s0, s1.(updatedCalls := calls1), calls1[|calls0|..], o);
      assert s1.updatedCalls[|calls0|..] == calls1[|calls0|..] + [o];
    }
  }

  /** The walk goes one entry further when the visit of `list[i]` took the
      engine from `s0` to `s1` as the visit of one pending entry does: a
      count at most 0 records the call and has the effect `Fired`
      describes, any other count goes down by one and nothing else changes. */
  lemma WalkAdvance(decls: seq<Decl>, alive: set<Id>, list: seq<Id>, i: nat, pass: Pass, calls0: seq<Id>,
                    states: seq<State>, s0: State, s1: State)
    requires i < |list| && WalkedAt(decls, alive, list, i, pass, calls0, states, s0)
    requires Flushing(decls, alive, s1) && s1.pending == s0.pending
    requires var o, c := list[i], s0.counts;
      if c[o] <= 0 then s1.counts == c && s1.updatedCalls == s0.updatedCalls + [o]
      else s1.counts == c[o := c[o] - 1] && s1.updatedCalls == s0.updatedCalls
    requires var o := list[i];
      o < |decls| && o < |s0.nodes| && !decls[o].CellDecl? && s0.counts[o] <= 0 ==>
        Fired(decls, alive, s0, s1.(updatedCalls := s0.updatedCalls), o)
    requires s0.counts[list[i]] > 0 ==> s1 == s0.(counts := s1.counts)
    ensures WalkedAt(decls, alive, list, i + 1, pass, calls0, states + [Bare(s1)], s1)
    ensures SameCancelled(s0.nodes, s1.nodes)
  {
    var o := list[i];
    assert o < |decls| && o < |s0.nodes| && !decls[o].CellDecl?;
    PassAdvance(decls, alive, list, i, pass, calls0, s0, s1);
    WalkVisit(decls, alive, list, i, s0.counts, s1.counts, states, s0, s1);
  }

  /** Every reader of a cell changed in `s` has a call in `calls`. */
  ghost predicate ReadersCalled(s: State, calls: seq<Id>) {
    forall x, y :: x in s.updated && x < |s.nodes| && y in s.nodes[x].observers ==> y in calls
  }

  /** The first round calls every reader of a cell changed when it started:
      each of them is listed, and each listed observer is called once. */
  lemma FirstRoundCalled(s: State, list: seq<Id>, calls: seq<Id>)
    requires forall x, y :: x in s.updated && x < |s.nodes| && y in s.nodes[x].observers ==> y in list
    requires forall p :: Occurrences(calls, p) == if p in list then 1 else 0
    ensures ReadersCalled(s, calls)
  {
    forall x, y | x in s.updated && x < |s.nodes| && y in s.nodes[x].observers ensures y in calls {
      assert Occurrences(calls, y) == 1;
    }
  }

  /** A call stays in a log that only grows. */
  lemma ReadersStillCalled(s: State, c0: seq<Id>, c1: seq<Id>, c2: seq<Id>)
    requires |c0| <= |c1| <= |c2| && c2[..|c1|] == c1 && ReadersCalled(s, c1[|c0|..])
    ensures ReadersCalled(s, c2[|c0|..])
  {
    assert c2[|c0|..] == c1[|c0|..] + c2[|c1|..];
  }

  /** One round of the flush block from `s0`, its bookkeeping left out: the
      round scheduled `list`, a list of observers which holds every reader
      of a changed cell and, after each listed Computed, its readers; then
      the changed set was emptied and the walk over `list` went through
      `states`, one visit per entry. */
  ghost predicate Round(decls: seq<Decl>, alive: set<Id>, s0: State, list: seq<Id>, states: seq<State>) {
    && (forall k :: 0 <= k < |list| ==> list[k] < |decls| && !decls[list[k]].CellDecl?)
    && (forall x, y :: x in s0.updated && x < |s0.nodes| && y in s0.nodes[x].observers ==> y in list)
    && ClosedFrom(decls, s0.nodes, list, 0)
    && |states| == |list| + 1 && Walk(decls, alive, list, states)
    && states[0] == s0.(updated := {})
  }

  /** The pending list and the states of one round of a flush. */
  datatype RoundLog = RoundLog(list: seq<Id>, states: seq<State>)

  /** The state a round ends in. */
  function RoundEnd(r: RoundLog): State
    requires |r.states| == |r.list| + 1
  {
    r.states[|r.list|]
  }

  /** `log` are successive rounds of a flush that took the engine from `s0`
      to `s1`, the bookkeeping left out: each round starts, with some cell
      changed, where the last one ended, and so its list holds the readers
      of the cells the previous round's reactions wrote. */
  ghost predicate Rounds(decls: seq<Decl>, alive: set<Id>, s0: State, log: seq<RoundLog>, s1: State)
    decreases |log|
  {
    if log == [] then s1 == s0
    else
      && s0.updated != {} && Round(decls, alive, s0, log[0].list, log[0].states)
      && Rounds(decls, alive, RoundEnd(log[0]), log[1..], s1)
  }

  /** The flush block that started in `s0` has run the rounds `log` and is
      now in `s` between two rounds: the call log only grew, no cancelled
      flag changed, and once a round has run, or no cell was changed, every
      reader of a cell changed in `s0` has had `updated()` called. */
  ghost predicate FlushedSoFar(decls: seq<Decl>, alive: set<Id>, s0: State, log: seq<RoundLog>, s: State) {
    && Flushing(decls, alive, s) && s.pending == [] && s.counts == map[]
    && |s0.updatedCalls| <= |s.updatedCalls| && s.updatedCalls[..|s0.updatedCalls|] == s0.updatedCalls
    && SameCancelled(s0.nodes, s.nodes)
    && (log == [] ==> s.nodes == s0.nodes && s.updated == s0.updated && s.updatedCalls == s0.updatedCalls)
    && (log != [] || s.updated == {} ==> ReadersCalled(s0, s.updatedCalls[|s0.updatedCalls|..]))
    && Rounds(decls, alive, Bare(s0).(queuedFlushes := 0), log, Bare(s))
  }

  /** The block starts, taken off the queue, with no round run. */
  lemma FlushBegin(decls: seq<Decl>, alive: set<Id>, s0: State)
    requires Settled(decls, alive, s0) && s0.queuedFlushes == 1
    ensures FlushedSoFar(decls, alive, s0, [], s0.(queuedFlushes := 0))
  {
    assert s0.updatedCalls[..|s0.updatedCalls|] == s0.updatedCalls;
    assert s0.updatedCalls[|s0.updatedCalls|..] == [];
  }

  /** One more round, from `s1` to `s2`, as `FlushPass` runs it: it listed
      `list`, called each listed observer once, and went through `states`. */
  lemma FlushStep(decls: seq<Decl>, alive: set<Id>, s0: State, log: seq<RoundLog>, s1: State, s2: State,
                  list: seq<Id>, states: seq<State>)
    requires FlushedSoFar(decls, alive, s0, log, s1) && s1.updated != {}
    requires Flushing(decls, alive, s2) && s2.pending == [] && s2.counts == map[]
    requires |s1.updatedCalls| <= |s2.updatedCalls| && s2.updatedCalls[..|s1.updatedCalls|] == s1.updatedCalls
    requires forall p :: Occurrences(s2.updatedCalls[|s1.updatedCalls|..], p) == if p in list then 1 else 0
    requires SameCancelled(s1.nodes, s2.nodes)
    requires Round(decls, alive, Bare(s1), list, states) && |states| == |list| + 1 && states[|list|] == Bare(s2)
    ensures FlushedSoFar(decls, alive, s0, log + [RoundLog(list, states)], s2)
  {
    RoundsAppend(decls, alive, Bare(s0).(queuedFlushes := 0), log, Bare(s1), RoundLog(list, states));
    assert s2.updatedCalls[..|s0.updatedCalls|] == s1.updatedCalls[..|s0.updatedCalls|];
    if log == [] {
      FirstRoundCalled(s0, list, s2.updatedCalls[|s1.updatedCalls|..]);
    } else {
      ReadersStillCalled(s0, s0.updatedCalls, s1.updatedCalls, s2.updatedCalls);
    }
  }

  /** A flush that ran no round left the state as it was. */
  lemma RoundsNone(decls: seq<Decl>, alive: set<Id>, s0: State, log: seq<RoundLog>, s1: State)
    requires Rounds(decls, alive, s0, log, s1)
    ensures log == [] ==> s1 == s0
  {
  }

  /** One more round extends the flush. */
  lemma {:induction false} RoundsAppend(decls: seq<Decl>, alive: set<Id>, s0: State, log: seq<RoundLog>, s1: State, r: RoundLog)
    requires Rounds(decls, alive, s0, log, s1) && s1.updated != {} && Round(decls, alive, s1, r.list, r.states)
    ensures Rounds(decls, alive, s0, log + [r], RoundEnd(r))
    decreases |log|
  {
    if log == [] {
      assert ([r])[1..] == [];
    } else {
      assert (log + [r])[0] == log[0] && (log + [r])[1..] == log[1..] + [r];
      RoundsAppend(decls, alive, RoundEnd(log[0]), log[1..], s1, r);
    }
  }

  /** Order within a pass: a Computed listed in the pass is updated before
      each of its readers, because they are listed after it and each
      observer is updated at its last occurrence. */
  lemma PassOrder(decls: seq<Decl>, nodes: seq<Node>, list: seq<Id>, counts: map<Id, int>)
    requires Ordered(decls, nodes) && ClosedFrom(decls, nodes, list, 0) && CountsMatch(list, counts)
    ensures forall j :: 0 <= j < |list| ==> list[j] in counts
    ensures forall c, y :: c in list && c < |nodes| && decls[c].ComputedDecl? && y in nodes[c].observers ==>
      Before(Drain(list, counts).fired, c, y)
  {
    DrainIsLasts(list, counts);
    forall c, y | c in list && c < |nodes| && decls[c].ComputedDecl? && y in nodes[c].observers
      ensures Before(Lasts(list), c, y)
    {
      forall i | 0 <= i < |list| && list[i] == c ensures y in list[i + 1..] {
      }
      LastsOrder(list, c, y);
    }
  }

  /** `Computed.updated` clears the cache and keeps the flush going. */
  lemma InvalidateKeeps(decls: seq<Decl>, alive: set<Id>, s: State, c: Id)
    requires Flushing(decls, alive, s) && c < |s.nodes|
    ensures Flushing(decls, alive, s.(nodes := s.nodes[c := s.nodes[c].(cached := None)]))
  {
    SameEdges(decls, alive, s.nodes, s.nodes[c := s.nodes[c].(cached := None)]);
  }

  // ---------------------------------------------------------------- registration

  /** `addReaction(observer:)` runs the tracked function with the new
      reaction as the context and without the pruning bracket. */
  lemma RegisterPre(decls: seq<Decl>, alive: set<Id>, s: State, o: Id)
    requires Settled(decls, alive, s) && o < |decls| && decls[o].ReactionDecl?
    ensures EvalPre(decls, alive, s.(context := Some(o)), decls[o].handler.track, o)
  {
    assert WfDecl(decls[o], o, decls, alive);
  }

  /** After that run and the restored context the engine is settled again,
      and the reaction has added exactly what it read to its dependencies. */
  lemma RegisterRun(decls: seq<Decl>, alive: set<Id>, s0: State, s2: State, o: Id, v: int, rd: set<Id>)
    requires Settled(decls, alive, s0) && o < |decls| && decls[o].ReactionDecl?
    requires EvalPost(decls, alive, s0.(context := Some(o)), s2, decls[o].handler.track, o, v, rd)
    ensures Settled(decls, alive, s2.(context := None))
    ensures o < |s2.nodes| && s2.nodes[o].observing == s0.nodes[o].observing + rd
    ensures s2.nodes[o].cancelled == s0.nodes[o].cancelled
    ensures s2.nodes[o].isObserving == (s0.nodes[o].isObserving || rd != {})
  {
    var s3 := s2.(context := None);
    assert Quiet(s3.nodes, |s3.nodes|) by {
      forall q | 0 <= q < |s3.nodes| ensures !s3.nodes[q].tracking && s3.nodes[q].accessed == {} {
        if q > o {
          assert s3.nodes[q] == s0.nodes[q];
        }
      }
    }
  }
}
