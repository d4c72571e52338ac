/**
 * Two of the library's own tests, stated against the engine's contracts:
 * what the state is once the flush block a change enqueued has run.
 */
module Scenarios {
  import opened Closures
  import opened Graph
  import opened EngineState
  import opened Passes
  import opened Reactive

  /** A new engine holding two cells, with ids 0 and 1, and nothing else. */
  method TwoCellEngine(v0: int, v1: int) returns (e: Engine)
    ensures fresh(e) && fresh(e.detector) && e.Valid()
    ensures e.decls == [CellDecl, CellDecl] && e.nodes == [FreshNode(v0), FreshNode(v1)] && e.alive == {0, 1}
  {
    e := new Engine();
    var first := e.NewObservable(v0);
    var second := e.NewObservable(v1);
  }

  /** With two live cells, the closures of both tests read and write only
      them, and read cells only. */
  lemma TwoCells(decls: seq<Decl>, alive: set<Id>)
    requires |decls| == 2 && decls[0] == CellDecl && decls[1] == CellDecl && 0 in alive && 1 in alive
    ensures WfHandler(Handler(Get(0), [1]), 2, decls, alive)
    ensures WfExpr(PrintTrack(), 2, decls, alive)
    ensures forall d :: ReadsCellsOnly(PrintTrack(), decls + [d]) && ReadsCellsOnly(Get(0), decls + [d])
  {
  }

  // ---------------------------------------------------------------- testSettingStateInReaction

  /** The state of `testSettingStateInReaction` before the change: cells
      `count` (id 0) and `greeting` (id 1), and a reaction (id 2) tracking
      `count` whose `onChange` stores the value into `greeting`. The
      test's second reaction only fulfils an expectation, so it is not part
      of this engine. */
  method CountReaction() returns (e: Engine)
    ensures fresh(e) && fresh(e.detector) && e.Valid()
    ensures |e.decls| == 3 && e.decls[0] == CellDecl && e.decls[1] == CellDecl
    ensures e.decls[2] == ReactionDecl(Handler(Get(0), [1]))
    ensures 0 in e.alive && |e.nodes| == 3 && 2 in e.nodes[0].observers && !e.nodes[2].cancelled
  {
    e := TwoCellEngine(0, 0);
    TwoCells(e.decls, e.alive);
    var o, cyclic, observing := e.Reaction(Handler(Get(0), [1]));
  }

  /** `testSettingStateInReaction`: setting `count` to 100 and running the
      flush block it enqueued leaves `greeting` at 100. */
  method SettingStateInReaction() returns (greeting: int)
    ensures greeting == 100
  {
    var e := CountReaction();
    e.Set(0, 100);
    ghost var s0 := e.Snap();
    var drained;
    ghost var log;
    drained, log := e.Flush(1);
    SettingStateFlushed(e.decls, e.alive, s0, log, Bare(e.Snap()).(hasScheduled := true), drained);
    greeting := e.nodes[1].value;
  }

  /** The flush of `SettingStateInReaction`: its one round runs the
      reaction, which stores `count` into `greeting`. */
  lemma SettingStateFlushed(decls: seq<Decl>, alive: set<Id>, s0: State, log: seq<RoundLog>, s1: State, drained: bool)
    requires |decls| == 3 && decls[0] == CellDecl && decls[1] == CellDecl && decls[2] == ReactionDecl(Handler(Get(0), [1]))
    requires |s0.nodes| == 3 && s0.nodes[0].value == 100 && 0 in s0.updated && 2 in s0.nodes[0].observers
    requires !s0.nodes[2].cancelled
    requires Rounds(decls, alive, Bare(s0).(queuedFlushes := 0), log, s1)
    requires |log| <= 1 && (drained <==> s1.updated == {}) && (!drained ==> |log| == 1)
    ensures |s1.nodes| == 3 && s1.nodes[1].value == 100
  {
    var start := OnlyRound(decls, alive, s0, log, s1, 2);
    assert Values(start.nodes)[0] == 100;
    FiredReaction(decls, alive, start, s1, 2);
  }

  // ---------------------------------------------------------------- testConditionalObservingAutorun

  /** The tracked function of `testConditionalObservingAutorun`: `message`
      (id 1) is read only while `print` (id 0) is set. */
  function PrintTrack(): Expr {
    If(Get(0), Get(1), Lit(0))
  }

  /** It reads `message` exactly when `print` is set, and writes nothing. */
  lemma PrintTrackReads(store: seq<int>)
    requires |store| >= 2
    ensures Run(PrintTrack(), store).tracked == if store[0] != 0 then {0, 1} else {0}
    ensures Run(PrintTrack(), store).written == []
  {
  }

  /** The state of `testConditionalObservingAutorun` before the change:
      cells `print` (id 0, set) and `message` (id 1), and the autorun (id 2),
      which has read both. */
  method PrintAutorun() returns (e: Engine)
    ensures fresh(e) && fresh(e.detector) && e.Valid()
    ensures |e.decls| == 3 && e.decls[0] == CellDecl && e.decls[1] == CellDecl
    ensures e.decls[2] == ReactionDecl(Handler(PrintTrack(), []))
    ensures 0 in e.alive && 1 in e.alive && |e.nodes| == 3 && 2 in e.nodes[0].observers && !e.nodes[2].cancelled
    ensures e.nodes[2].observing == {0, 1}
  {
    e := TwoCellEngine(1, 0);
    TwoCells(e.decls, e.alive);
    ghost var store := Values(e.nodes + [FreshNode(0)]);
    assert store[0] == 1;
    PrintTrackReads(store);
    var o, cyclic, observing := e.Autorun(PrintTrack());
  }

  /** `testConditionalObservingAutorun`: clearing `print` and running the
      flush block it enqueued leaves the autorun depending on `print`
      alone and no longer a reader of `message`, with nothing left to
      propagate. */
  method ConditionalObservingAutorun() returns (before: set<Id>, after: set<Id>, messageReaders: set<Id>, drained: bool)
    ensures before == {0, 1} && after == {0} && 2 !in messageReaders && drained
  {
    var e := PrintAutorun();
    before := e.nodes[2].observing;
    e.Set(0, 0);
    ghost var s0 := e.Snap();
    ghost var log;
    drained, log := e.Flush(1);
    ConditionalFlushed(e.decls, e.alive, s0, log, Bare(e.Snap()).(hasScheduled := true), drained);
    after := e.nodes[2].observing;
    messageReaders := e.nodes[1].observers;
  }

  /** The flush of `ConditionalObservingAutorun`: its one round re-runs the
      autorun with `print` cleared. */
  lemma ConditionalFlushed(decls: seq<Decl>, alive: set<Id>, s0: State, log: seq<RoundLog>, s1: State, drained: bool)
    requires |decls| == 3 && decls[0] == CellDecl && decls[1] == CellDecl && decls[2] == ReactionDecl(Handler(PrintTrack(), []))
    requires 1 in alive
    requires |s0.nodes| == 3 && s0.nodes[0].value == 0 && 0 in s0.updated && 2 in s0.nodes[0].observers
    requires !s0.nodes[2].cancelled
    requires Rounds(decls, alive, Bare(s0).(queuedFlushes := 0), log, s1)
    requires |log| <= 1 && (drained <==> s1.updated == {}) && (!drained ==> |log| == 1)
    ensures |s1.nodes| == 3 && s1.nodes[2].observing == {0} && 2 !in s1.nodes[1].observers && drained
  {
    var start := OnlyRound(decls, alive, s0, log, s1, 2);
    assert Values(start.nodes)[0] == 0;
    PrintTrackReads(Values(start.nodes));
    FiredReaction(decls, alive, start, s1, 2);
    assert Elems([]) == {};
  }

  /** A flush of at most one round from `s0`, where a cell was changed that
      the reaction `o` reads and every other object is a cell: the round ran
      and its effect is one `updated()` call on `o`. */
  lemma OnlyRound(decls: seq<Decl>, alive: set<Id>, s0: State, log: seq<RoundLog>, s1: State, o: Id)
      returns (start: State)
    requires Rounds(decls, alive, Bare(s0).(queuedFlushes := 0), log, s1) && |log| <= 1
    requires s1.updated != {} ==> |log| == 1
    requires o < |decls| && decls[o].ReactionDecl? && forall q: Id :: q < |decls| && q != o ==> decls[q].CellDecl?
    requires exists x :: x in s0.updated && x < |s0.nodes| && o in s0.nodes[x].observers
    ensures start == Bare(s0).(queuedFlushes := 0, updated := {}) && o < |start.nodes|
    ensures start.nodes == s0.nodes && start.updated == {}
    ensures Fired(decls, alive, start, s1, o)
  {
    RoundsNone(decls, alive, Bare(s0).(queuedFlushes := 0), log, s1);
    var r := log[0];
    assert log[1..] == [];
    start := Bare(s0).(queuedFlushes := 0, updated := {});
    forall k | 0 <= k < |r.list| ensures r.list[k] == o {
    }
    WalkOnly(decls, alive, r.list, r.states, o);
  }
}
