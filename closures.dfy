/**
 * Tracked closures.
 *
 * The Swift closures handed to `autorun`, `reaction`, `computed` and
 * `inTransaction` are modelled as terms of a small language: tracked reads of
 * cells and Computeds, arithmetic, conditionals (so the set of cells a closure
 * reads can change from one run to the next), writes to cells, nested
 * transactions and blocks run without a tracking context.
 */
module Closures {

  /** Object identity (Swift's `ObjectIdentifier`). */
  type Id = nat

  datatype Expr =
    | Lit(n: int)
    | Get(x: Id)                             // `wrappedValue` get, or `Computed.value`
    | Add(left: Expr, right: Expr)
    | If(cond: Expr, thn: Expr, els: Expr)   // a non-zero condition selects `thn`
    | Put(x: Id, arg: Expr)                  // `wrappedValue` set; yields the value stored
    | Seq(first: Expr, last: Expr)
    | Atomic(body: Expr)                     // `inTransaction { body }`
    | Untracked(body: Expr)                  // `runWithoutObserverContext { body }`

  /** The closure an `ObserverContext` stores: the tracked function, and an
      `onChange` callback that stores the tracked value into each of `sinks`. */
  datatype Handler = Handler(track: Expr, sinks: seq<Id>)

  /** What each object was created as, and the code it was created with. */
  datatype Decl =
    | CellDecl                        // an `Observable<Value>` property wrapper
    | ReactionDecl(handler: Handler)  // an `ObserverContext` and its closure
    | ComputedDecl(computeFunc: Expr) // a `Computed<V>` and its `computeFunc`

  /** Every id the closure may read, with or without a tracking context. */
  function Reads(e: Expr): set<Id> {
    match e
    case Lit(_) => {}
    case Get(x) => {x}
    case Add(a, b) => Reads(a) + Reads(b)
    case If(c, t, f) => Reads(c) + Reads(t) + Reads(f)
    case Put(_, a) => Reads(a)
    case Seq(a, b) => Reads(a) + Reads(b)
    case Atomic(b) => Reads(b)
    case Untracked(b) => Reads(b)
  }

  /** Every cell the closure may write. */
  function Writes(e: Expr): set<Id> {
    match e
    case Lit(_) => {}
    case Get(_) => {}
    case Add(a, b) => Writes(a) + Writes(b)
    case If(c, t, f) => Writes(c) + Writes(t) + Writes(f)
    case Put(x, a) => {x} + Writes(a)
    case Seq(a, b) => Writes(a) + Writes(b)
    case Atomic(b) => Writes(b)
    case Untracked(b) => Writes(b)
  }

  /** The ids the closure may read under its caller's tracking context:
      reads inside `Untracked` are made with no context. */
  function MayTrack(e: Expr): set<Id> {
    match e
    case Lit(_) => {}
    case Get(x) => {x}
    case Add(a, b) => MayTrack(a) + MayTrack(b)
    case If(c, t, f) => MayTrack(c) + MayTrack(t) + MayTrack(f)
    case Put(_, a) => MayTrack(a)
    case Seq(a, b) => MayTrack(a) + MayTrack(b)
    case Atomic(b) => MayTrack(b)
    case Untracked(_) => {}
  }

  /** The ids the closure reads under its caller's context on every path. */
  function MustTrack(e: Expr): set<Id> {
    match e
    case Lit(_) => {}
    case Get(x) => {x}
    case Add(a, b) => MustTrack(a) + MustTrack(b)
    case If(c, t, f) => MustTrack(c) + (MustTrack(t) * MustTrack(f))
    case Put(_, a) => MustTrack(a)
    case Seq(a, b) => MustTrack(a) + MustTrack(b)
    case Atomic(b) => MustTrack(b)
    case Untracked(_) => {}
  }

  /** What is read on every path may be read, and what may be tracked may be read. */
  lemma {:induction false} TrackBounds(e: Expr)
    ensures MustTrack(e) <= MayTrack(e) <= Reads(e)
  {
    match e
    case Lit(_) =>
    case Get(_) =>
    case Add(a, b) => TrackBounds(a); TrackBounds(b);
    case If(c, t, f) => TrackBounds(c); TrackBounds(t); TrackBounds(f);
    case Put(_, a) => TrackBounds(a);
    case Seq(a, b) => TrackBounds(a); TrackBounds(b);
    case Atomic(b) => TrackBounds(b);
    case Untracked(b) => TrackBounds(b);
  }

  /** The cells the closure writes on every path. */
  function MustWrite(e: Expr): set<Id> {
    match e
    case Lit(_) => {}
    case Get(_) => {}
    case Add(a, b) => MustWrite(a) + MustWrite(b)
    case If(c, t, f) => MustWrite(c) + (MustWrite(t) * MustWrite(f))
    case Put(x, a) => {x} + MustWrite(a)
    case Seq(a, b) => MustWrite(a) + MustWrite(b)
    case Atomic(b) => MustWrite(b)
    case Untracked(b) => MustWrite(b)
  }

  /** Every object the closure refers to was created before `bound` (a closure
      captures objects that already exist), is still alive (a closure holds what
      it captures strongly) and has the right kind: reads go to cells or
      Computeds, writes to cells. */
  ghost predicate WfExpr(e: Expr, bound: nat, decls: seq<Decl>, alive: set<Id>) {
    && (forall x :: x in Reads(e) ==> x < bound && x < |decls| && x in alive && !decls[x].ReactionDecl?)
    && (forall x :: x in Writes(e) ==> x < bound && x < |decls| && x in alive && decls[x].CellDecl?)
  }

  ghost predicate WfHandler(h: Handler, bound: nat, decls: seq<Decl>, alive: set<Id>) {
    && WfExpr(h.track, bound, decls, alive)
    && (forall i :: 0 <= i < |h.sinks| ==>
          h.sinks[i] < bound && h.sinks[i] < |decls| && h.sinks[i] in alive && decls[h.sinks[i]].CellDecl?)
  }

  /** The code an object was created with refers only to objects created
      before it. */
  ghost predicate WfDecl(d: Decl, bound: nat, decls: seq<Decl>, alive: set<Id>) {
    match d
    case CellDecl => true
    case ReactionDecl(h) => WfHandler(h, bound, decls, alive)
    case ComputedDecl(f) => WfExpr(f, bound, decls, alive)
  }

  /** Creating objects past `bound` and keeping everything below it alive
      leaves a declaration well formed. */
  lemma WfDeclExtend(d: Decl, bound: nat, decls: seq<Decl>, alive: set<Id>, decls': seq<Decl>, alive': set<Id>)
    requires WfDecl(d, bound, decls, alive)
    requires bound <= |decls| <= |decls'| && decls'[..|decls|] == decls
    requires forall x :: x < bound && x in alive ==> x in alive'
    ensures WfDecl(d, bound, decls', alive')
  {
    assert forall x: nat :: x < bound ==> decls'[x] == decls[x] by {
      forall x: nat | x < bound ensures decls'[x] == decls[x] {
        assert decls'[..|decls|][x] == decls'[x];
      }
    }
  }

  /** The code of `d` holds a strong reference to object `x`. */
  ghost predicate Captures(d: Decl, x: Id) {
    match d
    case CellDecl => false
    case ReactionDecl(h) => x in Reads(h.track) || x in Writes(h.track) || x in h.sinks
    case ComputedDecl(f) => x in Reads(f) || x in Writes(f)
  }

  /** An object nothing captures can go away without making any
      declaration refer to a dead object. */
  lemma WfDeclRelease(d: Decl, bound: nat, decls: seq<Decl>, alive: set<Id>, x: Id)
    requires WfDecl(d, bound, decls, alive) && !Captures(d, x)
    ensures WfDecl(d, bound, decls, alive - {x})
  {
    match d
    case CellDecl =>
    case ReactionDecl(h) =>
      forall i | 0 <= i < |h.sinks| ensures h.sinks[i] != x {
        assert h.sinks[i] in h.sinks;
      }
    case ComputedDecl(f) =>
  }

  /** Every read the closure makes is of a plain cell, so no `Computed`
      getter runs in the middle of it; writes are allowed. */
  ghost predicate ReadsCellsOnly(e: Expr, decls: seq<Decl>) {
    match e
    case Lit(_) => true
    case Get(x) => x < |decls| && decls[x].CellDecl?
    case Add(a, b) => ReadsCellsOnly(a, decls) && ReadsCellsOnly(b, decls)
    case If(c, t, f) => ReadsCellsOnly(c, decls) && ReadsCellsOnly(t, decls) && ReadsCellsOnly(f, decls)
    case Put(_, a) => ReadsCellsOnly(a, decls)
    case Seq(a, b) => ReadsCellsOnly(a, decls) && ReadsCellsOnly(b, decls)
    case Atomic(b) => ReadsCellsOnly(b, decls)
    case Untracked(b) => ReadsCellsOnly(b, decls)
  }

  /** A closure over cells reads nothing but cells. */
  lemma {:induction false} CellsOnlyReads(e: Expr, decls: seq<Decl>)
    requires ReadsCellsOnly(e, decls)
    ensures forall x :: x in Reads(e) ==> x < |decls| && decls[x].CellDecl?
  {
    match e
    case Lit(_) =>
    case Get(_) =>
    case Add(a, b) => CellsOnlyReads(a, decls); CellsOnlyReads(b, decls);
    case If(c, t, f) => CellsOnlyReads(c, decls); CellsOnlyReads(t, decls); CellsOnlyReads(f, decls);
    case Put(_, a) => CellsOnlyReads(a, decls);
    case Seq(a, b) => CellsOnlyReads(a, decls); CellsOnlyReads(b, decls);
    case Atomic(b) => CellsOnlyReads(b, decls);
    case Untracked(b) => CellsOnlyReads(b, decls);
  }

  /** The cells in a list of writes. */
  function Elems(w: seq<Id>): set<Id> {
    set x | x in w
  }

  lemma ElemsConcat(a: seq<Id>, b: seq<Id>)
    ensures Elems(a + b) == Elems(a) + Elems(b)
  {
    assert forall x :: x in a + b <==> x in a || x in b;
  }

  /** What a run of a closure over cells does: the value it yields, the
      cells' values afterwards, the ids it reads under its caller's context
      on the path it takes, and the cells it writes, in order. */
  datatype Outcome = Outcome(value: int, store: seq<int>, tracked: set<Id>, written: seq<Id>)

  /** The reference semantics of a closure over cells, given their values by
      id: parts run left to right, a conditional runs only the branch its
      condition selects, a write stores its argument's value, and reads
      inside `Untracked` are not made under the caller's context. */
  function Run(e: Expr, store: seq<int>): (out: Outcome)
    ensures |out.store| == |store|
  {
    match e
    case Lit(n) => Outcome(n, store, {}, [])
    case Get(x) => Outcome(if x < |store| then store[x] else 0, store, {x}, [])
    case Add(a, b) =>
      var oa := Run(a, store);
      var ob := Run(b, oa.store);
      Outcome(oa.value + ob.value, ob.store, oa.tracked + ob.tracked, oa.written + ob.written)
    case If(c, t, f) =>
      var oc := Run(c, store);
      var ob := if oc.value != 0 then Run(t, oc.store) else Run(f, oc.store);
      Outcome(ob.value, ob.store, oc.tracked + ob.tracked, oc.written + ob.written)
    case Put(x, a) =>
      var oa := Run(a, store);
      Outcome(oa.value, if x < |oa.store| then oa.store[x := oa.value] else oa.store, oa.tracked, oa.written + [x])
    case Seq(a, b) =>
      var oa := Run(a, store);
      var ob := Run(b, oa.store);
      Outcome(ob.value, ob.store, oa.tracked + ob.tracked, oa.written + ob.written)
    case Atomic(b) => Run(b, store)
    case Untracked(b) => Run(b, store).(tracked := {})
  }

  /** The reads made on the path taken include every read made on every path
      and are among the reads that can be made under the context. */
  lemma {:induction false} RunTracks(e: Expr, store: seq<int>)
    ensures MustTrack(e) <= Run(e, store).tracked <= MayTrack(e)
  {
    match e
    case Lit(_) =>
    case Get(_) =>
    case Add(a, b) => RunTracks(a, store); RunTracks(b, Run(a, store).store);
    case If(c, t, f) =>
      var s1 := Run(c, store).store;
      RunTracks(c, store); RunTracks(t, s1); RunTracks(f, s1);
    case Put(_, a) => RunTracks(a, store);
    case Seq(a, b) => RunTracks(a, store); RunTracks(b, Run(a, store).store);
    case Atomic(b) => RunTracks(b, store);
    case Untracked(b) =>
  }

  /** The cells written on the path taken include every cell written on every
      path and are among the cells the closure may write, and no other cell's
      value changes. */
  lemma {:induction false} RunWrites(e: Expr, store: seq<int>)
    ensures MustWrite(e) <= Elems(Run(e, store).written) <= Writes(e)
    ensures forall x :: 0 <= x < |store| && x !in Writes(e) ==> Run(e, store).store[x] == store[x]
  {
    match e
    case Lit(_) =>
    case Get(_) =>
    case Add(a, b) =>
      RunWrites(a, store); RunWrites(b, Run(a, store).store);
      ElemsConcat(Run(a, store).written, Run(b, Run(a, store).store).written);
    case If(c, t, f) =>
      var s1 := Run(c, store).store;
      RunWrites(c, store); RunWrites(t, s1); RunWrites(f, s1);
      ElemsConcat(Run(c, store).written, Run(t, s1).written);
      ElemsConcat(Run(c, store).written, Run(f, s1).written);
    case Put(x, a) =>
      RunWrites(a, store);
      ElemsConcat(Run(a, store).written, [x]);
    case Seq(a, b) =>
      RunWrites(a, store); RunWrites(b, Run(a, store).store);
      ElemsConcat(Run(a, store).written, Run(b, Run(a, store).store).written);
    case Atomic(b) => RunWrites(b, store);
    case Untracked(b) => RunWrites(b, store);
  }
}
